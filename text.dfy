/**
 * The string operations the entry is built with: `split(/\s+/)`,
 * `join(sep)`, the title rule `toTitle` and `split('\n')`.
 */
module Text {

  /** A member of JavaScript's `\s` class: the ECMAScript white space and
      line terminator code points. */
  predicate IsSpace(c: char)
  {
    var n := c as int;
    (0x09 <= n <= 0x0D) || n == 0x20 || n == 0xA0 || n == 0x1680 ||
    (0x2000 <= n <= 0x200A) || n == 0x2028 || n == 0x2029 || n == 0x202F ||
    n == 0x205F || n == 0x3000 || n == 0xFEFF
  }

  predicate NoSpace(s: string)
  {
    forall i :: 0 <= i < |s| ==> !IsSpace(s[i])
  }

  /** The run of white space at the front of `s`, removed. */
  function TrimLeft(s: string): (r: string)
    ensures |r| <= |s| && r == s[|s| - |r|..]
    ensures |s| > 0 && IsSpace(s[0]) ==> |r| < |s|
    ensures r == [] || !IsSpace(r[0])
    ensures AllSpace(s[..|s| - |r|])
  {
    if |s| > 0 && IsSpace(s[0]) then
      var r := TrimLeft(s[1..]);
      assert s[..|s| - |r|] == [s[0]] + s[1..][..|s| - 1 - |r|];
      r
    else s
  }

  /** Every character of `s` is white space. */
  predicate AllSpace(s: string)
  {
    s == [] || (IsSpace(s[0]) && AllSpace(s[1..]))
  }

  /** What `split` on a separator pattern returns: never empty, no piece
      holds white space, and only the first and the last piece may be
      empty (when the text starts or ends with white space). */
  predicate WellFormed(words: seq<string>)
  {
    |words| >= 1 &&
    (forall i :: 0 <= i < |words| ==> NoSpace(words[i])) &&
    (forall i :: 0 < i < |words| - 1 ==> words[i] != [])
  }

  /** `s.split(/\s+/)`: each maximal run of white space separates two
      pieces. */
  function Split(s: string): (words: seq<string>)
    ensures WellFormed(words)
    decreases |s|
  {
    if s == [] then [[]]
    else if IsSpace(s[0]) then [[]] + Split(TrimLeft(s))
    else
      var rest := Split(s[1..]);
      [[s[0]] + rest[0]] + rest[1..]
  }

  /** `words.join(sep)`. */
  function JoinSep(words: seq<string>, sep: string): (joined: string)
    ensures |words| >= 1 ==> words[0] <= joined
    ensures |words| >= 1 ==> |joined| == TotalLength(words) + (|words| - 1) * |sep|
  {
    if |words| == 0 then []
    else if |words| == 1 then words[0]
    else words[0] + (sep + JoinSep(words[1..], sep))
  }

  /** The summed length of the pieces. */
  function TotalLength(words: seq<string>): nat
  {
    if |words| == 0 then 0 else |words[0]| + TotalLength(words[1..])
  }

  function Min(a: nat, b: nat): nat
  {
    if a <= b then a else b
  }

  /** The first five pieces of the split text. */
  function TitleWords(s: string): (words: seq<string>)
    ensures 1 <= |words| <= 5 && WellFormed(words)
    ensures |words| == Min(5, |Split(s)|) && words == Split(s)[..|words|]
  {
    var all := Split(s);
    all[..Min(5, |all|)]
  }

  /** `toTitle`: the first five pieces joined by single spaces. The title
      is one line, and splitting it gives back exactly those pieces: one to
      five white-space-free words, the text's first ones. */
  function ToTitle(s: string): (title: string)
    ensures '\n' !in title
    ensures Split(title) == TitleWords(s)
  {
    var words := TitleWords(s);
    SplitJoin(words);
    JoinNoSpace(words);
    JoinSep(words, " ")
  }

  /** A text without white space splits into just itself. */
  lemma {:induction false} SplitWord(w: string)
    requires NoSpace(w)
    ensures Split(w) == [w]
    decreases |w|
  {
    if w != [] {
      assert !IsSpace(w[0]);
      SplitWord(w[1..]);
      assert [w[0]] + w[1..] == w;
    }
  }

  /** A word followed by white space and more text: the word is the first
      piece and the rest splits on its own. */
  lemma {:induction false} SplitAfterWord(w: string, t: string)
    requires NoSpace(w) && t != [] && IsSpace(t[0])
    ensures Split(w + t) == [w] + Split(TrimLeft(t))
    decreases |w|
  {
    if w == [] {
      assert w + t == t;
    } else {
      var u := w[1..] + t;
      assert w + t == [w[0]] + u;
      assert NoSpace(w[1..]);
      SplitAfterWord(w[1..], t);
      SplitCons(w[0], u);
      FirstPieceGrows(w, Split(u), Split(TrimLeft(t)));
    }
  }

  /** Putting back the first character of a word in front of its rest. */
  lemma FirstPieceGrows(w: string, rest: seq<string>, tail: seq<string>)
    requires w != [] && rest == [w[1..]] + tail
    ensures [[w[0]] + rest[0]] + rest[1..] == [w] + tail
  {
    assert [w[0]] + rest[0] == w;
    assert rest[1..] == tail;
  }

  /** A text starting with a non-space character: that character joins
      the first piece of the rest. */
  lemma SplitCons(c: char, u: string)
    requires !IsSpace(c)
    ensures var rest := Split(u); Split([c] + u) == [[c] + rest[0]] + rest[1..]
  {
    assert ([c] + u)[1..] == u;
  }

  /** Splitting undoes joining with one space, for any well-formed list of
      pieces. */
  lemma {:induction false} SplitJoin(words: seq<string>)
    requires WellFormed(words)
    ensures Split(JoinSep(words, " ")) == words
    decreases |words|
  {
    if |words| == 1 {
      SplitWord(words[0]);
    } else {
      var rest := words[1..];
      TailWellFormed(words);
      var joined := JoinSep(rest, " ");
      NotSpaceHead(rest);
      TrimOneSpace(joined);
      SplitAfterWord(words[0], " " + joined);
      SplitJoin(rest);
    }
  }

  /** One space in front of a text that does not start with white space is
      exactly what `TrimLeft` removes. */
  lemma TrimOneSpace(s: string)
    requires s == [] || !IsSpace(s[0])
    ensures TrimLeft(" " + s) == s
  {
    assert (" " + s)[1..] == s;
  }

  /** Dropping the first of several pieces leaves a well-formed list whose
      first piece is non-empty unless it is also the last. */
  lemma TailWellFormed(words: seq<string>)
    requires WellFormed(words) && |words| >= 2
    ensures WellFormed(words[1..])
    ensures |words| == 2 || words[1] != []
  {
    var rest := words[1..];
    forall i | 0 < i < |rest| - 1
      ensures rest[i] != []
    {
      assert rest[i] == words[i + 1];
    }
  }

  /** A joined list whose first piece is non-empty (or is the only piece
      of several) does not start with white space. */
  lemma NotSpaceHead(words: seq<string>)
    requires WellFormed(words) && (|words| == 1 || words[0] != [])
    ensures var j := JoinSep(words, " "); j == [] || !IsSpace(j[0])
  {
    if |words| > 1 {
      assert JoinSep(words, " ")[0] == words[0][0];
    }
  }

  /** Applying `toTitle` to a title changes nothing. */
  lemma ToTitleIdempotent(s: string)
    ensures ToTitle(ToTitle(s)) == ToTitle(s)
  {
    var words := TitleWords(s);
    assert Split(ToTitle(s))[..|words|] == words;
  }

  lemma {:induction false} JoinNoSpace(words: seq<string>)
    requires forall i :: 0 <= i < |words| ==> NoSpace(words[i])
    ensures '\n' !in JoinSep(words, " ")
    decreases |words|
  {
    assert IsSpace('\n');
    if |words| > 0 {
      assert '\n' !in words[0];
    }
    if |words| > 1 {
      JoinNoSpace(words[1..]);
    }
  }

  /** `s.split('\n')`: the lines of `s`, every `'\n'` separating two lines;
      other line terminators stay inside lines. */
  function LinesOf(s: string): (lines: seq<string>)
    ensures |lines| >= 1
    ensures forall i :: 0 <= i < |lines| ==> '\n' !in lines[i]
  {
    if s == [] then [[]]
    else if s[0] == '\n' then [[]] + LinesOf(s[1..])
    else
      var rest := LinesOf(s[1..]);
      [[s[0]] + rest[0]] + rest[1..]
  }

  /** A line followed by `'\n'` comes out as one element. */
  lemma {:induction false} LinesAfterLine(line: string, rest: string)
    requires '\n' !in line
    ensures LinesOf(line + "\n" + rest) == [line] + LinesOf(rest)
    decreases |line|
  {
    if line == [] {
      assert line + "\n" + rest == "\n" + rest;
      assert ("\n" + rest)[1..] == rest;
    } else {
      assert (line + "\n" + rest)[0] == line[0] != '\n';
      assert (line + "\n" + rest)[1..] == line[1..] + "\n" + rest;
      LinesAfterLine(line[1..], rest);
      assert [line[0]] + line[1..] == line;
    }
  }

  /** `s.replace(/^prefix/, '')` for a literal prefix. */
  function DropPrefix(s: string, prefix: string): (r: string)
    ensures prefix <= s ==> s == prefix + r
    ensures !(prefix <= s) ==> r == s
  {
    if prefix <= s then s[|prefix|..] else s
  }
}
