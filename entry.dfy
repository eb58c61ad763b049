/**
 * `generateNewEntry`: a Markdown entry with a front-matter frame, built
 * entirely from windows of a SHA-1 hex digest (the hint).
 *
 * Window (0, 7) seeds the title paragraph, window (9, 7) the date offset,
 * window (7, 2) the number of blocks, and window (9 + i, 7) block `i`.
 */
module Entry {
  import opened Text
  import opened Digest
  import opened Prng

  /** Turns the entry's time offset, in milliseconds after
      2000-01-01T00:00:00 local time, into the ISO text of the date. */
  type DateFormat = int -> string

  /** A block is a heading when its seed is a multiple of this. */
  const HeadingPeriod: nat := 7

  const HeadingMark: string := "## "

  /** Block `i` of the body from its seed: a heading made of the title rule
      applied to the paragraph, or the paragraph itself. */
  function Block(seed: nat, lorem: Lorem): (block: string)
    ensures seed % HeadingPeriod == 0 ==>
              block == HeadingMark + ToTitle(IpsumParagraph(seed, lorem)) &&
              '\n' !in block && |Split(block[|HeadingMark|..])| <= 5
    ensures seed % HeadingPeriod != 0 ==> block == IpsumParagraph(seed, lorem)
  {
    var text := IpsumParagraph(seed, lorem);
    if seed % HeadingPeriod == 0 then
      assert (HeadingMark + ToTitle(text))[|HeadingMark|..] == ToTitle(text);
      HeadingMark + ToTitle(text)
    else text
  }

  function BlockSeed(h: string, i: nat, hash: Hasher): nat
    requires IsHex(h)
  {
    SeedAt(h, 9 + i, 7, hash)
  }

  /** The first `n` blocks of the body: `map` over the block indices. */
  function Blocks(h: string, n: nat, hash: Hasher, lorem: Lorem): (blocks: seq<string>)
    requires IsHex(h)
    ensures |blocks| == n
    ensures forall i :: 0 <= i < n ==> blocks[i] == Block(BlockSeed(h, i, hash), lorem)
  {
    seq(n, i requires 0 <= i < n => Block(BlockSeed(h, i, hash), lorem))
  }

  /** One more block index adds that block at the end. */
  lemma BlocksGrow(h: string, n: nat, hash: Hasher, lorem: Lorem)
    requires IsHex(h)
    ensures Blocks(h, n + 1, hash, lorem) == Blocks(h, n, hash, lorem) + [Block(BlockSeed(h, n, hash), lorem)]
  {
    var longer := Blocks(h, n + 1, hash, lorem);
    var shorter := Blocks(h, n, hash, lorem);
    forall i | 0 <= i < n
      ensures longer[i] == shorter[i]
    {
    }
    assert longer[..n] == shorter;
    assert longer == longer[..n] + [longer[n]];
  }

  /** `getSeed(7, 2) + 1`: between one and 256 blocks. */
  function BlockCount(h: string, hash: Hasher): (n: nat)
    requires IsHex(h)
    ensures 1 <= n <= 256
  {
    assert Pow16(2) == 256;
    SeedAt(h, 7, 2, hash) + 1
  }

  /** The title: one line of at most five words, the first words of the
      paragraph seeded by window (0, 7). */
  function Title(h: string, hash: Hasher, lorem: Lorem): (title: string)
    requires IsHex(h)
    ensures '\n' !in title && 1 <= |Split(title)| <= 5
    ensures Split(title) == TitleWords(IpsumParagraph(SeedAt(h, 0, 7, hash), lorem))
  {
    ToTitle(IpsumParagraph(SeedAt(h, 0, 7, hash), lorem))
  }

  /** `getSeed(9, 7) * 1000`: the date window is block 0's window, so the
      date is block 0's seed in seconds. */
  function DateOffsetMs(h: string, hash: Hasher): (ms: nat)
    requires IsHex(h)
    ensures ms == 1000 * BlockSeed(h, 0, hash) && ms < 1000 * Pow16(7)
  {
    SeedAt(h, 9, 7, hash) * 1000
  }

  /** The front-matter frame around the body. */
  function Frame(title: string, date: string, body: string): (text: string)
    ensures |text| == |title| + |date| + |body| + 24
    ensures "---" <= text && text[|text| - 1] == '\n'
  {
    "---" + "\n" + ("title: " + title + "\n" + ("date: " + date + "\n" + ("---" + "\n" + (body + "\n"))))
  }

  /** The text of the entry generated from hint `h`. */
  function EntryText(h: string, hash: Hasher, lorem: Lorem, formatDate: DateFormat): (text: string)
    requires IsHex(h)
    ensures ExtractTitle(text) == Some(Title(h, hash, lorem))
  {
    var title := Title(h, hash, lorem);
    var blocks := Blocks(h, BlockCount(h, hash), hash, lorem);
    var text := Frame(title, formatDate(DateOffsetMs(h, hash)), JoinSep(blocks, "\n\n"));
    FrameTitleLine(title, formatDate(DateOffsetMs(h, hash)), JoinSep(blocks, "\n\n"));
    assert "title: " <= "title: " + title;
    text
  }

  /** The generator's result: the entry, or the failed assertion that the
      hint is a SHA-1 digest. */
  datatype Generated = Generated(text: string) | HintLengthError

  /** `generateNewEntry(hint)`: reads the windows in the order the code
      does, growing one hint as it goes. */
  method GenerateNewEntry(hint: string, hash: Hasher, lorem: Lorem, formatDate: DateFormat)
      returns (r: Generated)
    requires IsHex(hint)
    ensures |hint| != DigestLength ==> r == HintLengthError
    ensures |hint| == DigestLength ==> r == Generated(EntryText(hint, hash, lorem, formatDate))
  {
    if |hint| != DigestLength {
      return HintLengthError;
    }
    var grown := hint;
    ghost var reach: nat := 0;
    var titleSeed, dateSeed, countSeed;
    titleSeed, grown := GetSeed(grown, 0, 7, hash);
    reach := 7;
    var title := ToTitle(IpsumParagraph(titleSeed, lorem));
    dateSeed, grown := GetSeed(grown, 9, 7, hash);
    reach := ReadWindow(hint, reach, 9, 7, hash);
    var date := formatDate(dateSeed * 1000);
    countSeed, grown := GetSeed(grown, 7, 2, hash);
    reach := ReadWindow(hint, reach, 7, 2, hash);
    var blocks;
    blocks, grown := ReadBlocks(hint, grown, reach, countSeed + 1, hash, lorem);
    assert title == Title(hint, hash, lorem);
    assert date == formatDate(DateOffsetMs(hint, hash));
    assert blocks == Blocks(hint, BlockCount(hint, hash), hash, lorem);
    r := Generated(Frame(title, date, JoinSep(blocks, "\n\n")));
  }

  /** The body's `map` over block indices: block `i` reads window
      (9 + i, 7) from the hint as grown so far. */
  method ReadBlocks(hint: string, grown: string, ghost reach: nat, count: nat, hash: Hasher, lorem: Lorem)
      returns (blocks: seq<string>, grownAfter: string)
    requires IsHex(hint) && grown == Extended(hint, reach, hash)
    ensures blocks == Blocks(hint, count, hash, lorem)
  {
    grownAfter := grown;
    ghost var reached := reach;
    blocks := [];
    var i := 0;
    while i < count
      invariant i <= count
      invariant grownAfter == Extended(hint, reached, hash)
      invariant blocks == Blocks(hint, i, hash, lorem)
    {
      var seed;
      seed, grownAfter := GetSeed(grownAfter, 9 + i, 7, hash);
      reached := ReadWindow(hint, reached, 9 + i, 7, hash);
      BlocksGrow(hint, i, hash, lorem);
      blocks := blocks + [Block(seed, lorem)];
      i := i + 1;
    }
  }

  /** Reading window (offset, len) from the hint grown to `reach`: the hint
      is then grown to the larger of the two, and the seed is the one read
      from the original hint. */
  lemma ReadWindow(h: string, reach: nat, offset: nat, len: nat, hash: Hasher)
      returns (next: nat)
    requires IsHex(h)
    ensures next == if reach <= offset + len then offset + len else reach
    ensures Extended(Extended(h, reach, hash), offset + len, hash) == Extended(h, next, hash)
    ensures SeedAt(Extended(h, reach, hash), offset, len, hash) == SeedAt(h, offset, len, hash)
  {
    next := if reach <= offset + len then offset + len else reach;
    ExtendedTwice(h, reach, offset + len, hash);
    SeedIgnoresEarlierGrowth(h, reach, offset, len, hash);
  }

  // ---------------------------------------------------------------------
  // Reading the entry back

  datatype Option<T> = None | Some(value: T)

  /** `data.split('\n')[1].replace(/^title: /, '')`: the title line of an
      entry without its key; a text with a single line has no title line. */
  function ExtractTitle(text: string): (title: Option<string>)
    ensures title.None? <==> |LinesOf(text)| < 2
  {
    var lines := LinesOf(text);
    if |lines| < 2 then None else Some(DropPrefix(lines[1], "title: "))
  }

  /** The first four lines of a frame are the fences, the title and the
      date, as long as the title and the date are single lines. */
  lemma FrameLines(title: string, date: string, body: string)
    requires '\n' !in title && '\n' !in date
    ensures var lines := LinesOf(Frame(title, date, body));
            |lines| >= 4 && lines[..4] == ["---", "title: " + title, "date: " + date, "---"]
  {
    var tail := body + "\n";
    LinesAfterLine("---", ("title: " + title) + "\n" + (("date: " + date) + "\n" + ("---" + "\n" + tail)));
    LinesAfterLine("title: " + title, ("date: " + date) + "\n" + ("---" + "\n" + tail));
    LinesAfterLine("date: " + date, "---" + "\n" + tail);
    LinesAfterLine("---", tail);
  }

  /** The second line of a frame is the title line, whatever the date. */
  lemma FrameTitleLine(title: string, date: string, body: string)
    requires '\n' !in title
    ensures var lines := LinesOf(Frame(title, date, body));
            |lines| >= 2 && lines[1] == "title: " + title
  {
    var tail := "date: " + date + "\n" + ("---" + "\n" + (body + "\n"));
    LinesAfterLine("---", ("title: " + title) + "\n" + tail);
    LinesAfterLine("title: " + title, tail);
  }

  /** With a 40-digit hint, the title, date and count windows and the first
      25 block windows read the hint itself; the next 40 blocks read the
      digest of the hint appended to it. */
  lemma BlockSeedsFromDigest(h: string, i: nat, hash: Hasher)
    requires IsHex(h) && |h| == DigestLength
    ensures i <= 24 ==> BlockSeed(h, i, hash) == HexValue(h[9 + i..16 + i])
    ensures 25 <= i <= 64 ==>
              BlockSeed(h, i, hash) == HexValue((h + hash(h))[9 + i..16 + i])
  {
  }
}
