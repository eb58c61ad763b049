# ipsum-blog-generator, modelled in Dafny

`index.js` generates dummy blog entries in Markdown. Each entry comes from a
SHA-1 hex digest, the *hint*. Fixed windows of hex digits in the hint give
the seeds. A seed drives a xor128 pseudo-random generator. The generator
feeds a lorem-ipsum library that writes paragraphs. An entry is a
front-matter frame (`---`, `title:`, `date:`, `---`) followed by
paragraphs and `## ` headings joined by blank lines.

The model has six modules:

- `Xorshift` (`xorshift.dfy`): `calculateXorShift128`, Marsaglia's xor128
  step ("Xorshift RNGs", Journal of Statistical Software 8(14), 2003), on
  `bv32` words, including how the JavaScript call treats its arguments.
- `Fraction` (`fraction.dfy`): `reduceToDecimalFraction`. It has two
  versions: the reducer as written, whose assertion can fire, and the
  corrected reducer that the generator uses (see Findings).
- `Prng` (`prng.dfy`): `generatePRNG`. The closure and its captured `vec`
  become the class `Generator`, whose method `Next` replaces the field.
  The values a generator returns are specified by the function `Stream`.
  `getIpsumParagraph` is the lorem-ipsum library applied to a generator.
- `Text` (`text.dfy`): `split(/\s+/)`, `join`, the title rule `toTitle`
  and `split('\n')`.
- `Digest` (`digest.dfy`): hex digits, `parseInt(…, 16)` and `getSeed`.
  `getSeed` becomes a method whose loop grows the hint by appending the
  digest of the hint.
- `Entry` (`entry.dfy`): `generateNewEntry`, as a method that reads the
  windows in the code's order, plus the specification `EntryText`. Also
  the title extraction that `generateNewBlog` applies to an entry.

Some collaborators are parameters of the model:

- the SHA-1 function (`Digest.Hasher`), which returns 40 lower-case hex
  digits;
- the lorem-ipsum library (`Prng.Lorem`), a function of the random source
  it reads;
- the date formatting (`Entry.DateFormat`), applied to the millisecond
  offset.

## Model

| member | source | states |
|---|---|---|
| Xorshift.Step | index.js:30-36 | one step moves the state one slot left, `(x, y, z, w)` to `(y, z, w, w1)`, and the returned word is the new fourth slot |
| Xorshift.Outputs | index.js:30-36 | `n` steps produce exactly `n` words |
| Xorshift.OutputsPrefix | index.js:30-36 | taking more steps only extends the words produced |
| Xorshift.AfterAdd | index.js:30-36 | `a` steps followed by `b` steps are `a + b` steps |
| Xorshift.StateIsLastFourOutputs | index.js:30-36 | after four or more steps the state is exactly the last four words produced |
| Xorshift.ToVec | index.js:30-36 | a state written as a four-element array reads back as the same state |
| Xorshift.CalculateXorShift128 | index.js:16-37 | the call fails its assertion exactly when it has two or more arguments, or one array that does not have four entries; otherwise the result is a four-word array whose last entry is the returned word and whose first three are the input's last three |
| Xorshift.NoArgumentIsBootstrap | index.js:19-27 | calling with no argument, with `undefined`, or with the array (123456789, 362436069, 521288629, 88675123) gives the same result; its word is 3701687786, the `bv32` bit pattern of the JavaScript value -593279510 |
| Xorshift.ExplicitStateIsStep | index.js:28-36 | with a four-entry array the call returns one step's word and the stepped state |
| Fraction.Pow2 | index.js:48-49 | powers of two are positive |
| Fraction.DropBitsConstants | index.js:43-45 | `dropBits` is 10 when `floor(log2(2^53 - 1))` is 53; the assertion `0 < dropBits < 31` holds; the constants are 2^10, 2^21, 2^31, 2^22 - 1 and 2^53 - 1 |
| Fraction.Pow2Sum | index.js:48-49 | `2^(a+b) = 2^a * 2^b` |
| Fraction.HighPart | index.js:46 | `x >>> 10` is at most 2^22 - 1 |
| Fraction.LowPart | index.js:47 | `y >>> 1` is below 2^31 |
| Fraction.ReduceAsWritten | index.js:46-51 | the reducer as written fails its bound assertion exactly when `x >>> 10 = 2^22 - 1` and `y >>> 1 = 2^31 - 1`; otherwise the numerator is below 2^53 - 1; it is 0 exactly at (0, 0) and at the guarded pair (2^21 - 1, 2^31 - 1) |
| Fraction.CombineAsWritten | index.js:48-51 | the same statements as for `ReduceAsWritten`, about the two shifted parts |
| Fraction.AsWrittenFailsOnAllOnes | index.js:48-51 | for x = y = 0xFFFFFFFF the parts are at their maxima, the packed value is 2^53 - 1, and the as-written reducer fails its assertion |
| Fraction.Reduce | index.js:46-51 | the corrected numerator is always below 2^53 - 1; it is 0 exactly when both parts are 0 or both are at their maxima |
| Fraction.Combine | index.js:48-49 | the same bound and zero condition as for `Reduce`, about the two shifted parts |
| Fraction.ReduceKeepsBothParts | index.js:49 | outside the guarded pair, the numerator divided by 2^31 is `x >>> 10`, and modulo 2^31 it is `y >>> 1` |
| Fraction.AsWrittenAgreesElsewhere | index.js:48-51 | the as-written and corrected reducers agree, except where `y >>> 1 = 2^31 - 1` and `x >>> 10` is 2^21 - 1 or 2^22 - 1 |
| Fraction.ReduceIgnoresDroppedBits | index.js:46-47 | changing the low 10 bits of `x`, or the lowest bit of `y`, changes neither reducer's result |
| Fraction.SameQuotient | index.js:46-47 | two numbers with the same multiple-of-`k` part have the same quotient by `k` |
| Fraction.ToFraction | index.js:52-54 | the fraction lies in [0, 1) |
| Prng.ToInt32 | index.js:61 | ECMAScript's ToInt32 of `n` (the `0 OR n` idiom) lies in [-2^31, 2^31) and is congruent to `n` modulo 2^32 |
| Prng.Abs | index.js:61 | `Math.abs(n)` is `n` or `-n` |
| Prng.SeedSlot | index.js:61 | the seed slot is a signed 32-bit integer |
| Prng.InitialState | index.js:59-61 | a fresh generator's state keeps slots 0, 1 and 3 of the bootstrap state after one step |
| Prng.SeedSlotValues | index.js:61 | the slot equals the seed for seeds in [0, 2^31); it is negative (then -2^31) exactly when the seed is -2^31 modulo 2^32; it is 0 exactly when the seed is a multiple of 2^32 |
| Prng.InitialSlotIsSeed | index.js:59-61 | for a seed in [0, 2^31), slot 2 of the fresh state holds the seed |
| Prng.SeedSignIgnored | index.js:61 | a seed and its negation give the same slot and the same fresh state |
| Prng.DrawValue | index.js:63-65 | a draw returns a value in [0, 1) |
| Prng.Stream | index.js:62-67 | `n` draws give `n` values, each in [0, 1) |
| Prng.DrawsUseConsecutiveWordPairs | index.js:62-67 | draw `i` reduces output words `2i` and `2i + 1` of the xor128 sequence from the fresh state: no word is skipped or reused |
| Prng.StreamAt | index.js:62-67 | value `i` is the draw from the state after `i` draws |
| Prng.StreamPrefix | index.js:62-67 | drawing more values only extends the values drawn before |
| Prng.StreamIgnoresSeedSign | index.js:61-67 | seeds `s` and `-s` yield the same values |
| Prng.Generator.constructor | index.js:58-61 | a fresh generator's state is the initial state for its seed, with no draws yet |
| Prng.Generator.Next | index.js:62-67 | a draw advances `vec` by exactly two xor128 steps, returns the reduction of the two words those steps produce from the state before the call, a value in [0, 1), and keeps `vec` equal to the state after one more draw of the seed |
| Prng.Append | index.js:62-67 | the value drawn from the state after `i` draws extends the first `i` values of the stream to the first `i + 1` |
| Prng.DrawMany | index.js:58-69 | `n` calls of one generator return the first `n` values of its seed's stream |
| Prng.TwoGenerators | index.js:58-69 | two generators, drawn from alternately, each return their own seed's stream; generators with the same seed return the same values |
| Prng.IpsumParagraph | index.js:72-84 | the paragraph of seed `s` is the lorem-ipsum library applied to the generator of `-s`: the sign of the seed does not matter |
| Prng.RandomSourceIsStream | index.js:72-84 | the random source handed to the lorem-ipsum library returns the seed's stream in order |
| Text.TrimLeft | index.js:121 | removing leading white space leaves a suffix that does not start with white space, strictly shorter when there was some, and everything removed is white space |
| Text.Split | index.js:121 | `split(/\s+/)` returns at least one piece; no piece holds white space; only the first and last may be empty |
| Text.JoinSep | index.js:121 | `join(sep)` of a non-empty list starts with the first piece and is as long as all pieces plus one separator between each two |
| Text.ToTitle | index.js:121 | a title has no line break, and splitting it returns exactly the first `min(5, count)` pieces of the split text |
| Text.TitleWords | index.js:121 | the title takes the first `min(5, count)` split pieces |
| Text.SplitWord | index.js:121 | text without white space splits into itself alone |
| Text.SplitAfterWord | index.js:121 | a word followed by white space splits into the word and then the split of the rest |
| Text.SplitCons | index.js:121 | a non-space character in front of a text joins the first piece of that text's split |
| Text.FirstPieceGrows | index.js:121 | putting a word's first character back in front of its remainder, as the first piece, gives the word as the first piece |
| Text.SplitJoin | index.js:121 | joining a well-formed list of pieces with single spaces and splitting again gives the list back |
| Text.TailWellFormed | index.js:121 | the pieces after the first of a well-formed list are well formed |
| Text.TrimOneSpace | index.js:121 | a single separating space in front of a word-initial text is exactly what is trimmed |
| Text.NotSpaceHead | index.js:121 | a joined list that starts with a non-empty piece does not start with white space |
| Text.ToTitleIdempotent | index.js:121 | applying `toTitle` to a title changes nothing |
| Text.JoinNoSpace | index.js:121 | pieces without white space, joined by spaces, contain no line break |
| Text.LinesOf | index.js:146 | `split('\n')` returns at least one line, and no line contains a line break |
| Text.LinesAfterLine | index.js:146 | a line followed by a line break comes out as one element in front of the remaining lines |
| Text.DropPrefix | index.js:146 | `replace(/^title: /, '')` removes the prefix exactly when the text starts with it, and leaves the text unchanged otherwise |
| Digest.DigitValue | index.js:119 | a hex digit's value is below 16 |
| Digest.HexDigit | index.js:119 | each value below 16 has a lower-case hex digit that reads back as the value |
| Digest.Pow16 | index.js:119 | powers of 16 are positive |
| Digest.HexValue | index.js:119 | `parseInt` of `n` hex digits is below 16^n |
| Digest.Digits | index.js:119 | appending a low digit to a number below `b` gives a number below `16b` |
| Digest.ToHex | index.js:119 | the hex writing of a number has the requested length and only hex digits |
| Digest.HexValueToHex | index.js:119 | reading back the `len` digits of a number below 16^len gives the number |
| Digest.ToHexHexValue | index.js:119 | writing back the value of a hex string gives the string |
| Digest.Extended | index.js:115-117 | the grown hint reaches the needed length; the old hint is a prefix; the hint is unchanged when it is long enough; otherwise it overshoots by less than one digest; it grows only by whole 40-digit digests; it stays hex |
| Digest.ExtendedCompose | index.js:115-117 | growing to `a` and then to `b >= a` is growing to `b` |
| Digest.ExtendedTwice | index.js:115-117 | two growths in either order reach the larger target |
| Digest.ExtendedMonotone | index.js:115-117 | a shorter growth is a prefix of a longer one |
| Digest.SeedAt | index.js:112-120 | a seed read from `len` digits is below 16^len |
| Digest.SeedIgnoresEarlierGrowth | index.js:112-120 | growth of the hint by earlier calls never changes the seed a window yields |
| Digest.SeedInsideHint | index.js:115-119 | a window inside the hint reads the hint's own digits |
| Digest.GetSeed | index.js:112-120 | the loop stops with the window inside the hint; the new hint is the specified growth of the old one; the seed is the window's hex value and is below 16^len |
| Entry.Block | index.js:126-132 | a block whose seed is a multiple of 7 is `## ` followed by the title of the seed's paragraph, one line of at most five words; any other block is the seed's paragraph unchanged |
| Entry.Blocks | index.js:124-133 | the body has one block per index, and block `i` comes from the seed of window (9 + i, 7) |
| Entry.BlocksGrow | index.js:124-133 | one more block index appends that index's block at the end of the body |
| Entry.BlockCount | index.js:124 | the body has between 1 and 256 blocks |
| Entry.DateOffsetMs | index.js:123 | the date offset is block 0's seed in seconds, below 16^7 seconds |
| Entry.Title | index.js:121-122 | the entry title is one line of one to five words, the first words of the paragraph of window (0, 7)'s seed |
| Entry.Frame | index.js:135 | the entry is the title, the date and the body plus 24 characters of fences, keys and line breaks; it starts with `---` and ends with a line break |
| Entry.EntryText | index.js:110-136 | extracting the title line of the specified entry text returns the entry's title |
| Entry.ReadBlocks | index.js:124-133 | reading windows (9 + i, 7) for each block index while the hint grows gives exactly the specified body blocks |
| Entry.ReadWindow | index.js:112-120 | reading a window from a hint already grown by earlier reads gives the seed of the original hint, and the hint ends up grown to the larger reach |
| Entry.GenerateNewEntry | index.js:110-136 | a hint whose length is not 40 fails the assertion; otherwise, reading the windows in the code's order while the hint grows gives exactly the specified entry text |
| Entry.ExtractTitle | index.js:146 | title extraction finds no title line exactly when the text has a single line |
| Entry.FrameLines | index.js:135 | the first four lines of an entry are `---`, `title: T`, `date: D` and `---` |
| Entry.FrameTitleLine | index.js:135 | the second line of an entry is `title: T`, whatever the date text is |
| Entry.BlockSeedsFromDigest | index.js:115-126 | for a 40-digit hint, blocks 0 to 24 read the hint itself; blocks 25 to 64 read the digest of the hint appended to it |

## Left out

- `outputNewEntryAsync` (index.js:96-106): file-system I/O with promises, including the race between the stat and the write.
- `generateNewBlog` (index.js:140-153) is left out: it is console output and I/O promises. Entry `i` is seeded with the digest of `salt + i` and named by that digest. Only its title extraction at index.js:146 is modelled, as `Entry.ExtractTitle`.
- `getHash` (index.js:88-92) calls Node's crypto module. It is the parameter `Digest.Hasher`: any function returning 40 lower-case hex digits.
- `getIpsumParagraph` (index.js:72-84): the lorem-ipsum library is not part of this model. It is the parameter `Prng.Lorem`, a function of the random source it reads. The model fixes that source to be the generator built from the seed.
- Date handling (index.js:123): parsing `2000-01-01T00:00:00` as local time depends on the time zone, and `toISOString` is library formatting. Both are the parameter `Entry.DateFormat`, applied to the offset `getSeed(9, 7) * 1000` ms.
- Fraction.DropBitsConstants: `dropBits` is fixed at 10, because `Math.log2` is floating point. The 9 that the source comment allows is not modelled.
- Prng.DrawValue: it reduces with the corrected `Fraction.Reduce`, not with the reducer as written, so it differs from the source on two pairs of `(x >>> 10, y >>> 1)`. On (2^22 - 1, 2^31 - 1) the source fails its assertion at index.js:51 and the model returns 0. On (2^21 - 1, 2^31 - 1) the source returns 0 and the model returns (2^52 - 1) / (2^53 - 1). `Prng.Stream`, `Prng.Generator.Next`, `Prng.DrawMany` and `Prng.IpsumParagraph` inherit this difference. The as-written behaviour is `Fraction.ReduceAsWritten` (see Findings).
- Fraction.ToFraction: the division by `Number.MAX_SAFE_INTEGER` is an exact real quotient, not a double.
- Xorshift.CalculateXorShift128: non-array arguments and arrays of non-integers are excluded by the argument type. So the `Array.isArray` assertion and JavaScript's coercion of non-integer entries are not modelled. `Object.freeze` has no counterpart, since the results are values.
- Prng.SeedSlot: seeds are integers. Fractional, NaN and infinite seeds are not modelled.
- Digest.GetSeed: the hint must consist of lower-case hex digits. `parseInt`'s partial parse of other text is not modelled. The `0 <= offset` assertion holds by the `nat` type.
- Entry.GenerateNewEntry: it inherits the hex requirement from `GetSeed`. A 40-character hint with non-hex characters is not modelled.
- Dead code under `if (false)` (index.js:155-162) and the command-line handling (index.js:164-166).

## Findings

| source | as written | input that shows it | evidently intended | confidence | as-written member | corrected member |
|---|---|---|---|---|---|---|
| index.js:48-51 | the guard returns 0 when `x >>> dropBits` equals 2^(31 - dropBits) - 1 = 2^21 - 1, but with `dropBits = 10` that shift keeps 22 bits and can reach 2^22 - 1 | x = y = 0xFFFFFFFF: then `x1 = 2^22 - 1`, `y1 = 2^31 - 1`, `z = 2^53 - 1`, and `assert(z < Number.MAX_SAFE_INTEGER)` fails | the guard tests the true maximum `x1 = 2^(32 - dropBits) - 1`, so every input yields `z < 2^53 - 1` and a result in [0, 1) | not executed | Fraction.ReduceAsWritten, Fraction.AsWrittenFailsOnAllOnes | Fraction.Reduce |
