# Markov-chain name generator, modelled in Dafny

`name_generator.py` learns how syllables are built from a corpus of words
written with hyphens between syllables (`ka-ris`), and then invents new
names by walking what it learned. This project models the class
`NameGenerator` and the two lines of the driver that choose a syllable count.

- **Learning** (`__init__`). Every corpus line is stripped; blank lines are
  skipped. Each other line:
  - adds one to the count of its syllable count, the number of `-` plus one;
  - is split into syllables at `-`;
  - has each syllable split by the regular expression
    `(y|[^aeiouy]*)([aeiouy]+|$)([^aeiouy]*)` into onset, nucleus and coda.
  Segment kind `t` (0 onset, 1 nucleus, 2 coda) is counted in table `t`
  under the predecessor key. The key starts each line as `None` and moves to
  every non-empty segment, across segment kinds and syllables.
- **Weighted choice** (`get_key`). It draws `index` in `[0, total)` and
  returns the first key, in insertion order, whose running sum of counts
  passes `index`.
- **Generation** (`generate_name`). It draws `3 * numSyllables` segments,
  onset, nucleus and coda in turn, each from the table of its kind under
  the current key. It gives up (`None`) on a key the table does not have,
  and culls names of 11 or more characters. Otherwise it returns the
  concatenation title-cased.

Modules, one file each:

- `wrappers.dfy`: `Option`.
- `text.dfy`: `str.strip`, `str.count`, `str.split` and `str.title`.
- `syllables.dfy`: the regular expression, hand-coded with its backtracking
  order. `$` also matches just before a final newline, as in Python.
- `frequencies.dfy`: a frequency dict, `Increment` and the weighted choice
  `Pick`.
- `chains.dfy`: a transition table keyed by the predecessor, and the key
  rule `Advance`.
- `learning.dfy`: what `__init__` computes, as functions, and the
  counting invariants.
- `generation.dfy`: what `generate_name` computes, as functions, and the
  driver's choice of syllable count.
- `name_generator.dfy`: the class `NameGenerator`.
  - Fields `segments` and `numsSyllables` are updated in place by the
    constructor's loops.
  - `GetKey` is the loop of `get_key`.
  - `GenerateName` holds the nested loops of `generate_name`.
  - Each method is proved against the functions above.

Dicts are sequences of entries with distinct keys, kept in insertion order:
- `Increment` keeps an existing key in place and appends a new one;
- `Bump` does the same for the row of a predecessor key.

The constructor's three nested loops (lines, syllables, segment kinds) are
one method per loop level: the constructor, `AddLine` with `AddSyllables`,
and `AddSyllable`. All of them update the fields in place. `AddLine` updates
both `numsSyllables` and `segments` and keeps the table invariant `Valid()`.
`AddSyllables` and `AddSyllable` update `segments` only. They are steps
inside `AddLine` and are not meant to be called on their own.

The random source is an oracle `rng`: the draw for segment `j` of a name,
from a table with total `n`, is `rng(j, n)`, and `RangeOk(rng)` says it
always lies in `[0, n)`. A fixed sequence of draws fits this form once
it is kept in range, for example `rng(j, n) = if draws[j] < n then draws[j] else 0`.
The oracle states the range condition without
knowing in advance which table each step draws from. `GetKey` takes the
draw itself as its `index`.

## Model

| member | source | states |
|---|---|---|
| `Text.Strip` | name_generator.py:28-29 | the stripped line is empty exactly when the line is all whitespace; otherwise it is the slice from the first non-whitespace character, with only whitespace around it and non-whitespace at both ends |
| `Text.CountChar` | name_generator.py:32 | the number of occurrences of the character (its multiplicity in the line); so at most the length of the line, and zero exactly when the character does not occur |
| `Text.SplitOn` | name_generator.py:39 | one more piece than separators, and no piece contains the separator |
| `Text.Title` | name_generator.py:94 | title-casing keeps the length; which letters it cases is stated by `TitleIsWordRule` |
| `Text.JoinSplitOn` | name_generator.py:39 | joining the pieces with `-` gives the line back |
| `Text.SplitOnJoin` | name_generator.py:39 | splitting pieces joined by `-` that contain no `-` gives the same pieces |
| `Text.TitleIsWordRule` | name_generator.py:94 | `title()` upper-cases a letter at the start of a run of letters and lower-cases every other letter |
| `Text.TitleIdempotent` | name_generator.py:94 | title-casing twice is title-casing once |
| `Text.TitleOfLowerWord` | name_generator.py:94 | a lower-case word only has its first letter upper-cased |
| `Syllables.Split` | name_generator.py:13 | the three groups form a prefix of the syllable; onset is `y` exactly when `y` is followed by a vowel or the end, else the longest non-vowel prefix; nucleus is the longest vowel run after it and empty only at `$`, and then coda is empty too (except for `"y\n"`); coda is the longest non-vowel run after the nucleus |
| `Syllables.SplitIsFirstMatch` | name_generator.py:13 | the split is a match of the pattern and no match backtracking tries earlier exists |
| `Syllables.SplitLosslessIff` | name_generator.py:40 | the groups rebuild the whole syllable exactly when it has no second run of vowels |
| `Syllables.SegmentClasses` | name_generator.py:13 | in a syllable the groups cover, a vowel lies in the nucleus (or is a leading `y` onset) and a non-vowel lies in the onset or coda |
| `Syllables.SplitDropsTail` | name_generator.py:40 | `kaki` splits into `k`, `a`, `k`, and the final `i` is dropped |
| `Syllables.SplitBacktracksFromY` | name_generator.py:13 | `yk` splits into ``, `y`, `k`: the `y` onset is abandoned when no vowel follows |
| `Syllables.SplitTakesYOnset` | name_generator.py:13 | `ya` splits into `y`, `a`, `` and `y` into `y`, ``, `` |
| `Frequencies.Increment` | name_generator.py:48-51 | the count of the key goes up by one and every other count stays; an existing key keeps its place and a new one is appended with count 1; the total grows by one; distinct keys and positive counts are kept |
| `Frequencies.TotalZero` | name_generator.py:62-63 | the sum of the counts is zero exactly when every count is zero, so `randrange(sum)` has a range to draw from exactly when some count is positive |
| `Frequencies.PickLands` | name_generator.py:65-69 | the chosen key is the entry whose running sum of counts first passes `index` |
| `Frequencies.PickAt` | name_generator.py:65-69 | every index in an entry's interval of running sums picks that entry's key |
| `Frequencies.PickIsKey` | name_generator.py:65-67 | the chosen key is a key of the dict with a positive count |
| `Frequencies.PickPreimage` | name_generator.py:61-69 | each key is chosen by exactly as many index values as its count |
| `Chains.Lookup` | name_generator.py:84-86 | `None` exactly when no row has the key; a dict found is the `next` of a row whose key is the one looked up; a row found in a well-formed table has a non-empty frequency dict |
| `Chains.Bump` | name_generator.py:44-51 | the table gains exactly one count and keeps its invariant (distinct keys, never `""`, positive counts) |
| `Chains.BumpLookup` | name_generator.py:44-51 | the row of the key is its old row, or `{}` when new, with the segment incremented; every other row is unchanged |
| `Chains.BumpNew` | name_generator.py:44-51 | a key with no row gets a new row at the end, `{segment: 1}`, and the earlier rows are unchanged |
| `Chains.Advance` | name_generator.py:52-53 | the key changes only to a non-empty segment; a key that is `None` or non-empty stays so |
| `Chains.KeyAfterIsLastNonEmpty` | name_generator.py:52-53 | the key after a run of segments is the last non-empty one, or the starting key when all are empty |
| `Chains.KeyAfterConcat` | name_generator.py:52-53 | the key carries over from one run of segments to the next |
| `Learning.SyllableCount` | name_generator.py:32 | the count is at least one and equals the number of pieces `split("-")` gives |
| `Learning.LearnSyllables` | name_generator.py:39-53 | there are still three tables; what a line adds is stated by `LearnSyllableStep`, `LearnSyllablesTotal`, `LearnSyllablesOk` and `LearnKeyCarries` |
| `Learning.LearnSegments` | name_generator.py:42-53 | after one syllable's segments the key is the one `Advance` reaches, and the tables not yet reached are unchanged |
| `Learning.LearnLine` | name_generator.py:28-30 | a blank line changes nothing |
| `Learning.Learn` | name_generator.py:18 | there are always three transition tables |
| `Learning.LearnSyllableStep` | name_generator.py:42-53 | one syllable adds, in each table `t`, one count for its segment `t` under the key reached after its earlier segments |
| `Learning.LearnSegmentsOk` | name_generator.py:42-53 | one syllable keeps the table invariant, and the key stays `None` or non-empty |
| `Learning.LearnSyllablesOk` | name_generator.py:38-53 | one line keeps the table invariant |
| `Learning.IncrementKeys` | name_generator.py:32-36 | syllable counts recorded are at least one |
| `Learning.LearnLineOk` | name_generator.py:27-53 | one more line, blank or not, keeps the table invariant |
| `Learning.LearnOk` | name_generator.py:27-53 | whatever the corpus, the tables keep the invariant: keys distinct and never `""`, counts at least one, syllable counts at least one |
| `Learning.LearnKeyCarries` | name_generator.py:38-53 | across a line the key is the one reached after all segments of the earlier syllables, across syllable boundaries |
| `Learning.LearnSegmentsTotal` | name_generator.py:42-51 | one syllable adds exactly one count to each of the three tables |
| `Learning.LearnSyllablesTotal` | name_generator.py:39-51 | a line adds to each table as many counts as it has syllables |
| `Learning.LearnTotals` | name_generator.py:27-51 | each table's counts sum to the number of syllables learned, and the syllable-count table's to the number of non-blank lines |
| `Learning.LearnSyllableCounts` | name_generator.py:27-39 | the count of `n` is the number of non-blank lines with `n` syllables, and a line's recorded count is the number of syllables iterated |
| `Learning.KaRis` | name_generator.py:27-53 | `ka-ris` is one line of two syllables `k a ""` and `r i s`; the key is `a` when `r` is counted and `s` at the end |
| `Learning.KaRisTables` | name_generator.py:27-53 | learning the one line `ka-ris` gives the syllable counts `{2: 1}` and exactly these tables: onsets `{None: {k: 1}, a: {r: 1}}`, nuclei `{k: {a: 1}, r: {i: 1}}`, codas `{a: {"": 1}, i: {s: 1}}` |
| `Generation.Walk` | name_generator.py:78-91 | a walk that has not stopped has drawn one segment per step, and its key is `None` or non-empty |
| `Generation.WalkOn` | name_generator.py:84-91 | one step of the walk with the key in the table, unfolded: the draw is in range and the walk goes on with the drawn segment and the advanced key. What this means for the whole walk is stated by `WalkDeadEnd`, `WalkFollowsChain` and `WalkKey` |
| `Generation.WalkStops` | name_generator.py:83-86 | with the key missing, the walk stops and stays stopped |
| `Generation.DeadEndStays` | name_generator.py:85-86 | once stopped, every longer walk is stopped |
| `Generation.WalkKey` | name_generator.py:90-91 | the walk's key is the one learning's key rule reaches on the drawn segments |
| `Generation.WalkPrefix` | name_generator.py:80-91 | a longer walk extends every shorter one |
| `Generation.WalkDeadEnd` | name_generator.py:83-86 | the walk stops exactly when, at some step it reached, the key was missing from that step's table |
| `Generation.WalkFollowsChain` | name_generator.py:84-91 | every drawn segment has a positive count under the key in force when it was drawn, in the table of its kind |
| `Generation.WalkStep` | name_generator.py:84-91 | the same, for one step of a walk |
| `Generation.Generate` | name_generator.py:77-94 | a name returned is shorter than 11 characters |
| `Generation.GenerateResult` | name_generator.py:92-94 | the definition of `Generate`, unfolded: `None` exactly on a dead end or a concatenation of 11 or more characters; otherwise the title-cased concatenation of exactly `3 * numSyllables` segments, shorter than 11. When a walk dead-ends, and that every segment comes from the chain, is stated by `WalkDeadEnd` and `WalkFollowsChain` |
| `Generation.GenerateNoSyllables` | name_generator.py:80 | zero or fewer syllables give the empty name |
| `Generation.Clamp` | name_generator.py:112-113 | the count is at least two and left alone when it already is |
| `Generation.SyllablesToGenerate` | name_generator.py:111-113 | no count exactly when no line was learned |
| `Generation.SyllablesToGenerateSeen` | name_generator.py:111-113 | the count is at least two and is a learned syllable count, or two when one syllable was learned |
| `Generation.OnlyMonosyllables` | name_generator.py:111-113 | a corpus of one-syllable words still asks for two syllables |
| `Generation.Accepted` | name_generator.py:115 | a name is kept only when it is present and non-empty |
| `Generation.AcceptedLength` | name_generator.py:115-119 | a kept name has between one and ten characters |
| `NameGeneration.NameGenerator.constructor` | name_generator.py:10-53 | the fields are the tables `Learn` gives for the lines, and they keep the invariant |
| `NameGeneration.NameGenerator.AddLine` | name_generator.py:27-53 | the fields become what `LearnLine` gives for the line, and the table invariant is kept |
| `NameGeneration.NameGenerator.AddSyllables` | name_generator.py:38-53 | the tables become what `LearnSyllables` gives from the key `None`; the syllable counts stay |
| `NameGeneration.NameGenerator.AddSyllable` | name_generator.py:42-53 | the tables and key become what `LearnSegments` gives; the syllable counts stay |
| `NameGeneration.NameGenerator.GetKey` | name_generator.py:61-69 | `None` exactly when the total is zero; otherwise the key `Pick` chooses for the index |
| `NameGeneration.NameGenerator.GenerateName` | name_generator.py:77-94 | the result is `Generate` for the tables and draws; the tables are not modified |
| `NameGeneration.ChooseSyllables` | name_generator.py:111-113 | the count is `SyllablesToGenerate` for the generator's syllable counts and the draw |

## Left out

- Console and file I/O in the driver (`input`, `open`, the retry on a
  missing file, `print`, the final pause). The corpus is passed to the
  constructor as a sequence of lines.
- The driver's `while num_generated < num_names` loop: whether it ends
  depends on the random draws. Only the clamp and the rule for keeping a
  result are modelled.
- `random.randrange` and probability. The draws are parameters (`index`,
  `rng`). The counting fact `PickPreimage` replaces the statement that each
  key is drawn with probability count / total.
- `NameGeneration.NameGenerator.GetKey`: where `randrange(0)` raises
  `ValueError` on an empty dict, it returns `None`, and `ChooseSyllables`
  passes that on.
- The constants `self.ONSET`, `self.NUCLEUS` and `self.CODA` are the
  literal table numbers 0, 1 and 2.
- A general regular-expression engine: only this pattern is coded, with
  `re.match`'s backtracking order.
- `Text.Title`: only ASCII letters are cased; other characters are treated
  as uncased, where `str.title` also cases other scripts.
- `Text.Strip`: the whitespace set is the code points `str.isspace`
  accepts; nothing else of Unicode is modelled.
- The segmentation is not lossless. The code's `re.match` anchors only at
  the start of the syllable, so everything from a second vowel run on is
  dropped (`kaki` learns `k`, `a`, `k`). The onset `y` is also taken only
  when a vowel or the end follows (`yk` splits as ``, `y`, `k`). The
  model follows the code; `SplitLosslessIff` says exactly when the split
  loses characters.
