# Finance.Tenor in Dafny

A model of the core of `Finance.Period.Tenor`, a C# value type for financial
tenors. A tenor is a duration of non-negative years, months, weeks and days,
written like `1y6m` or `2w3d`. The model covers three parts:

- **The value type** (`tenor.dfy`, module `Tenors`). This covers:
  - the validating constructor;
  - the cached comparison key `_totalDays = 360·years + 30·months + 7·weeks + days`;
  - `Compare`, both `CompareTo`s, the three `Equals`, the six comparison operators and `ToString`.

  `Tenor` is immutable, so it is a datatype with functions. Constructor failures
  (`ArgumentOutOfRangeException`) and the `ArgumentException` of `CompareTo(object)`
  are `Result` values. The object argument of `CompareTo(object)` and
  `Equals(object)` is a small datatype: a null reference, a boxed tenor, or
  some other object.
- **The tokenizer** (`tokenizer.dfy`, module `Tokenizers`). `TenorSegmentTokenizer`
  and its `Enumerator` split a string view into `(subsegment, separator)` pairs.
  - The tokenizer is an immutable value.
  - The enumerator is a class whose `index` and `current` fields `MoveNext` and
    `Reset` update.
  - Every method is proved against `TokensFrom`, the function that gives the
    pieces still to come from a cursor.
- **The parser** (`parse.dfy`, module `TenorParse`). It covers `Parse`, both public
  `TryParse`s and the private digit `TryParse`.
  - The two loops (the `foreach` over tokens and the `for` over digits) are
    methods with loop invariants.
  - Each loop is proved equal to a function: `ParseSegment` / `ParseText` for
    the whole parse, `ParseNumber` for a digit run.
  - The properties of the parse are lemmas about those functions.
  - The unit letters are the constant `TenorParse.Separators`, `d w m y` and then
    `D W M Y`, as in the source's separator array; either case names the same field.

The string view `TenorSegment` is modelled in `segment.dfy` (module `Segments`)
from how the tokenizer and the parser use it. It is a buffer that may be null,
an offset and a length. It provides view-relative indexing, `Subsegment` and
`IndexOfAny`. The TenorSegment source file is not part of this model.
`decimal.dfy` holds the decimal digit strings that `ToString` prints and the
digit `TryParse` reads. `wrappers.dfy` holds `Option` and `Result`.

**The 32-bit key.** `_totalDays` is a C# `int` computed without an overflow
guard, while every field may be as large as `int.MaxValue`.
- The model computes it explicitly with 32-bit wrap-around (`Wrap32`).
- `StepwiseTotalDays` shows that wrapping every intermediate product and sum, as C#
  does, gives the same key.
- Ordering and equality are therefore exactly the source's, wrap included, in C#'s default unchecked context.
- Ordering is tied to the real length in days (`CompareByLength`) only for
  tenors whose normalised length fits in an `int`.
- `WrapBreaksLength` shows what happens outside that range: 5965233 years
  sorts before one day.

## Model

| member | source | states |
|---|---|---|
| Decimal.DigitValue | src/Finance.Tenor/TenorParse.cs:139-141 | the value of a digit character is below ten |
| Decimal.DigitChar | src/Finance.Tenor/Tenor.cs:173-174 | the digit character for a value below ten is a digit and reads back as that value |
| Decimal.NatToString | src/Finance.Tenor/Tenor.cs:173-174 | the decimal spelling of a number is a non-empty digit string without a leading zero whose value is the number |
| Decimal.PrefixValueLe | src/Finance.Tenor/TenorParse.cs:141-145 | a prefix of a digit string is worth no more than the whole, so giving up once a prefix exceeds `int.MaxValue` rejects exactly the strings whose value exceeds it |
| Segments.Text | src/Finance.Tenor/TenorSegmentTokenizer.cs:99 | the characters a view covers number exactly its length |
| Segments.HasValue | src/Finance.Tenor/TenorParse.cs:63-66 | a view has a value iff it is not the default (null) view, and a view without value is empty |
| Segments.FromString | src/Finance.Tenor/TenorParse.cs:49 | wrapping a string gives a view with a value covering the whole string; wrapping `null` gives the view without value |
| Segments.At | src/Finance.Tenor/TenorSegmentTokenizer.cs:113 | the indexer reads the view's own character at a view-relative position |
| Segments.Subsegment | src/Finance.Tenor/TenorSegmentTokenizer.cs:116 | a subsegment shares the buffer and covers exactly the requested view-relative range |
| Segments.IndexOfAnyIn | src/Finance.Tenor/TenorSegmentTokenizer.cs:105 | the search result lies between the start and the end, and a result before the end is a separator |
| Segments.IndexOfAnyInSkips | src/Finance.Tenor/TenorSegmentTokenizer.cs:105 | everything the search skips is not a separator, so it finds the first separator |
| Segments.FirstIndexOfAny | src/Finance.Tenor/TenorSegmentTokenizer.cs:105-110 | the result is -1 or a view-relative position at or after the start holding a separator |
| Segments.IndexOfAny | src/Finance.Tenor/TenorSegmentTokenizer.cs:105 | the scan of the buffer returns exactly the first separator's view-relative position, or -1 |
| Tokenizers.TokenizerFromString | src/Finance.Tenor/TenorSegmentTokenizer.cs:23-37 | construction fails iff the value or the separators are null, naming the value first; otherwise it covers the whole string with the given separators |
| Tokenizers.TokenizerFromSegment | src/Finance.Tenor/TenorSegmentTokenizer.cs:44-58 | construction fails iff the view has no value or the separators are null, naming the value first; otherwise it keeps both |
| Tokenizers.Split | src/Finance.Tenor/TenorParse.cs:72 | splitting succeeds iff the view has a value, and gives the tokenizer over that view |
| Tokenizers.JoinTokensFrom | src/Finance.Tenor/TenorSegmentTokenizer.cs:105-117 | the pieces from a cursor, each followed by its separator except a final `'\0'`, spell the text after the cursor exactly |
| Tokenizers.JoinTokenize | src/Finance.Tenor/TenorSegmentTokenizer.cs:105-117 | reconstruction: the pieces of a whole text spell that text |
| Tokenizers.TokensFromPieces | src/Finance.Tenor/TenorSegmentTokenizer.cs:105-116 | no piece contains a separator |
| Tokenizers.TokensFromSeparators | src/Finance.Tenor/TenorSegmentTokenizer.cs:106-116 | every piece's separator is one of the separators, except that the last may be `'\0'` |
| Tokenizers.TokensFromCount | src/Finance.Tenor/TenorSegmentTokenizer.cs:99-117 | there are at most as many pieces as characters after the cursor, so enumeration ends |
| Tokenizers.TokensFromConsume | src/Finance.Tenor/TenorSegmentTokenizer.cs:116-117 | every piece consumes at least one character, its text or its separator |
| Tokenizers.LastPiece | src/Finance.Tenor/TenorSegmentTokenizer.cs:106-110 | a non-empty text has pieces, and the last one carries `'\0'` iff the text does not end in a separator (a final separator leaves no trailing empty piece) |
| Tokenizers.IndexOfAnyInFinds | src/Finance.Tenor/TenorSegmentTokenizer.cs:105 | the search stops no later than any separator after the start |
| Tokenizers.IndexOfAnyInShift | src/Finance.Tenor/TenorSegmentTokenizer.cs:105 | searching a text past a prefix is searching the rest, shifted by the prefix length |
| Tokenizers.PieceAtShift | src/Finance.Tenor/TenorSegmentTokenizer.cs:105-116 | the piece after a prefix is the piece of the rest |
| Tokenizers.TokensFromShift | src/Finance.Tenor/TenorSegmentTokenizer.cs:96-120 | the pieces after a prefix are the pieces of the rest |
| Tokenizers.TokenizeCons | src/Finance.Tenor/TenorSegmentTokenizer.cs:105-117 | a separator-free run followed by a separator is the first piece, and the remainder is tokenized on its own |
| Tokenizers.TokenizeAppend | src/Finance.Tenor/TenorSegmentTokenizer.cs:105-117 | a text ending in a separator tokenizes independently of what follows it |
| Tokenizers.Enumerator.constructor | src/Finance.Tenor/TenorSegmentTokenizer.cs:72-78 | a new enumerator starts at index 0 with the default current, and all pieces of the view still to come |
| Tokenizers.Enumerator.FromTokenizer | src/Finance.Tenor/TenorSegmentTokenizer.cs:80-86 | the same, taking value and separators from a tokenizer |
| Tokenizers.Enumerator.MoveNext | src/Finance.Tenor/TenorSegmentTokenizer.cs:96-120 | succeeds iff pieces remain; then current is the next piece, as a view of the same buffer at the old index, the index moves past its separator and one piece fewer remains; otherwise current is reset and the index kept |
| Tokenizers.Enumerator.Reset | src/Finance.Tenor/TenorSegmentTokenizer.cs:122-126 | restarts at index 0 with the default current and all pieces of the view to come |
| Tokenizers.GetEnumerator | src/Finance.Tenor/TenorSegmentTokenizer.cs:60 | a fresh enumerator at the start of the tokenizer's view |
| Tenors.Wrap32 | src/Finance.Tenor/Tenor.cs:49 | the 32-bit result is congruent to the exact value modulo 2^32 and equal to it when it fits |
| Tenors.WrapAdd | src/Finance.Tenor/Tenor.cs:49 | wrapping an intermediate sum does not change the wrapped total |
| Tenors.WrapSum | src/Finance.Tenor/Tenor.cs:49 | wrapping both operands does not change the wrapped sum |
| Tenors.StepwiseTotalDays | src/Finance.Tenor/Tenor.cs:49 | the key as C# evaluates it, wrapping every product and sum, is the key of the model |
| Tenors.Tenor.TotalDays | src/Finance.Tenor/Tenor.cs:49 | the key is congruent to the normalised length modulo 2^32 and equal to it while that fits in an `int` |
| Tenors.New | src/Finance.Tenor/Tenor.cs:25-50 | construction fails iff some argument is negative, naming the first in the order years, months, weeks, days; on success the fields are the arguments and the key is the wrapped `360y+30m+7w+d` |
| Tenors.Compare | src/Finance.Tenor/Tenor.cs:79-86 | 1 iff the first key is greater, -1 iff smaller, 0 iff equal |
| Tenors.Tenor.CompareTo | src/Finance.Tenor/Tenor.cs:113-121 | agrees with `Compare` |
| Tenors.Tenor.CompareToObject | src/Finance.Tenor/Tenor.cs:94-105 | null compares as 1, a non-tenor is an `ArgumentException("Must Be Tenor")`, a tenor compares as `Compare` |
| Tenors.Tenor.Equals | src/Finance.Tenor/Tenor.cs:128-131 | equal iff `Compare` is 0 |
| Tenors.Tenor.EqualsObject | src/Finance.Tenor/Tenor.cs:138-145 | equal iff the argument is a tenor and `Compare` is 0; false for null and non-tenors |
| Tenors.AreEqual | src/Finance.Tenor/Tenor.cs:162-165 | the static `Equals` agrees with the instance `Equals` in both argument orders |
| Tenors.Eq | src/Finance.Tenor/Tenor.cs:180-183 | `==` holds iff `Compare` is 0 |
| Tenors.Ne | src/Finance.Tenor/Tenor.cs:185-188 | `!=` is the negation of `==` |
| Tenors.Lt | src/Finance.Tenor/Tenor.cs:190-193 | `<` holds iff `Compare` is negative |
| Tenors.Le | src/Finance.Tenor/Tenor.cs:195-198 | `<=` holds iff `Compare` is not positive |
| Tenors.Gt | src/Finance.Tenor/Tenor.cs:200-203 | `>` holds iff `Compare` is positive, iff `<` with the arguments swapped |
| Tenors.Ge | src/Finance.Tenor/Tenor.cs:205-208 | `>=` holds iff `Compare` is not negative, iff `<=` with the arguments swapped |
| Tenors.Tenor.ToString | src/Finance.Tenor/Tenor.cs:171-176 | the rendering is empty iff the tenor is all zero |
| Tenors.Part | src/Finance.Tenor/Tenor.cs:173-174 | one field's rendering is empty iff the field is zero; otherwise it is the field's decimal digits followed by its unit letter |
| Tenors.CompareAntisymmetric | src/Finance.Tenor/Tenor.cs:79-86 | `Compare` returns only -1, 0 or 1, and swapping the arguments negates it |
| Tenors.CompareTransitive | src/Finance.Tenor/Tenor.cs:79-86 | `Compare` is transitive, wrap or no wrap |
| Tenors.CompareByLength | src/Finance.Tenor/Tenor.cs:79-86 | for tenors whose length fits in an `int`, `Compare` orders by the normalised length in days |
| Tenors.WrapBreaksLength | src/Finance.Tenor/Tenor.cs:49 | beyond that range the key wraps: 5965233 years has a negative key and compares below one day |
| Tenors.WeekAndDayEqualsEightDays | src/Finance.Tenor/Tenor.cs:128-131 | `1w1d` equals `8d` under `Equals`, static `Equals` and `==`, though the values differ and render as `"1w1d"` and `"8d"` |
| TenorParse.UnitOf | src/Finance.Tenor/TenorParse.cs:79-115 | a character names a field iff it is one of the eight separators |
| TenorParse.Set | src/Finance.Tenor/TenorParse.cs:87-111 | storing a number sets that unit's field and leaves the other three alone |
| TenorParse.TryParseNumber | src/Finance.Tenor/TenorParse.cs:127-154 | succeeds iff the run is non-empty, all digits and worth at most `int.MaxValue`, giving exactly its value; fails with 0 otherwise |
| TenorParse.Record | src/Finance.Tenor/TenorParse.cs:79-115 | the `switch` succeeds iff the separator is a unit letter whose field is unset, and then stores the number in that field |
| TenorParse.TryParseSegment | src/Finance.Tenor/TenorParse.cs:59-125 | the `foreach` loop succeeds exactly when the parse function does, with its result; on failure the result is the all-zero default |
| TenorParse.TryParse | src/Finance.Tenor/TenorParse.cs:47-51 | the string overload parses the view over the string, with `null` rejected |
| TenorParse.Parse | src/Finance.Tenor/TenorParse.cs:32-39 | returns what `TryParse` produces on success, and a `FormatException("Cannot parse the tenor")` exactly when it fails |
| TenorParse.AccumulateCons | src/Finance.Tenor/TenorParse.cs:74-121 | folding over a first piece and the rest is one step, then the rest |
| TenorParse.RejectedNow | src/Finance.Tenor/TenorParse.cs:85 | a rejection inside the loop is the rejection of the whole parse |
| TenorParse.AccumulateAppend | src/Finance.Tenor/TenorParse.cs:74-121 | folding over two runs of pieces is folding over the first, then the second |
| TenorParse.StepCommute | src/Finance.Tenor/TenorParse.cs:79-115 | two steps of the loop give the same result, or the same rejection, in either order |
| TenorParse.StepAccumulate | src/Finance.Tenor/TenorParse.cs:74-121 | one step commutes with a whole fold |
| TenorParse.ThenCons | src/Finance.Tenor/TenorParse.cs:74-121 | continuing with a piece and more is one step, then the rest |
| TenorParse.AccumulateSwap | src/Finance.Tenor/TenorParse.cs:74-121 | the fold gives the same result over two runs of pieces in either order |
| TenorParse.AccumulateSwapInside | src/Finance.Tenor/TenorParse.cs:74-121 | swapping two adjacent runs of pieces anywhere leaves the fold unchanged |
| TenorParse.TokenizePart | src/Finance.Tenor/Tenor.cs:173-174 | a rendered field tokenizes as one piece holding its digits and unit, or as nothing for a zero field |
| TenorParse.AccumulatePart | src/Finance.Tenor/TenorParse.cs:79-112 | folding over a rendered field fills that field when it is positive |
| TenorParse.TokenizeToString | src/Finance.Tenor/Tenor.cs:171-176 | the pieces of a rendered tenor are its positive fields in the order y, m, w, d |
| TenorParse.AccumulateRendered | src/Finance.Tenor/TenorParse.cs:68-121 | folding over those pieces sets exactly the positive fields, to their values |
| TenorParse.ParseToString | src/Finance.Tenor/TenorParse.cs:59-125 | round trip: parsing `ToString()` gives the tenor back for every non-zero tenor; the zero tenor renders as `""`, which is rejected |
| TenorParse.TokenizeRuns | src/Finance.Tenor/TenorSegmentTokenizer.cs:105-117 | runs ending in unit letters tokenize one after another |
| TenorParse.ParseSwap | test/Finance.Tenor.Test/UnitTestOfTryParse.cs:48-70 | swapping two adjacent runs ending in unit letters does not change the parse |
| TenorParse.ParseReverse | test/Finance.Tenor.Test/UnitTestOfTryParse.cs:48-70 | four runs ending in unit letters parse the same in the opposite order |
| TenorParse.ParseReversedToString | test/Finance.Tenor.Test/UnitTestOfTryParse.cs:48-70 | a tenor's fields rendered days first parse the same as its `ToString()` |
| TenorParse.AccumulateRejects | src/Finance.Tenor/TenorParse.cs:77-120 | any piece that is not a number or not tagged with a unit letter rejects the parse |
| TenorParse.ParseRejectsUntagged | src/Finance.Tenor/TenorParse.cs:113-114 | a text whose last character is not a unit letter is rejected, even when it ends in digits |
| TenorParse.AccumulateRejectsSet | src/Finance.Tenor/TenorParse.cs:83-110 | a piece for a unit that is already set rejects the parse |
| TenorParse.AccumulateRejectsRepeat | src/Finance.Tenor/TenorParse.cs:83-110 | two pieces for the same unit reject the parse |
| TenorParse.ParseRejectsRepeatedUnit | src/Finance.Tenor/TenorParse.cs:83-110 | a text with two pieces for the same unit is rejected |
| TenorParse.AccumulateKeeps | src/Finance.Tenor/TenorParse.cs:68-71 | a successful parse leaves a set field as it is, and a field no piece names unset |
| TenorParse.AccumulateRecords | src/Finance.Tenor/TenorParse.cs:77-112 | after a successful parse every piece is a number tagged with a unit, and that number is the unit's field |
| TenorParse.ParseRecords | src/Finance.Tenor/TenorParse.cs:123 | each field of a parsed tenor is the number written before its letter |
| TenorParse.ParseDefaultsToZero | src/Finance.Tenor/TenorParse.cs:123 | a unit that never appears is 0 in the parsed tenor |
| TenorParse.AccumulateAccepts | src/Finance.Tenor/TenorParse.cs:74-121 | the loop accepts any pieces that are numbers tagged with distinct unit letters, in either case, whose fields are still unset |
| TenorParse.ParseAccepts | src/Finance.Tenor/TenorParse.cs:59-125 | a text parses iff it is non-empty and its pieces are all numbers that fit in an `int`, tagged with pairwise distinct unit letters of either case |
| TenorParse.ParseAcceptsInOrder | test/Finance.Tenor.Test/UnitTestOfTryParse.cs:49-58 | `"1y1m1w1d"` parses to one of each unit |
| TenorParse.ParseAcceptsReversed | test/Finance.Tenor.Test/UnitTestOfTryParse.cs:61-70 | `"1d1w1m1y"` parses to one of each unit |
| TenorParse.ParseAcceptsUpperCase | src/Finance.Tenor/TenorParse.cs:97-112 | `"1Y2M"` parses to one year and two months: upper-case unit letters count like lower-case ones |
| TenorParse.ParseAcceptsLeadingZero | src/Finance.Tenor/TenorParse.cs:127-154 | `"07d"` parses to seven days: a run is read by its decimal value |
| TenorParse.ParseRejectsUntaggedExamples | test/Finance.Tenor.Test/UnitTestOfTryParse.cs:73-111 | `"y1"`, `"1y1m1q"`, `""` and `null` are rejected |
| TenorParse.ParseRejectsEmptyRun | test/Finance.Tenor.Test/UnitTestOfTryParse.cs:81-86 | `"1ym"` is rejected: the run before `m` is empty |
| TenorParse.ParseRejectsRepeatedYear | src/Finance.Tenor/TenorParse.cs:107-110 | `"1y1y"` is rejected |

## Left out

- `GetHashCode` (src/Finance.Tenor/Tenor.cs:151-154) is not modelled. It mixes the raw fields into the hash, so it is not consistent with `Equals`, and no property relates the two.
- `TenorExtensions` (adding a tenor to or subtracting it from a `DateTime`) is not modelled. It is a thin layer over the .NET calendar.
- `ToString` prints with the current culture's integer formatting. The model prints plain ASCII decimal digits.
- The non-generic `IEnumerable`/`IEnumerator` plumbing, `Dispose` and the `DebuggerDisplay` attribute are not modelled.
- C# exceptions are `Result` values. The model carries the message or parameter name where the source sets one.
- `TenorParse.TryParseNumber` keeps its accumulator as an unbounded integer where the source uses a `long`. The accumulator never exceeds `10·int.MaxValue + 9`, so nothing is lost.
- `Tokenizers.Enumerator` is a class, while the source's enumerator is a struct. Copying an enumerator, which in C# gives an independent cursor, is not modelled.
- The separator array is an immutable sequence. A caller mutating the array during enumeration is not modelled.
- `TenorParse.Record` gathers the `switch` of the parse loop into one method with the same branches and early returns. The loop calls it once per token.
- Characters are Unicode scalar values, where C# strings hold UTF-16 code units. For text with characters outside the Basic Multilingual Plane, view lengths, offsets and the enumerator's index count differently, and a lone surrogate cannot be represented. What is accepted or rejected and the parsed fields do not change, because such characters are never digits or unit letters.
- `Tenors.Tenor.TotalDays` assumes C#'s default unchecked arithmetic. A build with overflow checking enabled would throw `OverflowException` at src/Finance.Tenor/Tenor.cs:49 instead of wrapping, including from inside `TryParse` (for example on `"5965233y"`). That behaviour is not modelled.
