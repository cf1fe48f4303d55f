/** `Tenor.Parse` / `Tenor.TryParse`: a tenor string is a sequence of
    `<digits><unit>` runs, split on the unit letters `d w m y` in either
    case; each unit may appear at most once, every run must be a decimal
    number that fits in an `int`, and a unit that never appears is 0.
    `ParseSegment` is the whole parse as a function; the methods follow
    the source's loops and are proved against it. */
module TenorParse {
  import opened Wrappers
  import opened Decimal
  import opened Segments
  import opened Tokenizers
  import opened Tenors

  /** `Separators`: the unit letters, lower case then upper case. */
  const Separators: seq<char> := ['d', 'w', 'm', 'y', 'D', 'W', 'M', 'Y']

  /** The field a unit letter stands for. */
  datatype Unit = Year | Month | Week | Day

  /** The `switch` on the separator: a unit letter in either case names
      its field; anything else (including `NoSeparator`) names none. */
  function UnitOf(c: char): (u: Option<Unit>)
    ensures u.Some? <==> c in Separators
  {
    match c
    case 'd' | 'D' => Some(Day)
    case 'w' | 'W' => Some(Week)
    case 'm' | 'M' => Some(Month)
    case 'y' | 'Y' => Some(Year)
    case _ => None
  }

  /** The value of a run of digits as the private `TryParse(TenorSegment,
      out int)` reads it: defined only for a non-empty, all-digit run whose
      value fits in an `int`. */
  function ParseNumber(s: string): Option<Count> {
    if s != [] && AllDigits(s) && DecimalValue(s) <= MaxInt32 then Some(DecimalValue(s)) else None
  }

  /** The four nullable locals `years`, `months`, `weeks`, `days`. */
  datatype Fields = Fields(years: Option<Count>, months: Option<Count>, weeks: Option<Count>, days: Option<Count>)

  const NoFields: Fields := Fields(None, None, None, None)

  function Get(f: Fields, u: Unit): Option<Count> {
    match u
    case Year => f.years
    case Month => f.months
    case Week => f.weeks
    case Day => f.days
  }

  function Set(f: Fields, u: Unit, n: Count): (g: Fields)
    ensures Get(g, u) == Some(n)
    ensures forall v | v != u :: Get(g, v) == Get(f, v)
  {
    match u
    case Year => f.(years := Some(n))
    case Month => f.(months := Some(n))
    case Week => f.(weeks := Some(n))
    case Day => f.(days := Some(n))
  }

  /** The `switch`: the separator must be a unit letter whose field is
      not yet set, and the number is stored there. */
  function Store(f: Fields, separator: char, n: Count): Option<Fields> {
    match UnitOf(separator)
    case None => None
    case Some(u) => if Get(f, u).Some? then None else Some(Set(f, u, n))
  }

  /** One iteration of the `foreach`: the run must be a number, and is
      then stored by its separator. */
  function Step(f: Fields, p: Piece): Option<Fields> {
    match ParseNumber(p.text)
    case None => None
    case Some(n) => Store(f, p.separator, n)
  }

  /** The `foreach` over the pieces, stopping at the first rejected one. */
  function Accumulate(ps: seq<Piece>, f: Fields): Option<Fields> {
    if ps == [] then Some(f)
    else match Step(f, ps[0])
      case None => None
      case Some(g) => Accumulate(ps[1..], g)
  }

  /** `new Tenor(years ?? 0, months ?? 0, weeks ?? 0, days ?? 0)`. */
  function ToTenor(f: Fields): Tenor {
    Tenor(f.years.GetOr(0), f.months.GetOr(0), f.weeks.GetOr(0), f.days.GetOr(0))
  }

  /** `TryParse(ref TenorSegment, out Tenor)` as a function: `None` for a
      view without value or of length 0, and for any rejected piece. */
  function ParseSegment(tenor: Segment): Option<Tenor> {
    if !HasValue(tenor) || tenor.length == 0 then None
    else match Accumulate(Tokenize(Text(tenor), Separators), NoFields)
      case None => None
      case Some(f) => Some(ToTenor(f))
  }

  /** `TryParse(string, out Tenor)` as a function. */
  function ParseText(tenor: Option<string>): Option<Tenor> {
    ParseSegment(FromString(tenor))
  }

  /** The private digit `TryParse`: accumulates the value from the left
      and gives up as soon as a character is not a digit or the value so
      far exceeds `int.MaxValue`. */
  method TryParseNumber(segment: Segment) returns (ok: bool, result: Int32)
    ensures ok <==> ParseNumber(Text(segment)).Some?
    ensures ok ==> result == ParseNumber(Text(segment)).value
    ensures !ok ==> result == 0
  {
    result := 0;
    if !HasValue(segment) || segment.length == 0 {
      return false, result;
    }
    var exp: int := 0;
    for i := 0 to segment.length
      invariant AllDigits(Text(segment)[..i])
      invariant exp == DecimalValue(Text(segment)[..i]) && exp <= MaxInt32
    {
      var ch := At(segment, i);
      if '0' <= ch <= '9' {
        assert Text(segment)[..i + 1][..i] == Text(segment)[..i];
        exp := exp * 10 + (ch as int - '0' as int);
        if exp > MaxInt32 {
          if AllDigits(Text(segment)) {
            PrefixValueLe(Text(segment), i + 1);
          }
          return false, 0;
        }
      } else {
        return false, 0;
      }
    }
    assert Text(segment)[..segment.length] == Text(segment);
    result := exp;
    return true, result;
  }

  /** The `switch` on a token's separator: stores the number in the field
      its unit letter names, and fails when the letter is not a unit or
      the field is already set. */
  method Record(separator: char, number: Count,
                years: Option<Count>, months: Option<Count>, weeks: Option<Count>, days: Option<Count>)
    returns (ok: bool, years': Option<Count>, months': Option<Count>, weeks': Option<Count>, days': Option<Count>)
    ensures ok <==> Store(Fields(years, months, weeks, days), separator, number).Some?
    ensures ok ==> Store(Fields(years, months, weeks, days), separator, number).value
                   == Fields(years', months', weeks', days')
  {
    years', months', weeks', days' := years, months, weeks, days;
    match separator {
    case 'd' | 'D' =>
      if days.Some? {
        return false, years', months', weeks', days';
      }
      days' := Some(number);
    case 'w' | 'W' =>
      if weeks.Some? {
        return false, years', months', weeks', days';
      }
      weeks' := Some(number);
    case 'm' | 'M' =>
      if months.Some? {
        return false, years', months', weeks', days';
      }
      months' := Some(number);
    case 'y' | 'Y' =>
      if years.Some? {
        return false, years', months', weeks', days';
      }
      years' := Some(number);
    case _ =>
      return false, years', months', weeks', days';
    }
    return true, years', months', weeks', days';
  }

  /** `TryParse(ref TenorSegment, out Tenor)`: walks the tokens once,
      filling the four nullable fields, and fails at the first run that is
      not a number, the first separator that is not a unit letter, or the
      first unit seen twice; `result` stays the all-zero default on
      failure. */
  method TryParseSegment(tenor: Segment) returns (ok: bool, result: Tenor)
    ensures ok <==> ParseSegment(tenor).Some?
    ensures ok ==> result == ParseSegment(tenor).value
    ensures !ok ==> result == Zero
  {
    result := Zero;
    if !HasValue(tenor) || tenor.length == 0 {
      return false, result;
    }
    var years: Option<Count> := None;
    var weeks: Option<Count> := None;
    var months: Option<Count> := None;
    var days: Option<Count> := None;
    var flatList := Split(tenor, Separators).value;
    var e := GetEnumerator(flatList);
    ghost var all := Tokenize(Text(tenor), Separators);
    while true
      invariant fresh(e)
      invariant Accumulate(e.Remaining(), Fields(years, months, weeks, days)) == Accumulate(all, NoFields)
      decreases |e.Remaining()|
    {
      ghost var before := e.Remaining();
      var more := e.MoveNext();
      if !more {
        break;
      }
      var item := e.current;
      ghost var fields := Fields(years, months, weeks, days);
      AccumulateCons(PieceOf(item), e.Remaining(), fields);
      var parsed, number := TryParseNumber(item.segment);
      if parsed {
        var recorded;
        recorded, years, months, weeks, days := Record(item.separator, number, years, months, weeks, days);
        if !recorded {
          RejectedNow(tenor, all, before, fields);
          return false, result;
        }
      } else {
        RejectedNow(tenor, all, before, fields);
        return false, result;
      }
    }
    var r := New(years.GetOr(0), months.GetOr(0), weeks.GetOr(0), days.GetOr(0));
    result := r.value;
    return true, result;
  }

  lemma AccumulateCons(p: Piece, rest: seq<Piece>, f: Fields)
    ensures Accumulate([p] + rest, f)
            == match Step(f, p) case None => None case Some(g) => Accumulate(rest, g)
  {
    assert ([p] + rest)[1..] == rest;
  }

  /** A parse whose remaining pieces are rejected from the current fields
      is rejected as a whole. */
  lemma RejectedNow(tenor: Segment, all: seq<Piece>, remaining: seq<Piece>, f: Fields)
    requires HasValue(tenor) && tenor.length > 0 && all == Tokenize(Text(tenor), Separators)
    requires Accumulate(remaining, f) == Accumulate(all, NoFields)
    requires Accumulate(remaining, f) == None
    ensures ParseSegment(tenor) == None
  {
  }

  /** `TryParse(string, out Tenor)`: wraps the string (or `null`) in a view. */
  method TryParse(tenor: Option<string>) returns (ok: bool, result: Tenor)
    ensures ok <==> ParseText(tenor).Some?
    ensures ok ==> result == ParseText(tenor).value
    ensures !ok ==> result == Zero
  {
    var wrapper := FromString(tenor);
    ok, result := TryParseSegment(wrapper);
  }

  /** A `FormatException` and its message. */
  datatype FormatException = FormatException(message: string)

  /** `Parse(string)`: the tenor `TryParse` produces, or a `FormatException`. */
  method Parse(tenor: Option<string>) returns (r: Result<Tenor, FormatException>)
    ensures r.Success? <==> ParseText(tenor).Some?
    ensures r.Success? ==> r.value == ParseText(tenor).value
    ensures r.Failure? ==> r.error == FormatException("Cannot parse the tenor")
  {
    var ok, result := TryParse(tenor);
    if ok {
      return Success(result);
    }
    return Failure(FormatException("Cannot parse the tenor"));
  }

  // Properties of the fold

  /** Continues a fold from an optional state: a rejection stays a rejection. */
  function Then(o: Option<Fields>, ps: seq<Piece>): Option<Fields> {
    match o
    case None => None
    case Some(g) => Accumulate(ps, g)
  }

  /** One more step from an optional state. */
  function Bind(o: Option<Fields>, p: Piece): Option<Fields> {
    match o
    case None => None
    case Some(g) => Step(g, p)
  }

  /** Folding over two runs of pieces is folding over the first, then over
      the second from where the first left off. */
  lemma {:induction false} AccumulateAppend(a: seq<Piece>, b: seq<Piece>, f: Fields)
    ensures Accumulate(a + b, f) == Then(Accumulate(a, f), b)
    decreases |a|
  {
    if a == [] {
      assert a + b == b;
    } else {
      assert a + b == [a[0]] + (a[1..] + b);
      AccumulateCons(a[0], a[1..] + b, f);
      assert a == [a[0]] + a[1..];
      AccumulateCons(a[0], a[1..], f);
      match Step(f, a[0])
      case None =>
      case Some(g) => AccumulateAppend(a[1..], b, g);
    }
  }

  /** Two steps commute: the same unit twice is rejected in either order,
      and different units fill different fields. */
  lemma StepCommute(f: Fields, p: Piece, q: Piece)
    ensures Bind(Step(f, p), q) == Bind(Step(f, q), p)
  {
  }

  /** A step commutes with a whole fold. */
  lemma {:induction false} StepAccumulate(f: Fields, p: Piece, b: seq<Piece>)
    ensures Then(Step(f, p), b) == Bind(Accumulate(b, f), p)
    decreases |b|
  {
    if b != [] {
      var q := b[0];
      assert b == [q] + b[1..];
      AccumulateCons(q, b[1..], f);
      StepCommute(f, p, q);
      if Step(f, p).Some? {
        AccumulateCons(q, b[1..], Step(f, p).value);
      }
      if Step(f, q).Some? {
        StepAccumulate(Step(f, q).value, p, b[1..]);
      }
    }
  }

  /** Continuing with one piece, then more, is one step, then the rest. */
  lemma ThenCons(o: Option<Fields>, p: Piece, rest: seq<Piece>)
    ensures Then(o, [p] + rest) == Then(Bind(o, p), rest)
  {
    if o.Some? {
      AccumulateCons(p, rest, o.value);
    }
  }

  /** Order independence of the fold: two runs of pieces give the same
      result in either order. */
  lemma {:induction false} AccumulateSwap(a: seq<Piece>, b: seq<Piece>, f: Fields)
    ensures Accumulate(a + b, f) == Accumulate(b + a, f)
    decreases |a|
  {
    if a == [] {
      assert a + b == b + a;
    } else {
      var p, rest := a[0], a[1..];
      assert a + b == [p] + (rest + b);
      assert b + a == b + ([p] + rest);
      AccumulateCons(p, rest + b, f);
      AccumulateAppend(b, [p] + rest, f);
      ThenCons(Accumulate(b, f), p, rest);
      StepAccumulate(f, p, b);
      match Step(f, p)
      case None =>
      case Some(g) =>
        AccumulateSwap(rest, b, g);
        AccumulateAppend(b, rest, g);
    }
  }

  // What the parser accepts

  /** The pieces `Part` renders: one tagged run for a positive field,
      none for a zero field. */
  function PartPieces(n: Count, unit: char): seq<Piece> {
    if n > 0 then [Piece(NatToString(n), unit)] else []
  }

  /** Digits are never unit letters. */
  lemma DigitsHaveNoSeparator(s: string)
    requires AllDigits(s)
    ensures NoneIn(s, Separators)
  {
  }

  lemma TokenizePart(n: Count, unit: char, rest: string)
    requires unit in Separators
    ensures Tokenize(Part(n, unit) + rest, Separators) == PartPieces(n, unit) + Tokenize(rest, Separators)
  {
    if n > 0 {
      DigitsHaveNoSeparator(NatToString(n));
      TokenizeCons(NatToString(n), unit, rest, Separators);
    } else {
      assert Part(n, unit) + rest == rest;
    }
  }

  /** Folding over a rendered field fills that field when it is positive. */
  lemma AccumulatePart(n: Count, unit: char, u: Unit, rest: seq<Piece>, f: Fields)
    requires UnitOf(unit) == Some(u) && Get(f, u) == None
    ensures Accumulate(PartPieces(n, unit) + rest, f) == Accumulate(rest, if n > 0 then Set(f, u, n) else f)
  {
    if n > 0 {
      AccumulateCons(Piece(NatToString(n), unit), rest, f);
    } else {
      assert PartPieces(n, unit) + rest == rest;
    }
  }

  /** The pieces of a rendered tenor, field by field. */
  function Rendered(t: Tenor): seq<Piece> {
    PartPieces(t.years, 'y') + (PartPieces(t.months, 'm') + (PartPieces(t.weeks, 'w') + PartPieces(t.days, 'd')))
  }

  /** The nullable local a rendered field leaves behind: set exactly when
      the field is positive. */
  function Seen(n: Count): Option<Count> {
    if n > 0 then Some(n) else None
  }

  lemma TokenizeToString(t: Tenor)
    ensures Tokenize(t.ToString(), Separators) == Rendered(t)
  {
    var y, m, w, d := Part(t.years, 'y'), Part(t.months, 'm'), Part(t.weeks, 'w'), Part(t.days, 'd');
    assert t.ToString() == y + (m + (w + (d + [])));
    TokenizePart(t.days, 'd', []);
    TokenizePart(t.weeks, 'w', d + []);
    TokenizePart(t.months, 'm', w + (d + []));
    TokenizePart(t.years, 'y', m + (w + (d + [])));
    assert PartPieces(t.days, 'd') + [] == PartPieces(t.days, 'd');
  }

  lemma AccumulateRendered(t: Tenor)
    ensures Accumulate(Rendered(t), NoFields) == Some(Fields(Seen(t.years), Seen(t.months), Seen(t.weeks), Seen(t.days)))
  {
    var f1 := Fields(Seen(t.years), None, None, None);
    var f2 := f1.(months := Seen(t.months));
    var f3 := f2.(weeks := Seen(t.weeks));
    var pd := PartPieces(t.days, 'd');
    var pw := PartPieces(t.weeks, 'w') + pd;
    var pm := PartPieces(t.months, 'm') + pw;
    AccumulatePart(t.years, 'y', Year, pm, NoFields);
    AccumulatePart(t.months, 'm', Month, pw, f1);
    AccumulatePart(t.weeks, 'w', Week, pd, f2);
    assert pd == pd + [];
    AccumulatePart(t.days, 'd', Day, [], f3);
  }

  /** Round trip: parsing what `ToString` renders gives the tenor back,
      except for the all-zero tenor, which renders as the empty string
      that the parser rejects. */
  lemma ParseToString(t: Tenor)
    ensures ParseText(Some(t.ToString())) == if t == Zero then None else Some(t)
  {
    TokenizeToString(t);
    AccumulateRendered(t);
  }

  /** A text that is empty or ends in a unit letter: a whole number of
      tagged runs. */
  predicate Tagged(s: string) {
    s == [] || s[|s| - 1] in Separators
  }

  lemma Regroup(u: string, x: string, y: string, v: string)
    ensures u + x + y + v == u + ((x + y) + v)
  {
  }

  /** The pieces of tagged runs followed by any text. */
  lemma TokenizeRuns(u: string, x: string, y: string, v: string)
    requires Tagged(u) && Tagged(x) && Tagged(y)
    ensures Tokenize(u + x + y + v, Separators)
            == Tokenize(u, Separators) + ((Tokenize(x, Separators) + Tokenize(y, Separators)) + Tokenize(v, Separators))
  {
    var xy := x + y;
    assert Tokenize(xy + v, Separators)
           == (Tokenize(x, Separators) + Tokenize(y, Separators)) + Tokenize(v, Separators) by {
      TokenizeAppend(x, y, Separators);
      assert Tagged(xy) by {
        if y != [] {
          assert xy[|xy| - 1] == y[|y| - 1];
        }
      }
      TokenizeAppend(xy, v, Separators);
    }
    assert Tokenize(u + (xy + v), Separators) == Tokenize(u, Separators) + Tokenize(xy + v, Separators) by {
      TokenizeAppend(u, xy + v, Separators);
    }
    Regroup(u, x, y, v);
  }

  /** Swapping two adjacent runs of pieces does not change the fold. */
  lemma AccumulateSwapInside(a: seq<Piece>, b: seq<Piece>, c: seq<Piece>, d: seq<Piece>, f: Fields)
    ensures Accumulate(a + ((b + c) + d), f) == Accumulate(a + ((c + b) + d), f)
  {
    AccumulateAppend(a, (b + c) + d, f);
    AccumulateAppend(a, (c + b) + d, f);
    match Accumulate(a, f)
    case None =>
    case Some(g) =>
      AccumulateAppend(b + c, d, g);
      AccumulateAppend(c + b, d, g);
      AccumulateSwap(b, c, g);
  }

  /** Order independence: swapping two adjacent whole runs of tagged
      pieces does not change the parse. */
  lemma ParseSwap(u: string, x: string, y: string, v: string)
    requires Tagged(u) && Tagged(x) && Tagged(y)
    ensures ParseText(Some(u + x + y + v)) == ParseText(Some(u + y + x + v))
  {
    TokenizeRuns(u, x, y, v);
    TokenizeRuns(u, y, x, v);
    AccumulateSwapInside(Tokenize(u, Separators), Tokenize(x, Separators), Tokenize(y, Separators),
                         Tokenize(v, Separators), NoFields);
    assert |u + x + y + v| == |u + y + x + v|;
  }

  /** A piece that is not a number, or whose separator is not a unit
      letter, rejects the whole fold. */
  lemma {:induction false} AccumulateRejects(ps: seq<Piece>, f: Fields, k: nat)
    requires k < |ps| && (ParseNumber(ps[k].text).None? || UnitOf(ps[k].separator).None?)
    ensures Accumulate(ps, f) == None
  {
    if k > 0 && Step(f, ps[0]).Some? {
      AccumulateRejects(ps[1..], Step(f, ps[0]).value, k - 1);
    }
  }

  /** A text whose last character is not a unit letter ends in an
      untagged piece, and is rejected. */
  lemma ParseRejectsUntagged(s: string)
    requires !Tagged(s)
    ensures ParseText(Some(s)) == None
  {
    LastPiece(s, Separators);
    var ps := Tokenize(s, Separators);
    AccumulateRejects(ps, NoFields, |ps| - 1);
  }

  /** A unit that is already set rejects any later piece of that unit. */
  lemma {:induction false} AccumulateRejectsSet(ps: seq<Piece>, f: Fields, k: nat, u: Unit)
    requires k < |ps| && UnitOf(ps[k].separator) == Some(u) && Get(f, u).Some?
    ensures Accumulate(ps, f) == None
  {
    if k > 0 && Step(f, ps[0]).Some? {
      AccumulateRejectsSet(ps[1..], Step(f, ps[0]).value, k - 1, u);
    }
  }

  /** Two pieces of the same unit reject the fold. */
  lemma {:induction false} AccumulateRejectsRepeat(ps: seq<Piece>, f: Fields, i: nat, j: nat)
    requires i < j < |ps| && UnitOf(ps[i].separator) == UnitOf(ps[j].separator)
    ensures Accumulate(ps, f) == None
  {
    if UnitOf(ps[i].separator).None? {
      AccumulateRejects(ps, f, i);
    } else if Step(f, ps[0]).Some? {
      if i == 0 {
        AccumulateRejectsSet(ps[1..], Step(f, ps[0]).value, j - 1, UnitOf(ps[0].separator).value);
      } else {
        AccumulateRejectsRepeat(ps[1..], Step(f, ps[0]).value, i - 1, j - 1);
      }
    }
  }

  /** A unit given twice is rejected. */
  lemma ParseRejectsRepeatedUnit(s: string, i: nat, j: nat)
    requires i < j < |Tokenize(s, Separators)|
    requires UnitOf(Tokenize(s, Separators)[i].separator) == UnitOf(Tokenize(s, Separators)[j].separator)
    ensures ParseText(Some(s)) == None
  {
    AccumulateRejectsRepeat(Tokenize(s, Separators), NoFields, i, j);
  }

  /** A successful fold leaves a set field as it was, and a field no
      piece names as it was. */
  lemma {:induction false} AccumulateKeeps(ps: seq<Piece>, f: Fields, u: Unit)
    requires Accumulate(ps, f).Some?
    requires Get(f, u).Some? || forall k | 0 <= k < |ps| :: UnitOf(ps[k].separator) != Some(u)
    ensures Get(Accumulate(ps, f).value, u) == Get(f, u)
  {
    if ps != [] {
      var g := Step(f, ps[0]).value;
      assert Get(g, u) == Get(f, u);
      AccumulateKeeps(ps[1..], g, u);
    }
  }

  /** A successful fold records every piece's number in its unit's field. */
  lemma {:induction false} AccumulateRecords(ps: seq<Piece>, f: Fields, k: nat)
    requires Accumulate(ps, f).Some? && k < |ps|
    ensures UnitOf(ps[k].separator).Some? && ParseNumber(ps[k].text).Some?
    ensures Get(Accumulate(ps, f).value, UnitOf(ps[k].separator).value) == ParseNumber(ps[k].text)
  {
    var g := Step(f, ps[0]).value;
    if k == 0 {
      AccumulateKeeps(ps[1..], g, UnitOf(ps[0].separator).value);
    } else {
      AccumulateRecords(ps[1..], g, k - 1);
    }
  }

  /** The field of a tenor a unit names. */
  function FieldOf(t: Tenor, u: Unit): Count {
    match u
    case Year => t.years
    case Month => t.months
    case Week => t.weeks
    case Day => t.days
  }

  /** What a successful parse means: every piece is a number tagged with
      a unit letter, and that number is the unit's field of the result. */
  lemma ParseRecords(s: string, k: nat)
    requires ParseText(Some(s)).Some? && k < |Tokenize(s, Separators)|
    ensures var p := Tokenize(s, Separators)[k];
      UnitOf(p.separator).Some? && ParseNumber(p.text).Some?
      && FieldOf(ParseText(Some(s)).value, UnitOf(p.separator).value) == ParseNumber(p.text).value
  {
    AccumulateRecords(Tokenize(s, Separators), NoFields, k);
  }

  /** A unit that no piece names is 0 in the result. */
  lemma ParseDefaultsToZero(s: string, u: Unit)
    requires ParseText(Some(s)).Some?
    requires forall p | p in Tokenize(s, Separators) :: UnitOf(p.separator) != Some(u)
    ensures FieldOf(ParseText(Some(s)).value, u) == 0
  {
    var ps := Tokenize(s, Separators);
    assert forall k | 0 <= k < |ps| :: UnitOf(ps[k].separator) != Some(u) by {
      forall k | 0 <= k < |ps| ensures UnitOf(ps[k].separator) != Some(u) {
        assert ps[k] in ps;
      }
    }
    AccumulateKeeps(ps, NoFields, u);
  }

  /** Pieces the fold accepts from `f`: every piece is a number tagged
      with a unit letter whose field is still unset, and no unit is named
      twice. */
  predicate Acceptable(ps: seq<Piece>, f: Fields) {
    (forall k | 0 <= k < |ps| ::
       ParseNumber(ps[k].text).Some? && UnitOf(ps[k].separator).Some?
       && Get(f, UnitOf(ps[k].separator).value).None?)
    && forall i, j | 0 <= i < j < |ps| :: UnitOf(ps[i].separator) != UnitOf(ps[j].separator)
  }

  /** Acceptable pieces are accepted, whatever the case of their unit
      letters and however their numbers are written. */
  lemma {:induction false} AccumulateAccepts(ps: seq<Piece>, f: Fields)
    requires Acceptable(ps, f)
    ensures Accumulate(ps, f).Some?
  {
    if ps != [] {
      var u := UnitOf(ps[0].separator).value;
      var g := Set(f, u, ParseNumber(ps[0].text).value);
      assert Step(f, ps[0]) == Some(g);
      forall k | 0 <= k < |ps[1..]|
        ensures Get(g, UnitOf(ps[1..][k].separator).value).None?
      {
        assert ps[1..][k] == ps[k + 1];
        assert UnitOf(ps[0].separator) != UnitOf(ps[k + 1].separator);
      }
      forall i, j | 0 <= i < j < |ps[1..]|
        ensures UnitOf(ps[1..][i].separator) != UnitOf(ps[1..][j].separator)
      {
        assert ps[1..][i] == ps[i + 1] && ps[1..][j] == ps[j + 1];
      }
      AccumulateAccepts(ps[1..], g);
    }
  }

  /** Exactly what the parser accepts: a non-empty text whose pieces are
      all numbers tagged with distinct unit letters. */
  lemma ParseAccepts(s: string)
    ensures ParseText(Some(s)).Some? <==> s != [] && Acceptable(Tokenize(s, Separators), NoFields)
  {
    var ps := Tokenize(s, Separators);
    if s != [] && Acceptable(ps, NoFields) {
      AccumulateAccepts(ps, NoFields);
    }
    if ParseText(Some(s)).Some? {
      forall k | 0 <= k < |ps|
        ensures ParseNumber(ps[k].text).Some? && UnitOf(ps[k].separator).Some?
      {
        AccumulateRecords(ps, NoFields, k);
      }
      forall i, j | 0 <= i < j < |ps|
        ensures UnitOf(ps[i].separator) != UnitOf(ps[j].separator)
      {
        if UnitOf(ps[i].separator) == UnitOf(ps[j].separator) {
          AccumulateRejectsRepeat(ps, NoFields, i, j);
        }
      }
    }
  }

  lemma TaggedAppend(a: string, b: string)
    requires Tagged(a) && Tagged(b)
    ensures Tagged(a + b)
  {
    if b != [] {
      assert (a + b)[|a + b| - 1] == b[|b| - 1];
    }
  }

  /** The regroupings `ParseReverse` goes through. */
  lemma ReverseRegroup(a: string, b: string, c: string, d: string)
    ensures [] + (a + b + c) + d + [] == a + b + c + d
    ensures [] + d + (a + b + c) + [] == d + (a + b) + c + []
    ensures d + c + (a + b) + [] == (d + c) + a + b + []
    ensures (d + c) + b + a + [] == d + c + b + a
  {
  }

  /** Four tagged runs parse the same in the opposite order: three swaps
      of adjacent runs. */
  lemma ParseReverse(a: string, b: string, c: string, d: string)
    requires Tagged(a) && Tagged(b) && Tagged(c) && Tagged(d)
    ensures ParseText(Some(a + b + c + d)) == ParseText(Some(d + c + b + a))
  {
    TaggedAppend(a, b);
    TaggedAppend(a + b, c);
    TaggedAppend(d, c);
    ReverseRegroup(a, b, c, d);
    ParseSwap([], a + b + c, d, []);
    ParseSwap(d, a + b, c, []);
    ParseSwap(d + c, a, b, []);
  }

  /** The fields rendered in the opposite order, days first, parse to the
      same tenor. */
  lemma ParseReversedToString(t: Tenor)
    ensures ParseText(Some(Part(t.days, 'd') + Part(t.weeks, 'w') + Part(t.months, 'm') + Part(t.years, 'y')))
            == ParseText(Some(t.ToString()))
  {
    ParseReverse(Part(t.years, 'y'), Part(t.months, 'm'), Part(t.weeks, 'w'), Part(t.days, 'd'));
  }

  // The documented examples

  /** `"1y1m1w1d"` parses to the tenor it renders. */
  lemma ParseAcceptsInOrder()
    ensures ParseText(Some("1y1m1w1d")) == Some(Tenor(1, 1, 1, 1))
  {
    assert NatToString(1) == "1";
    assert Tenor(1, 1, 1, 1).ToString() == "1y1m1w1d";
    ParseToString(Tenor(1, 1, 1, 1));
  }

  lemma TokenizeUpperCase()
    ensures Tokenize("1Y2M", Separators) == [Piece("1", 'Y'), Piece("2", 'M')]
  {
    assert "1Y2M" == "1" + ['Y'] + "2M";
    TokenizeCons("1", 'Y', "2M", Separators);
    assert "2M" == "2" + ['M'] + [];
    TokenizeCons("2", 'M', [], Separators);
  }

  /** Upper-case unit letters are accepted like lower-case ones. */
  lemma ParseAcceptsUpperCase()
    ensures ParseText(Some("1Y2M")) == Some(Tenor(1, 2, 0, 0))
  {
    TokenizeUpperCase();
    var ps := [Piece("1", 'Y'), Piece("2", 'M')];
    assert ParseNumber("1") == Some(1) && ParseNumber("2") == Some(2);
    assert Accumulate(ps, NoFields) == Some(Fields(Some(1), Some(2), None, None)) by {
      assert Step(NoFields, ps[0]) == Some(Fields(Some(1), None, None, None));
      assert ps[1..] == [Piece("2", 'M')];
      assert Accumulate([Piece("2", 'M')], Fields(Some(1), None, None, None)) == Some(Fields(Some(1), Some(2), None, None));
    }
  }

  /** A number written with a leading zero is read by its value. */
  lemma ParseAcceptsLeadingZero()
    ensures ParseText(Some("07d")) == Some(Tenor(0, 0, 0, 7))
  {
    var s := "07d";
    assert Tokenize(s, Separators) == [Piece("07", 'd')] by {
      assert s == "07" + ['d'] + [];
      TokenizeCons("07", 'd', [], Separators);
    }
    assert DecimalValue("07") == 7 by {
      assert "07"[..1] == "0";
    }
  }

  /** `"1d1w1m1y"` parses like `"1y1m1w1d"`. */
  lemma ParseAcceptsReversed()
    ensures ParseText(Some("1d1w1m1y")) == Some(Tenor(1, 1, 1, 1))
  {
    assert NatToString(1) == "1";
    var t := Tenor(1, 1, 1, 1);
    assert Part(t.days, 'd') + Part(t.weeks, 'w') + Part(t.months, 'm') + Part(t.years, 'y') == "1d1w1m1y";
    ParseReversedToString(t);
    ParseToString(t);
  }

  /** `"y1"` and `"1y1m1q"` end in a character that is not a unit letter;
      the empty string and `null` are rejected before tokenizing. */
  lemma ParseRejectsUntaggedExamples()
    ensures ParseText(Some("y1")) == None
    ensures ParseText(Some("1y1m1q")) == None
    ensures ParseText(Some("")) == None && ParseText(None) == None
  {
    ParseRejectsUntagged("y1");
    ParseRejectsUntagged("1y1m1q");
  }

  /** `"1ym"`: the run before `m` is empty, so it is not a number. */
  lemma ParseRejectsEmptyRun()
    ensures ParseText(Some("1ym")) == None
  {
    assert Tokenize("m", Separators) == [Piece([], 'm')] by {
      TokenizeCons([], 'm', [], Separators);
      assert [] + ['m'] + [] == "m";
    }
    assert Tokenize("1ym", Separators) == [Piece("1", 'y'), Piece([], 'm')] by {
      TokenizeCons("1", 'y', "m", Separators);
      assert "1" + ['y'] + "m" == "1ym";
    }
    AccumulateRejects(Tokenize("1ym", Separators), NoFields, 1);
  }

  /** `"1y1y"`: the year is given twice. */
  lemma ParseRejectsRepeatedYear()
    ensures ParseText(Some("1y1y")) == None
  {
    assert Tokenize("1y", Separators) == [Piece("1", 'y')] by {
      TokenizeCons("1", 'y', [], Separators);
      assert "1" + ['y'] + [] == "1y";
    }
    assert Tokenize("1y1y", Separators) == [Piece("1", 'y'), Piece("1", 'y')] by {
      TokenizeCons("1", 'y', "1y", Separators);
      assert "1" + ['y'] + "1y" == "1y1y";
    }
    ParseRejectsRepeatedUnit("1y1y", 0, 1);
  }
}
