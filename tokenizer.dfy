/** `TenorSegmentTokenizer`: splits a segment on a separator alphabet into
    `(subsegment, separator)` pairs. The tokenizer itself is an immutable
    value; its `Enumerator` is the object that moves a cursor over the view
    step by step. `TokensFrom` is the whole sequence of pieces an
    enumerator produces from a given cursor, and the enumerator's methods
    are proved against it. */
module Tokenizers {
  import opened Wrappers
  import opened Segments

  /** The character paired with the final piece when no separator ended it. */
  const NoSeparator: char := '\0'

  /** One element of the enumeration: a piece of the view and the separator
      that ended it. */
  datatype Token = Token(segment: Segment, separator: char)

  /** `default((TenorSegment, char))`. */
  const DefaultToken: Token := Token(Null, NoSeparator)

  /** The parameter an `ArgumentNullException` names. */
  datatype NullArgument = ValueArgument | SeparatorsArgument

  datatype Tokenizer = Tokenizer(value: Segment, separators: seq<char>)

  /** `new TenorSegmentTokenizer(string value, char[] separators)`:
      rejects a null value first, then a null separator array. */
  function TokenizerFromString(value: Option<string>, separators: Option<seq<char>>): (r: Result<Tokenizer, NullArgument>)
    ensures r.Failure? <==> value.None? || separators.None?
    ensures value.None? ==> r == Failure(ValueArgument)
    ensures value.Some? && separators.None? ==> r == Failure(SeparatorsArgument)
    ensures r.Success? ==> HasValue(r.value.value) && Text(r.value.value) == value.value
                           && r.value.separators == separators.value
  {
    if value.None? then Failure(ValueArgument)
    else if separators.None? then Failure(SeparatorsArgument)
    else Success(Tokenizer(FromString(value), separators.value))
  }

  /** `new TenorSegmentTokenizer(TenorSegment value, char[] separators)`:
      rejects a view without value first, then a null separator array. */
  function TokenizerFromSegment(value: Segment, separators: Option<seq<char>>): (r: Result<Tokenizer, NullArgument>)
    ensures r.Failure? <==> !HasValue(value) || separators.None?
    ensures !HasValue(value) ==> r == Failure(ValueArgument)
    ensures HasValue(value) && separators.None? ==> r == Failure(SeparatorsArgument)
    ensures r.Success? ==> r.value.value == value && r.value.separators == separators.value
  {
    if !HasValue(value) then Failure(ValueArgument)
    else if separators.None? then Failure(SeparatorsArgument)
    else Success(Tokenizer(value, separators.value))
  }

  /** `TenorSegment.Split(separators)`: the tokenizer over this view. */
  function Split(value: Segment, separators: seq<char>): (r: Result<Tokenizer, NullArgument>)
    ensures r.Success? <==> HasValue(value)
    ensures r.Success? ==> r.value == Tokenizer(value, separators)
  {
    TokenizerFromSegment(value, Some(separators))
  }

  /** What the parser sees of a token: the text of its piece and the
      separator that ended it. */
  datatype Piece = Piece(text: string, separator: char)

  function PieceOf(t: Token): Piece {
    Piece(Text(t.segment), t.separator)
  }

  /** The piece that starts at `i`, paired with the separator that ends
      it, or with `NoSeparator` when it runs to the end of the text. */
  function PieceAt(s: string, separators: seq<char>, i: nat): Piece
    requires i < |s|
  {
    Piece(s[i .. IndexOfAnyIn(s, separators, i)],
          if IndexOfAnyIn(s, separators, i) < |s| then s[IndexOfAnyIn(s, separators, i)] else NoSeparator)
  }

  /** The pieces an enumeration yields from a cursor at `i`: the piece at
      the cursor, then those after its separator. A cursor at or past the
      end yields nothing. */
  function TokensFrom(s: string, separators: seq<char>, i: nat): seq<Piece>
    decreases |s| - i
  {
    if i >= |s| then [] else [PieceAt(s, separators, i)] + TokensFrom(s, separators, IndexOfAnyIn(s, separators, i) + 1)
  }

  /** The pieces of a whole text. */
  function Tokenize(s: string, separators: seq<char>): seq<Piece> {
    TokensFrom(s, separators, 0)
  }

  /** What a piece stands for in the input: its text, then its separator
      unless it is the final untagged piece. */
  function Spelling(p: Piece): string {
    p.text + if p.separator == NoSeparator then [] else [p.separator]
  }

  /** The input a sequence of pieces stands for. */
  function Join(ps: seq<Piece>): string {
    if ps == [] then [] else Spelling(ps[0]) + Join(ps[1..])
  }

  lemma JoinCons(p: Piece, ps: seq<Piece>)
    ensures Join([p] + ps) == Spelling(p) + Join(ps)
  {
    assert ([p] + ps)[1..] == ps;
  }

  lemma SplitAround(s: string, i: nat, e: nat)
    requires i <= e < |s|
    ensures s[i..] == s[i..e] + [s[e]] + s[e + 1..]
  {
  }

  /** Reconstruction: the pieces spell out the text after the cursor
      exactly, so nothing is dropped, duplicated or reordered. */
  lemma {:induction false} JoinTokensFrom(s: string, separators: seq<char>, i: nat)
    requires NoSeparator !in separators && i <= |s|
    ensures Join(TokensFrom(s, separators, i)) == s[i..]
    decreases |s| - i
  {
    if i < |s| {
      JoinCons(PieceAt(s, separators, i), TokensFrom(s, separators, IndexOfAnyIn(s, separators, i) + 1));
      if IndexOfAnyIn(s, separators, i) < |s| {
        JoinTokensFrom(s, separators, IndexOfAnyIn(s, separators, i) + 1);
        SplitAround(s, i, IndexOfAnyIn(s, separators, i));
      } else {
        assert s[i .. IndexOfAnyIn(s, separators, i)] == s[i..];
      }
    }
  }

  lemma JoinTokenize(s: string, separators: seq<char>)
    requires NoSeparator !in separators
    ensures Join(Tokenize(s, separators)) == s
  {
    JoinTokensFrom(s, separators, 0);
  }

  /** Every piece's text is free of separators. */
  lemma {:induction false} TokensFromPieces(s: string, separators: seq<char>, i: nat)
    ensures forall p | p in TokensFrom(s, separators, i) :: NoneIn(p.text, separators)
    decreases |s| - i
  {
    if i < |s| {
      IndexOfAnyInSkips(s, separators, i);
      TokensFromPieces(s, separators, IndexOfAnyIn(s, separators, i) + 1);
    }
  }

  /** Every piece but the last is ended by a separator; only the last may
      carry `NoSeparator`. */
  lemma {:induction false} TokensFromSeparators(s: string, separators: seq<char>, i: nat)
    ensures forall k | 0 <= k < |TokensFrom(s, separators, i)| ::
              TokensFrom(s, separators, i)[k].separator in separators
              || (k == |TokensFrom(s, separators, i)| - 1 && TokensFrom(s, separators, i)[k].separator == NoSeparator)
    decreases |s| - i
  {
    if i < |s| {
      TokensFromSeparators(s, separators, IndexOfAnyIn(s, separators, i) + 1);
    }
  }

  /** There are at most as many pieces as characters after the cursor. */
  lemma {:induction false} TokensFromCount(s: string, separators: seq<char>, i: nat)
    requires i <= |s|
    ensures |TokensFrom(s, separators, i)| <= |s| - i
    decreases |s| - i
  {
    if i < |s| && IndexOfAnyIn(s, separators, i) < |s| {
      TokensFromCount(s, separators, IndexOfAnyIn(s, separators, i) + 1);
    }
  }

  /** Every piece consumes at least one character: its text or its separator. */
  lemma {:induction false} TokensFromConsume(s: string, separators: seq<char>, i: nat)
    requires NoSeparator !in separators
    ensures forall p | p in TokensFrom(s, separators, i) :: |p.text| > 0 || p.separator != NoSeparator
    decreases |s| - i
  {
    if i < |s| {
      TokensFromConsume(s, separators, IndexOfAnyIn(s, separators, i) + 1);
    }
  }

  /** How the last piece ends the joined text. */
  lemma {:induction false} JoinLast(ps: seq<Piece>)
    requires ps != []
    ensures Join(ps) == Join(ps[..|ps| - 1]) + Spelling(ps[|ps| - 1])
  {
    if |ps| > 1 {
      JoinLast(ps[1..]);
      assert ps[1..][..|ps| - 2] == ps[..|ps| - 1][1..];
    }
  }

  /** A non-empty text yields at least one piece, and the last piece is
      untagged exactly when the text does not end in a separator. */
  lemma LastPiece(s: string, separators: seq<char>)
    requires NoSeparator !in separators && s != []
    ensures Tokenize(s, separators) != []
    ensures Tokenize(s, separators)[|Tokenize(s, separators)| - 1].separator == NoSeparator
            <==> s[|s| - 1] !in separators
  {
    var ps := Tokenize(s, separators);
    JoinTokenize(s, separators);
    JoinLast(ps);
    TokensFromSeparators(s, separators, 0);
    var last := ps[|ps| - 1];
    assert last in ps;
    if last.separator == NoSeparator {
      TokensFromConsume(s, separators, 0);
      TokensFromPieces(s, separators, 0);
      assert s[|s| - 1] == last.text[|last.text| - 1];
    } else {
      assert s[|s| - 1] == last.separator;
    }
  }

  /** The search stops no later than any separator at or after `i`. */
  lemma {:induction false} IndexOfAnyInFinds(s: string, anyOf: seq<char>, i: nat, k: nat)
    requires i <= k < |s| && s[k] in anyOf
    ensures IndexOfAnyIn(s, anyOf, i) <= k
    decreases k - i
  {
    if s[i] !in anyOf {
      IndexOfAnyInFinds(s, anyOf, i + 1, k);
    }
  }

  /** `s` sits in `q` from position `d` to the end. */
  predicate Shifted(q: string, s: string, d: nat) {
    |q| == d + |s| && forall k | 0 <= k < |s| :: q[d + k] == s[k]
  }

  /** Searching a text past position `d` is searching what sits there. */
  lemma {:induction false} IndexOfAnyInShift(q: string, s: string, d: nat, anyOf: seq<char>, i: nat)
    requires Shifted(q, s, d) && i <= |s|
    ensures IndexOfAnyIn(q, anyOf, d + i) == d + IndexOfAnyIn(s, anyOf, i)
    decreases |s| - i
  {
    if i < |s| && s[i] !in anyOf {
      IndexOfAnyInShift(q, s, d, anyOf, i + 1);
    }
  }

  /** The piece at `d + i` in `q` is the piece at `i` in what sits at `d`. */
  lemma PieceAtShift(q: string, s: string, d: nat, separators: seq<char>, i: nat)
    requires Shifted(q, s, d) && i < |s|
    ensures IndexOfAnyIn(q, separators, d + i) == d + IndexOfAnyIn(s, separators, i)
    ensures PieceAt(q, separators, d + i) == PieceAt(s, separators, i)
  {
    IndexOfAnyInShift(q, s, d, separators, i);
    var e := IndexOfAnyIn(s, separators, i);
    assert q[d + i .. d + e] == s[i .. e];
  }

  /** The pieces of `q` past `d` are the pieces of what sits there. */
  lemma {:induction false} TokensFromShift(q: string, s: string, d: nat, separators: seq<char>, i: nat)
    requires Shifted(q, s, d) && i <= |s|
    ensures TokensFrom(q, separators, d + i) == TokensFrom(s, separators, i)
    decreases |s| - i
  {
    if i < |s| {
      PieceAtShift(q, s, d, separators, i);
      var e := IndexOfAnyIn(s, separators, i);
      if e < |s| {
        TokensFromShift(q, s, d, separators, e + 1);
      }
    }
  }

  /** A run free of separators followed by a separator is the first
      piece, and the rest of the text is tokenized on its own. */
  lemma TokenizeCons(a: string, c: char, b: string, separators: seq<char>)
    requires NoneIn(a, separators) && c in separators
    ensures Tokenize(a + [c] + b, separators) == [Piece(a, c)] + Tokenize(b, separators)
  {
    var s := a + [c] + b;
    assert IndexOfAnyIn(s, separators, 0) == |a| by {
      assert s[|a|] == c;
      IndexOfAnyInFinds(s, separators, 0, |a|);
    }
    assert PieceAt(s, separators, 0) == Piece(a, c) by {
      assert s[0 .. |a|] == a;
    }
    assert TokensFrom(s, separators, |a| + 1) == Tokenize(b, separators) by {
      TokensFromShift(s, b, |a| + 1, separators, 0);
    }
  }

  /** A text that ends in a separator ends its last piece, so whatever
      follows it is tokenized on its own. */
  lemma {:induction false} TokenizeAppend(x: string, y: string, separators: seq<char>)
    requires x == [] || x[|x| - 1] in separators
    ensures Tokenize(x + y, separators) == Tokenize(x, separators) + Tokenize(y, separators)
    decreases |x|
  {
    if x == [] {
      assert x + y == y;
    } else {
      IndexOfAnyInFinds(x, separators, 0, |x| - 1);
      IndexOfAnyInSkips(x, separators, 0);
      var e := IndexOfAnyIn(x, separators, 0);
      var run, tail := x[..e], x[e + 1..];
      assert x == run + [x[e]] + tail;
      assert x + y == run + [x[e]] + (tail + y);
      TokenizeCons(run, x[e], tail + y, separators);
      TokenizeCons(run, x[e], tail, separators);
      TokenizeAppend(tail, y, separators);
    }
  }

  /** `TenorSegmentTokenizer.Enumerator`: a cursor over a fixed view. */
  class Enumerator {
    const value: Segment
    const separators: seq<char>
    var index: nat
    var current: Token

    /** The pieces still to come: those of the text after the cursor. */
    ghost function Remaining(): seq<Piece>
      reads this
    {
      TokensFrom(Text(value), separators, index)
    }

    /** `Enumerator(in TenorSegment, char[])`. */
    constructor (value: Segment, separators: seq<char>)
      ensures this.value == value && this.separators == separators
      ensures index == 0 && current == DefaultToken
      ensures Remaining() == Tokenize(Text(value), separators)
    {
      this.value := value;
      this.separators := separators;
      index := 0;
      current := DefaultToken;
    }

    /** `Enumerator(ref TenorSegmentTokenizer)`. */
    constructor FromTokenizer(tokenizer: Tokenizer)
      ensures value == tokenizer.value && separators == tokenizer.separators
      ensures index == 0 && current == DefaultToken
      ensures Remaining() == Tokenize(Text(tokenizer.value), tokenizer.separators)
    {
      value := tokenizer.value;
      separators := tokenizer.separators;
      index := 0;
      current := DefaultToken;
    }

    /** Moves to the next token: false, with `current` reset, when the view
        has no value or the cursor is at or past its end; otherwise
        `current` is the next piece, as a view of the same buffer starting
        at the cursor, and the cursor moves past its separator. */
    method MoveNext() returns (ok: bool)
      modifies this
      ensures ok <==> old(Remaining()) != []
      ensures ok ==> PieceOf(current) == old(Remaining())[0] && Remaining() == old(Remaining())[1..]
      ensures ok ==> current.segment.buffer == value.buffer && current.segment.offset == value.offset + old(index)
      ensures ok ==> index == old(index) + |Text(current.segment)| + 1
      ensures !ok ==> current == DefaultToken && index == old(index)
    {
      var sep := NoSeparator;
      if !HasValue(value) || index >= value.length {
        current := DefaultToken;
        return false;
      }
      var next := IndexOfAny(value, separators, index);
      if next == -1 {
        next := value.length;
      } else {
        sep := At(value, next);
      }
      current := Token(Subsegment(value, index, next - index), sep);
      index := next + 1;
      return true;
    }

    /** Restarts the enumeration from the start of the view. */
    method Reset()
      modifies this
      ensures index == 0 && current == DefaultToken
      ensures Remaining() == Tokenize(Text(value), separators)
    {
      current := DefaultToken;
      index := 0;
    }
  }

  /** `GetEnumerator()`: a fresh enumerator at the start of the view. */
  method GetEnumerator(tokenizer: Tokenizer) returns (e: Enumerator)
    ensures fresh(e)
    ensures e.value == tokenizer.value && e.separators == tokenizer.separators
    ensures e.index == 0 && e.current == DefaultToken
    ensures e.Remaining() == Tokenize(Text(tokenizer.value), tokenizer.separators)
  {
    e := new Enumerator(tokenizer.value, tokenizer.separators);
  }
}
