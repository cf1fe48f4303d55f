/** `TenorSegment`: a non-owning view `[offset, offset + length)` over a
    string buffer, with the explicit "no value" state of a null buffer.
    The type is used by the tokenizer and the parser; its operations
    follow the view semantics those callers rely on: lengths and indices
    are relative to the view, and a request outside the view is a
    programming error (a precondition here). */
module Segments {
  import opened Wrappers

  datatype SegmentView = SegmentView(buffer: Option<string>, offset: nat, length: nat) {
    /** A view lies inside its buffer; a view without a buffer is empty. */
    predicate Valid() {
      match buffer
      case None => offset == 0 && length == 0
      case Some(b) => offset + length <= |b|
    }
  }

  type Segment = v: SegmentView | v.Valid() witness SegmentView(None, 0, 0)

  /** `default(TenorSegment)`: no buffer at all. */
  const Null: Segment := SegmentView(None, 0, 0)

  /** True iff the view is backed by a buffer (false for `null` input);
      a view without value is the default view, and empty. */
  predicate HasValue(v: Segment)
    ensures HasValue(v) <==> v != Null
    ensures !HasValue(v) ==> v.length == 0
  {
    v.buffer.Some?
  }

  /** The characters the view covers. */
  function Text(v: Segment): (s: string)
    ensures |s| == v.length
  {
    if v.buffer.None? then [] else v.buffer.value[v.offset .. v.offset + v.length]
  }

  /** `new TenorSegment(string)`: the whole string, or no value for `null`. */
  function FromString(s: Option<string>): (v: Segment)
    ensures HasValue(v) <==> s.Some?
    ensures s.Some? ==> Text(v) == s.value
    ensures s.None? ==> v == Null
  {
    match s
    case None => Null
    case Some(str) => SegmentView(Some(str), 0, |str|)
  }

  /** The indexer `segment[i]`: reads the buffer at `offset + i`. */
  function At(v: Segment, i: nat): (c: char)
    requires i < v.length
    ensures c == Text(v)[i]
  {
    v.buffer.value[v.offset + i]
  }

  /** `Subsegment(start, length)`: a view of the same buffer over
      `[start, start + length)`, counted from this view's start. */
  function Subsegment(v: Segment, start: nat, length: nat): (r: Segment)
    requires HasValue(v) && start + length <= v.length
    ensures HasValue(r) && r.buffer == v.buffer
    ensures Text(r) == Text(v)[start .. start + length]
  {
    SliceOfSlice(v.buffer.value, v.offset, v.offset + v.length, start, start + length);
    SegmentView(v.buffer, v.offset + start, length)
  }

  lemma SliceOfSlice(b: string, i: nat, j: nat, k: nat, l: nat)
    requires i <= j <= |b| && k <= l <= j - i
    ensures b[i..j][k..l] == b[i + k .. i + l]
  {
    forall m | 0 <= m < l - k
      ensures b[i..j][k..l][m] == b[i + k .. i + l][m]
    {
    }
  }

  /** No character of `s` is one of `anyOf`. */
  predicate NoneIn(s: string, anyOf: seq<char>) {
    forall k | 0 <= k < |s| :: s[k] !in anyOf
  }

  /** The position of the first character of `s` at or after `i` that is
      one of `anyOf`, or `|s|` when there is none. */
  function IndexOfAnyIn(s: string, anyOf: seq<char>, i: nat): (e: nat)
    requires i <= |s|
    ensures i <= e <= |s|
    ensures e < |s| ==> s[e] in anyOf
    decreases |s| - i
  {
    if i == |s| || s[i] in anyOf then i else IndexOfAnyIn(s, anyOf, i + 1)
  }

  /** `IndexOfAnyIn` skips only characters outside `anyOf`: it finds the
      first match, not just some match. */
  lemma {:induction false} IndexOfAnyInSkips(s: string, anyOf: seq<char>, i: nat)
    requires i <= |s|
    ensures NoneIn(s[i .. IndexOfAnyIn(s, anyOf, i)], anyOf)
    decreases |s| - i
  {
    if i < |s| && s[i] !in anyOf {
      IndexOfAnyInSkips(s, anyOf, i + 1);
      assert s[i .. IndexOfAnyIn(s, anyOf, i)] == [s[i]] + s[i + 1 .. IndexOfAnyIn(s, anyOf, i)];
    }
  }

  /** The view-relative position of the first character at or after
      `from` that is one of `anyOf`; -1 when there is none. */
  function FirstIndexOfAny(v: Segment, anyOf: seq<char>, from: nat): (r: int)
    requires from <= v.length
    ensures r == -1 || (from <= r < v.length && Text(v)[r] in anyOf)
  {
    if IndexOfAnyIn(Text(v), anyOf, from) == v.length then -1 else IndexOfAnyIn(Text(v), anyOf, from)
  }

  /** `IndexOfAny(anyOf, startIndex)`: scans the buffer from
      `offset + startIndex` to the end of the view and reports the
      position it finds relative to the view. */
  method IndexOfAny(v: Segment, anyOf: seq<char>, startIndex: nat) returns (r: int)
    requires HasValue(v) && startIndex <= v.length
    ensures r == FirstIndexOfAny(v, anyOf, startIndex)
  {
    var buffer := v.buffer.value;
    var j := startIndex;
    while j < v.length
      invariant startIndex <= j <= v.length
      invariant IndexOfAnyIn(Text(v), anyOf, j) == IndexOfAnyIn(Text(v), anyOf, startIndex)
    {
      if buffer[v.offset + j] in anyOf {
        return j;
      }
      j := j + 1;
    }
    return -1;
  }
}
