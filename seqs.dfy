/** The array methods the modelled code chains together: `filter`, `find`, `slice` and `reverse`. */
module Seqs {
  import opened Wrappers

  function Min(a: int, b: int): int
  {
    if a < b then a else b
  }

  /** `s.filter(p)`: the elements of `s` that satisfy `p`, none dropped and none added. */
  function Filter<T>(s: seq<T>, p: T -> bool): (r: seq<T>)
    ensures |r| <= |s|
    ensures forall i :: 0 <= i < |r| ==> p(r[i]) && r[i] in s
    ensures forall i :: 0 <= i < |s| && p(s[i]) ==> s[i] in r
  {
    if s == [] then []
    else (if p(s[0]) then [s[0]] else []) + Filter(s[1..], p)
  }

  /** Filtering keeps the original order: it distributes over concatenation. */
  lemma {:induction false} FilterConcat<T>(a: seq<T>, b: seq<T>, p: T -> bool)
    ensures Filter(a + b, p) == Filter(a, p) + Filter(b, p)
  {
    if a != [] {
      assert (a + b)[1..] == a[1..] + b;
      FilterConcat(a[1..], b, p);
    } else {
      assert a + b == b;
    }
  }

  /** The index `s.find(p)` stops at: the first element satisfying `p`, if any. */
  function FindIndex<T>(s: seq<T>, p: T -> bool): (r: Option<nat>)
    ensures r.Some? ==> r.value < |s| && p(s[r.value])
    ensures r.Some? ==> forall j :: 0 <= j < r.value ==> !p(s[j])
    ensures r.None? <==> forall j :: 0 <= j < |s| ==> !p(s[j])
  {
    if s == [] then None
    else if p(s[0]) then Some(0)
    else match FindIndex(s[1..], p)
      case Some(i) => Some(i + 1)
      case None => None
  }

  /** The first element `filter` keeps is the one `find` stops at. */
  lemma {:induction false} FilterHead<T>(s: seq<T>, p: T -> bool)
    ensures Filter(s, p) != [] <==> FindIndex(s, p).Some?
    ensures Filter(s, p) != [] ==> Filter(s, p)[0] == s[FindIndex(s, p).value]
  {
    if s != [] && !p(s[0]) {
      var t := s[1..];
      FilterHead(t, p);
      assert Filter(s, p) == Filter(t, p);
      match FindIndex(t, p)
      case Some(i) =>
        assert FindIndex(s, p) == Some(i + 1);
        assert s[i + 1] == t[i];
      case None =>
        assert FindIndex(s, p) == None;
    } else if s != [] {
      assert Filter(s, p) == [s[0]] + Filter(s[1..], p);
      assert FindIndex(s, p) == Some(0);
    }
  }

  /** `[...s].reverse()`. */
  function Reverse<T>(s: seq<T>): (r: seq<T>)
    ensures |r| == |s|
    ensures forall i :: 0 <= i < |s| ==> r[i] == s[|s| - 1 - i]
  {
    if s == [] then [] else Reverse(s[1..]) + [s[0]]
  }
}
