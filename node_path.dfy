/**
 * Paths of the tree view. Each node's `path` property is its parent's path followed by
 * one segment, `[i]` for an array element and `["key"]` for an object member. This
 * module walks from a node to a descendant the way the nested components do, and reads
 * a path string back into the steps it was built from.
 */
module NodePaths {
  import opened Wrappers
  import opened Text
  import opened Seqs
  import opened JsonValues
  import opened JsonNode

  /** One level of descent: an array position or an object key. */
  datatype Step = AtIndex(i: nat) | AtKey(k: string)

  function Segment(st: Step): string
  {
    match st
    case AtIndex(i) => IndexSegment(i)
    case AtKey(k) => KeySegment(k)
  }

  /** The path string a sequence of steps produces, one segment per step. */
  function PathOf(steps: seq<Step>): string
  {
    if steps == [] then "" else Segment(steps[0]) + PathOf(steps[1..])
  }

  lemma {:induction false} PathOfAppend(steps: seq<Step>, st: Step)
    ensures PathOf(steps + [st]) == PathOf(steps) + Segment(st)
  {
    if steps == [] {
      assert [] + [st] == [st];
    } else {
      assert (steps + [st])[1..] == steps[1..] + [st];
      PathOfAppend(steps[1..], st);
    }
  }

  /** The child a step leads to: an in-range index of an array, the first member of an object with that key. */
  function ChildAt(p: Props, st: Step): Option<Props>
  {
    match st
    case AtIndex(i) =>
      if p.value.JArr? && i < |p.value.items| then Some(ChildProps(p, i)) else None
    case AtKey(k) =>
      if p.value.JObj? then
        match FindIndex(p.value.members, (m: (string, JsonValue)) => m.0 == k)
        case Some(i) => Some(ChildProps(p, i))
        case None => None
      else None
  }

  /** The properties of the node the steps lead to from `p`, if they lead anywhere. */
  function Walk(p: Props, steps: seq<Step>): Option<Props>
    decreases |steps|
  {
    if steps == [] then Some(p)
    else match ChildAt(p, steps[0])
      case None => None
      case Some(c) => Walk(c, steps[1..])
  }

  /** A child carries its parent's path followed by the step's segment, one level deeper. */
  lemma ChildAtPath(p: Props, st: Step)
    requires ChildAt(p, st).Some?
    ensures ChildAt(p, st).value.path == p.path + Segment(st)
    ensures ChildAt(p, st).value.depth == p.depth + 1
  {
    match st
    case AtIndex(i) =>
    case AtKey(k) =>
      var i := FindIndex(p.value.members, (m: (string, JsonValue)) => m.0 == k).value;
      assert p.value.members[i].0 == k;
  }

  /** A node reached by a walk carries its ancestor's path followed by the steps' segments, one level deeper per step. */
  lemma {:induction false} WalkPath(p: Props, steps: seq<Step>)
    requires Walk(p, steps).Some?
    ensures Walk(p, steps).value.path == p.path + PathOf(steps)
    ensures Walk(p, steps).value.depth == p.depth + |steps|
    decreases |steps|
  {
    if steps != [] {
      var c := WalkStep(p, steps);
      ChildAtPath(p, steps[0]);
      WalkPath(c, steps[1..]);
      PathOfCons(steps);
      ConcatAssoc(p.path, Segment(steps[0]), PathOf(steps[1..]));
    }
  }

  /** A walk of at least one step goes through the child of its first step. */
  lemma WalkStep(p: Props, steps: seq<Step>) returns (c: Props)
    requires steps != [] && Walk(p, steps).Some?
    ensures ChildAt(p, steps[0]) == Some(c) && Walk(p, steps) == Walk(c, steps[1..])
  {
    c := ChildAt(p, steps[0]).value;
  }

  lemma PathOfCons(steps: seq<Step>)
    requires steps != []
    ensures PathOf(steps) == Segment(steps[0]) + PathOf(steps[1..])
  {
  }

  lemma ConcatAssoc(a: string, b: string, c: string)
    ensures (a + b) + c == a + (b + c)
  {
  }

  // ---------------------------------------------------------------------------
  // Reading a path back

  /** The first position at or after `from` that holds `c`, or `|s|`. */
  function IndexOf(s: string, c: char, from: nat): (r: nat)
    requires from <= |s|
    ensures from <= r <= |s|
    ensures forall j :: from <= j < r ==> s[j] != c
    ensures r < |s| ==> s[r] == c
    decreases |s| - from
  {
    if from == |s| then |s| else if s[from] == c then from else IndexOf(s, c, from + 1)
  }

  /**
   * Reads the grammar `( "[" Index "]" | "[\"" Key "\"]" )*`, where an index is a
   * decimal without leading zeros and a key runs to the next double quote.
   */
  function ParsePath(s: string): Option<seq<Step>>
    decreases |s|
  {
    if s == [] then Some([])
    else if |s| < 2 || s[0] != '[' then None
    else if s[1] == '"' then
      var j := IndexOf(s, '"', 2);
      if j + 1 < |s| && s[j + 1] == ']' then
        match ParsePath(s[j + 2..])
        case Some(rest) => Some([AtKey(s[2..j])] + rest)
        case None => None
      else None
    else
      var j := IndexOf(s, ']', 1);
      if 1 < j < |s| && AllDigits(s[1..j]) && (s[1] != '0' || j == 2) then
        match ParsePath(s[j + 1..])
        case Some(rest) => Some([AtIndex(ParseDigits(s[1..j]))] + rest)
        case None => None
      else None
  }

  /** No key along the steps contains a double quote. */
  predicate QuoteFree(steps: seq<Step>)
  {
    forall i :: 0 <= i < |steps| && steps[i].AtKey? ==> '"' !in steps[i].k
  }

  /** Paths whose keys hold no double quote can be read back into the steps that built them. */
  lemma {:induction false} PathRoundTrip(steps: seq<Step>)
    requires QuoteFree(steps)
    ensures ParsePath(PathOf(steps)) == Some(steps)
  {
    if steps != [] {
      var st, tail := steps[0], steps[1..];
      var rest := PathOf(tail);
      PathOfCons(steps);
      QuoteFreeTail(steps);
      PathRoundTrip(tail);
      SegmentParses(st, rest);
      assert [st] + tail == steps;
    }
  }

  lemma QuoteFreeTail(steps: seq<Step>)
    requires steps != [] && QuoteFree(steps)
    ensures QuoteFree(steps[1..]) && (steps[0].AtKey? ==> '"' !in steps[0].k)
  {
    forall i | 0 <= i < |steps[1..]| && steps[1..][i].AtKey? ensures '"' !in steps[1..][i].k {
      assert steps[1..][i] == steps[i + 1];
    }
  }

  /** One segment is read back as its step, and reading goes on after it. */
  lemma SegmentParses(st: Step, rest: string)
    requires st.AtKey? ==> '"' !in st.k
    ensures ParsePath(Segment(st) + rest) ==
      if ParsePath(rest).Some? then Some([st] + ParsePath(rest).value) else None
  {
    match st
    case AtKey(k) => KeySegmentParses(k, rest);
    case AtIndex(i) => IndexSegmentParses(i, rest);
  }

  /** A key segment is read back as that key, and reading goes on after it. */
  lemma KeySegmentParses(k: string, rest: string)
    requires '"' !in k
    ensures ParsePath(KeySegment(k) + rest) ==
      if ParsePath(rest).Some? then Some([AtKey(k)] + ParsePath(rest).value) else None
  {
    var s := KeySegment(k) + rest;
    assert s == "[\"" + k + "\"]" + rest;
    forall j | 2 <= j < 2 + |k| ensures s[j] != '"' {
      assert s[j] == k[j - 2];
    }
    assert s[2 + |k|] == '"';
    assert IndexOf(s, '"', 2) == 2 + |k|;
    assert s[2..2 + |k|] == k;
    assert s[2 + |k| + 2..] == rest;
  }

  /** An index segment is read back as that index, and reading goes on after it. */
  lemma IndexSegmentParses(i: nat, rest: string)
    ensures ParsePath(IndexSegment(i) + rest) ==
      if ParsePath(rest).Some? then Some([AtIndex(i)] + ParsePath(rest).value) else None
  {
    var d := NatToString(i);
    var s := IndexSegment(i) + rest;
    assert s == "[" + d + "]" + rest;
    forall j | 1 <= j < 1 + |d| ensures s[j] != ']' {
      assert s[j] == d[j - 1];
    }
    assert s[1 + |d|] == ']';
    assert IndexOf(s, ']', 1) == 1 + |d|;
    assert s[1..1 + |d|] == d;
    assert s[1] == d[0];
    assert s[1 + |d| + 1..] == rest;
    NatToStringRoundTrip(i);
  }

  /** Two step sequences with quote-free keys give the same path only if they are the same. */
  lemma PathInjective(a: seq<Step>, b: seq<Step>)
    requires QuoteFree(a) && QuoteFree(b) && PathOf(a) == PathOf(b)
    ensures a == b
  {
    PathRoundTrip(a);
    PathRoundTrip(b);
  }

  /**
   * Keys are embedded unescaped, so a key holding `"]["` gives a member of the root
   * the same path as a member two levels down.
   */
  lemma UnescapedKeyCollision()
    ensures [AtKey("a\"][\"b")] != [AtKey("a"), AtKey("b")]
    ensures PathOf([AtKey("a\"][\"b")]) == PathOf([AtKey("a"), AtKey("b")])
  {
    assert PathOf([AtKey("b")]) == "[\"b\"]";
    assert [AtKey("a"), AtKey("b")][1..] == [AtKey("b")];
  }
}
