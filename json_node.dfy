/**
 * One node of the JSON tree view: how a value is classified, how a scalar and a
 * collapsed container are rendered as text, which children are shown and with which
 * properties, where commas go, and which path a click on the key copies. The state a
 * node keeps between clicks (expanded, page size, copy acknowledgement) is `NodeState`.
 */
module JsonNode {
  import opened Wrappers
  import opened Text
  import opened Seqs
  import opened JsonValues

  /** Children shown per page, and the initial page size. */
  const PageSize: nat := 50

  /** Object keys a collapsed preview prefers, compared lower-cased. */
  const PriorityKeys: seq<string> := ["name", "id", "title", "key", "type", "label"]

  /** The properties a node is rendered with. */
  datatype Props = Props(name: string, value: JsonValue, isLast: bool, depth: nat, path: string)

  /** `renderValue`: the literal text of a scalar. */
  function RenderScalar(v: JsonValue): (r: string)
    requires !v.IsContainer()
    ensures |r| > 0 && (r[0] == '"' <==> v.JStr?)
  {
    match v
    case JNull => "null"
    case JBool(b) => if b then "true" else "false"
    case JNum(n) => IntToString(n)
    case JStr(s) => "\"" + s + "\""
  }

  /**
   * Scalar rendering loses nothing: a string is its text between two quotes, and two
   * scalars that render alike are the same value (`null`, `"null"` and `true` never clash).
   */
  lemma RenderScalarInjective(a: JsonValue, b: JsonValue)
    requires !a.IsContainer() && !b.IsContainer()
    ensures a.JStr? ==> |RenderScalar(a)| == |a.s| + 2 && RenderScalar(a)[1..|a.s| + 1] == a.s
    ensures RenderScalar(a) == RenderScalar(b) ==> a == b
  {
    var ra, rb := RenderScalar(a), RenderScalar(b);
    if a.JStr? { assert ra[1..|a.s| + 1] == a.s; }
    if ra == rb {
      if a.JNum? || b.JNum? {
        NumberRenderingStart(a);
        NumberRenderingStart(b);
        if a.JNum? && b.JNum? { IntToStringInjective(a.n, b.n); }
      } else if a.JStr? && b.JStr? {
        assert a.s == ra[1..|a.s| + 1];
        assert b.s == rb[1..|b.s| + 1];
      } else if a.JStr? || b.JStr? {
        assert ra[0] != rb[0];
      }
    }
  }

  /** A rendered number starts with a digit or a minus sign, which no other scalar does. */
  lemma NumberRenderingStart(v: JsonValue)
    requires !v.IsContainer()
    ensures v.JNum? <==> (IsDigit(RenderScalar(v)[0]) || RenderScalar(v)[0] == '-')
  {
    if v.JNum? && v.n >= 0 {
      assert IsDigit(NatToString(v.n)[0]);
    }
    if v.JNum? && v.n < 0 {
      assert RenderScalar(v)[0] == '-';
    }
  }

  // ---------------------------------------------------------------------------
  // Collapsed preview

  /** `priorityKeys.includes(k.toLowerCase())`. */
  predicate IsPriorityKey(k: string)
  {
    ToLower(k) in PriorityKeys
  }

  predicate IsPriorityMember(m: (string, JsonValue))
  {
    IsPriorityKey(m.0)
  }

  predicate IsOtherMember(m: (string, JsonValue))
  {
    !IsPriorityKey(m.0)
  }

  /**
   * The members a collapsed object previews: when some keys are priority keys, all of
   * them in document order followed by the first other key, cut to three; otherwise
   * the first three keys.
   */
  function PreviewMembers(ms: seq<(string, JsonValue)>): (r: seq<(string, JsonValue)>)
    ensures |r| <= 3 && (r == [] <==> ms == [])
  {
    var priority := Filter(ms, IsPriorityMember);
    if |priority| == 0 then ms[..Min(3, |ms|)]
    else
      var others := Filter(ms, IsOtherMember);
      (priority + others[..Min(1, |others|)])[..Min(3, |priority| + Min(1, |others|))]
  }

  /**
   * What the preview key choice guarantees: at most three members, all of the object,
   * none for an empty object; with priority keys present the priority members come
   * first, in document order, and the first other member follows them exactly when
   * fewer than three priority keys and some other key exist; without priority keys,
   * the first three.
   */
  lemma PreviewMembersChoice(ms: seq<(string, JsonValue)>)
    ensures var r := PreviewMembers(ms);
      && |r| <= 3
      && (forall i :: 0 <= i < |r| ==> r[i] in ms)
      && (r == [] <==> ms == [])
      && ((exists i :: 0 <= i < |ms| && IsPriorityMember(ms[i])) ==>
           var priority, others := Filter(ms, IsPriorityMember), Filter(ms, IsOtherMember);
           && |r| == Min(3, |priority| + Min(1, |others|))
           && (|priority| < 3 && others != [] ==> r[|priority|] == others[0])
           && r[..Min(3, |priority|)] == priority[..Min(3, |priority|)]
           && (forall i :: Min(3, |priority|) <= i < |r| ==> i == |priority| && IsOtherMember(r[i]))
           && (|priority| <= 3 ==> forall i :: 0 <= i < |ms| && IsPriorityMember(ms[i]) ==> ms[i] in r))
      && ((forall i :: 0 <= i < |ms| ==> IsOtherMember(ms[i])) ==> r == ms[..Min(3, |ms|)])
  {
    var priority := Filter(ms, IsPriorityMember);
    if |priority| > 0 {
      PriorityPreview(ms);
      PriorityThenFirstOther(ms);
      assert priority[0] in ms;
    } else {
      PlainPreview(ms);
    }
  }

  /** The preview key choice when some key is a priority key. */
  lemma PriorityPreview(ms: seq<(string, JsonValue)>)
    requires |Filter(ms, IsPriorityMember)| > 0
    ensures var r, priority := PreviewMembers(ms), Filter(ms, IsPriorityMember);
      && (forall i :: 0 <= i < |r| ==> r[i] in ms)
      && r[..Min(3, |priority|)] == priority[..Min(3, |priority|)]
      && (forall i :: Min(3, |priority|) <= i < |r| ==> i == |priority| && IsOtherMember(r[i]))
      && (|priority| <= 3 ==> forall i :: 0 <= i < |ms| && IsPriorityMember(ms[i]) ==> ms[i] in r)
  {
    var r := PreviewMembers(ms);
    var priority := Filter(ms, IsPriorityMember);
    var others := Filter(ms, IsOtherMember);
    var tail := others[..Min(1, |others|)];
    assert r == (priority + tail)[..Min(3, |priority| + |tail|)];
    PrefixThenTail(priority, tail, r);
    assert forall i :: 0 <= i < |tail| ==> tail[i] == others[i];
    forall i | 0 <= i < |ms| && IsPriorityMember(ms[i]) && |priority| <= 3 ensures ms[i] in r {
      var k :| 0 <= k < |priority| && priority[k] == ms[i];
    }
  }

  /** With priority keys present, the key after them is the first other key, when there is room. */
  lemma PriorityThenFirstOther(ms: seq<(string, JsonValue)>)
    requires |Filter(ms, IsPriorityMember)| > 0
    ensures var r, priority, others := PreviewMembers(ms), Filter(ms, IsPriorityMember), Filter(ms, IsOtherMember);
      && |r| == Min(3, |priority| + Min(1, |others|))
      && (|priority| < 3 && others != [] ==> r[|priority|] == others[0])
  {
    var r := PreviewMembers(ms);
    var priority := Filter(ms, IsPriorityMember);
    var others := Filter(ms, IsOtherMember);
    var tail := others[..Min(1, |others|)];
    assert |tail| == Min(1, |others|);
    PriorityUnfold(ms);
    PrefixThenTail(priority, tail, r);
    assert |r| == Min(3, |priority| + |tail|);
    if |priority| < 3 && others != [] {
      assert tail[0] == others[0];
    }
  }

  /** The preview members with priority keys present, with the other keys cut to one. */
  lemma PriorityUnfold(ms: seq<(string, JsonValue)>)
    requires |Filter(ms, IsPriorityMember)| > 0
    ensures var priority, others := Filter(ms, IsPriorityMember), Filter(ms, IsOtherMember);
      var tail := others[..Min(1, |others|)];
      PreviewMembers(ms) == (priority + tail)[..Min(3, |priority| + |tail|)]
  {
  }

  /** The first three of a list followed by at most one more element. */
  lemma PrefixThenTail<T>(front: seq<T>, tail: seq<T>, r: seq<T>)
    requires |tail| <= 1 && r == (front + tail)[..Min(3, |front| + |tail|)]
    ensures |r| == Min(3, |front| + |tail|)
    ensures r[..Min(3, |front|)] == front[..Min(3, |front|)]
    ensures forall i :: Min(3, |front|) <= i < |r| ==> i == |front| && r[i] == tail[0]
    ensures forall i :: 0 <= i < |r| ==> r[i] in front || r[i] in tail
    ensures |front| <= 3 ==> forall i :: 0 <= i < |front| ==> r[i] == front[i]
  {
    forall i | 0 <= i < |r| ensures r[i] in front || r[i] in tail {
      if i < |front| { assert r[i] == front[i]; } else { assert r[i] == tail[i - |front|]; }
    }
    forall i | Min(3, |front|) <= i < |r| ensures i == |front| && r[i] == tail[0] {
      assert r[i] == tail[i - |front|];
    }
  }

  /** The preview key choice when no key is a priority key: the first three keys. */
  lemma PlainPreview(ms: seq<(string, JsonValue)>)
    requires |Filter(ms, IsPriorityMember)| == 0
    ensures var r := PreviewMembers(ms);
      && r == ms[..Min(3, |ms|)]
      && (forall i :: 0 <= i < |r| ==> r[i] in ms)
      && (r == [] <==> ms == [])
  {
    var r := PreviewMembers(ms);
    if ms != [] { assert ms[0] in ms[..Min(3, |ms|)]; }
    forall i | 0 <= i < |r| ensures r[i] in ms { assert r[i] == ms[i]; }
  }

  /** A preview part shows a nested container as `[...]` and a scalar by its literal. */
  function PreviewPart(m: (string, JsonValue)): (r: string)
    ensures StartsWith(r, m.0 + ": ") && |r| > |m.0| + 2
  {
    if m.1.IsContainer() then m.0 + ": [...]" else m.0 + ": " + RenderScalar(m.1)
  }

  function PreviewParts(ms: seq<(string, JsonValue)>): (r: seq<string>)
    ensures |r| == |ms| && forall i :: 0 <= i < |ms| ==> r[i] == PreviewPart(ms[i])
  {
    seq(|ms|, i requires 0 <= i < |ms| => PreviewPart(ms[i]))
  }

  /** `parts.join(sep)`. */
  function Join(parts: seq<string>, sep: string): (r: string)
    ensures parts == [] ==> r == ""
    ensures parts != [] ==> StartsWith(r, parts[0])
  {
    if parts == [] then ""
    else if |parts| == 1 then parts[0]
    else parts[0] + sep + Join(parts[1..], sep)
  }

  /** `getPreview`: the summary text of a collapsed container. */
  function Preview(v: JsonValue): (r: string)
    requires v.IsContainer()
    ensures v.JArr? ==> EndsWith(r, " items")
    ensures v.JObj? ==> StartsWith(r, "{") && EndsWith(r, "}")
  {
    match v
    case JArr(items) => NatToString(|items|) + " items"
    case JObj(ms) =>
      if ms == [] then "{}"
      else
        var shown := PreviewMembers(ms);
        "{ " + Join(PreviewParts(shown), ", ") + (if |ms| > |shown| then ", ..." else "") + " }"
  }

  /**
   * A preview part is the key, a colon and the value's text. It never ends in a dot, and it
   * ends in `]` exactly when the value is a container, as no scalar literal ends that way.
   */
  lemma PreviewPartEnd(m: (string, JsonValue))
    ensures var t := PreviewPart(m);
      && StartsWith(t, m.0 + ": ") && |t| > |m.0| + 2
      && t[|t| - 1] != '.'
      && (t[|t| - 1] == ']' <==> m.1.IsContainer())
  {
    var t := PreviewPart(m);
    if !m.1.IsContainer() {
      var s := RenderScalar(m.1);
      assert t[|t| - 1] == s[|s| - 1];
      if m.1.JNum? {
        var d := NatToString(if m.1.n < 0 then -m.1.n else m.1.n);
        assert s[|s| - 1] == d[|d| - 1];
        assert IsDigit(d[|d| - 1]);
      }
    }
  }

  lemma {:induction false} JoinEnd(parts: seq<string>, sep: string)
    requires parts != [] && parts[|parts| - 1] != []
    ensures var j := Join(parts, sep); |j| > 0 && j[|j| - 1] == parts[|parts| - 1][|parts[|parts| - 1]| - 1]
  {
    if |parts| == 1 {
      assert Join(parts, sep) == parts[0];
    } else {
      var rest := parts[1..];
      assert rest[|rest| - 1] == parts[|parts| - 1];
      JoinEnd(rest, sep);
      var head, jr := parts[0] + sep, Join(rest, sep);
      assert Join(parts, sep) == head + jr;
      LastOfConcat(head, jr);
    }
  }

  lemma LastOfConcat(a: string, b: string)
    requires b != []
    ensures |a + b| > 0 && (a + b)[|a + b| - 1] == b[|b| - 1]
  {
  }

  /**
   * An object preview is braced, and it ends in `, ... }` exactly when the object has
   * more members than were previewed; an array preview counts its items.
   */
  lemma PreviewShape(v: JsonValue)
    requires v.IsContainer()
    ensures v.JArr? ==> Preview(v) == NatToString(|v.items|) + " items"
    ensures v.JObj? && v.members == [] ==> Preview(v) == "{}"
    ensures v.JObj? && v.members != [] ==>
      var p := Preview(v);
      && StartsWith(p, "{ ") && EndsWith(p, " }") && |p| >= 5
      && (EndsWith(p, ", ... }") <==> |v.members| > |PreviewMembers(v.members)|)
  {
    if v.JObj? && v.members != [] {
      ObjectPreviewEnd(v.members);
    }
  }

  lemma ObjectPreviewEnd(ms: seq<(string, JsonValue)>)
    requires ms != []
    ensures var p := Preview(JObj(ms));
      && StartsWith(p, "{ ") && EndsWith(p, " }") && |p| >= 5
      && (EndsWith(p, ", ... }") <==> |ms| > |PreviewMembers(ms)|)
  {
    var shown := PreviewMembers(ms);
    var j := Join(PreviewParts(shown), ", ");
    var truncated := |ms| > |shown|;
    assert Preview(JObj(ms)) == "{ " + j + (if truncated then ", ..." else "") + " }";
    JoinedPartsEnd(shown);
    BracedEnd(j, truncated);
  }

  /** The joined parts of a non-empty preview do not end in a dot. */
  lemma JoinedPartsEnd(shown: seq<(string, JsonValue)>)
    requires shown != []
    ensures var j := Join(PreviewParts(shown), ", "); |j| > 0 && j[|j| - 1] != '.'
  {
    var parts := PreviewParts(shown);
    LastPartEnd(shown, parts);
    JoinEnd(parts, ", ");
  }

  lemma LastPartEnd(shown: seq<(string, JsonValue)>, parts: seq<string>)
    requires shown != [] && parts == PreviewParts(shown)
    ensures parts != [] && parts[|parts| - 1] != [] && parts[|parts| - 1][|parts[|parts| - 1]| - 1] != '.'
  {
    PreviewPartEnd(shown[|shown| - 1]);
  }

  /** The braces around the joined parts, with the ellipsis when `truncated`. */
  lemma BracedEnd(j: string, truncated: bool)
    requires |j| > 0 && j[|j| - 1] != '.'
    ensures var p := "{ " + j + (if truncated then ", ..." else "") + " }";
      && StartsWith(p, "{ ") && EndsWith(p, " }") && |p| >= 5
      && (EndsWith(p, ", ... }") <==> truncated)
  {
    var p := "{ " + j + (if truncated then ", ..." else "") + " }";
    assert p[..2] == "{ ";
    if !truncated && |p| >= 7 {
      assert p[|p| - 7..][4] == j[|j| - 1];
    }
  }

  // ---------------------------------------------------------------------------
  // Children, paths and commas

  /** The path segment of an array element. */
  function IndexSegment(i: nat): string
  {
    "[" + NatToString(i) + "]"
  }

  /** The path segment of an object member; the key is embedded as it is, unescaped. */
  function KeySegment(k: string): string
  {
    "[\"" + k + "\"]"
  }

  /** The properties of the child at position `i` of a container node. */
  function ChildProps(p: Props, i: nat): (c: Props)
    requires p.value.IsContainer() && i < p.value.KeyCount()
    ensures c.depth == p.depth + 1
    ensures c.isLast <==> i == p.value.KeyCount() - 1
    ensures p.value.JArr? ==> c == Props("", p.value.items[i], c.isLast, c.depth, p.path + IndexSegment(i))
    ensures p.value.JObj? ==>
      var (k, v) := p.value.members[i];
      c == Props(k, v, c.isLast, c.depth, p.path + KeySegment(k))
  {
    var n := p.value.KeyCount();
    match p.value
    case JArr(items) => Props("", items[i], i == n - 1, p.depth + 1, p.path + IndexSegment(i))
    case JObj(ms) => Props(ms[i].0, ms[i].1, i == n - 1, p.depth + 1, p.path + KeySegment(ms[i].0))
  }

  /** `keys.slice(0, visibleCount)`, each key turned into its child's properties. */
  function VisibleChildren(p: Props, visibleCount: nat): (r: seq<Props>)
    requires p.value.IsContainer()
    ensures |r| == Min(visibleCount, p.value.KeyCount())
    ensures forall i :: 0 <= i < |r| ==> r[i] == ChildProps(p, i)
  {
    seq(Min(visibleCount, p.value.KeyCount()), i requires 0 <= i < Min(visibleCount, p.value.KeyCount()) => ChildProps(p, i))
  }

  /**
   * Commas follow the full key list, not the page: some visible child is marked last
   * exactly when the whole container fits in the page, and then it is the final one.
   */
  lemma LastChildMarking(p: Props, visibleCount: nat)
    requires p.value.IsContainer()
    ensures var r := VisibleChildren(p, visibleCount);
      && ((exists i :: 0 <= i < |r| && r[i].isLast) <==> 0 < p.value.KeyCount() <= visibleCount)
      && (forall i :: 0 <= i < |r| && r[i].isLast ==> i == |r| - 1)
  {
    var r := VisibleChildren(p, visibleCount);
    var n := p.value.KeyCount();
    if 0 < n <= visibleCount {
      assert r[n - 1].isLast;
    }
  }

  /** Showing more never hides or changes a child that was already visible. */
  lemma {:induction false} VisibleChildrenGrow(p: Props, a: nat, b: nat)
    requires p.value.IsContainer() && a <= b
    ensures VisibleChildren(p, a) <= VisibleChildren(p, b)
  {
    var ra, rb := VisibleChildren(p, a), VisibleChildren(p, b);
    assert |ra| <= |rb|;
    assert forall i :: 0 <= i < |ra| ==> ra[i] == rb[i];
  }

  /** The "show more" button: how many the next click reveals and how many are hidden. */
  datatype MoreButton = MoreButton(show: nat, remaining: nat)

  /** `hasMore && Show {min(50, n - visibleCount)} more ... ({n - visibleCount} remaining)`. */
  function MoreOffer(n: nat, visibleCount: nat): (r: Option<MoreButton>)
    ensures r.Some? <==> n > visibleCount
    ensures r.Some? ==> 0 < r.value.show <= PageSize && r.value.show <= r.value.remaining
    ensures r.Some? ==> visibleCount + r.value.remaining == n
    ensures r.Some? ==> Min(visibleCount + PageSize, n) == visibleCount + r.value.show
  {
    if n > visibleCount then Some(MoreButton(Min(PageSize, n - visibleCount), n - visibleCount)) else None
  }

  // ---------------------------------------------------------------------------
  // The rendered node

  datatype Label = NoLabel | KeyLabel(text: string) | Bullet
  datatype Chevron = NoChevron | ChevronDown | ChevronRight

  /** What one node shows: its label, its text or preview, the children it renders, its comma. */
  datatype NodeView =
    | ScalarView(lead: Label, text: string, comma: bool)
    | ContainerView(lead: Label, chevron: Chevron, isArray: bool, preview: Option<string>,
                    children: seq<Props>, more: Option<MoreButton>, comma: bool)

  /** The node component's output for given properties and state. */
  function Render(p: Props, expanded: bool, visibleCount: nat): (view: NodeView)
    ensures view.ScalarView? <==> !p.value.IsContainer()
    ensures view.comma == !p.isLast
  {
    if !p.value.IsContainer() then
      ScalarView(if p.name != "" then KeyLabel(p.name) else if p.path != "" then Bullet else NoLabel,
                 RenderScalar(p.value), !p.isLast)
    else
      var n := p.value.KeyCount();
      var isEmpty := n == 0;
      ContainerView(if p.name != "" then KeyLabel(p.name) else NoLabel,
                    if isEmpty then NoChevron else if expanded then ChevronDown else ChevronRight,
                    p.value.JArr?,
                    if expanded then None else Some(Preview(p.value)),
                    if expanded && !isEmpty then VisibleChildren(p, visibleCount) else [],
                    if expanded && !isEmpty then MoreOffer(n, visibleCount) else None,
                    !p.isLast)
  }

  /**
   * How a node renders: scalars and containers are told apart by type alone; the comma
   * follows `isLast`; a scalar is labelled by its key, else by a bullet when it has a
   * path, and a container by its key; an empty container has no chevron and no children,
   * any other one points down when expanded and right when collapsed; a collapsed one
   * shows its preview and no children; an expanded non-empty one shows the first
   * `min(visibleCount, n)` children and the "show more" offer for the hidden rest.
   */
  lemma RenderContract(p: Props, expanded: bool, visibleCount: nat)
    ensures var view := Render(p, expanded, visibleCount);
      && (view.ScalarView? <==> !p.value.IsContainer())
      && view.comma == !p.isLast
      && (view.ScalarView? ==>
            && view.text == RenderScalar(p.value)
            && (view.lead == NoLabel <==> p.name == "" && p.path == "")
            && view.lead == (if p.name != "" then KeyLabel(p.name) else if p.path != "" then Bullet else NoLabel))
      && (view.ContainerView? ==>
            && (view.lead == NoLabel <==> p.name == "")
            && view.lead == (if p.name != "" then KeyLabel(p.name) else NoLabel)
            && view.isArray == p.value.JArr?
            && (view.chevron == NoChevron <==> p.value.KeyCount() == 0)
            && (p.value.KeyCount() > 0 ==> view.chevron == (if expanded then ChevronDown else ChevronRight))
            && (view.preview.Some? <==> !expanded)
            && (!expanded ==> view.preview == Some(Preview(p.value)) && view.children == [])
            && (p.value.KeyCount() == 0 ==> view.children == [] && view.more.None?)
            && (expanded && p.value.KeyCount() > 0 ==>
                  && |view.children| == Min(visibleCount, p.value.KeyCount())
                  && (forall i :: 0 <= i < |view.children| ==> view.children[i] == ChildProps(p, i))
                  && view.more == MoreOffer(p.value.KeyCount(), visibleCount)
                  && (view.more.Some? <==> p.value.KeyCount() > visibleCount)))
  {
  }

  // ---------------------------------------------------------------------------
  // Copying a path

  /**
   * `path || (name ? ["name"] : '')`: the text the key click copies. A node with no path
   * copies its own key as an object segment, and one with neither copies nothing.
   */
  function CopyTarget(name: string, path: string): (r: string)
    ensures r == "" <==> name == "" && path == ""
    ensures path != "" ==> r == path
    ensures path == "" && name != "" ==> r == KeySegment(name)
  {
    if path != "" then path else if name != "" then KeySegment(name) else ""
  }

  // ---------------------------------------------------------------------------
  // Per-node state

  /** The state one node component keeps between clicks. */
  class NodeState {
    var expanded: bool
    var visibleCount: nat
    var justCopied: bool

    /** A node starts expanded only at depth 0, with one page of children and no acknowledgement. */
    constructor (depth: nat)
      ensures expanded == (depth == 0) && visibleCount == PageSize && !justCopied
    {
      expanded := depth == 0;
      visibleCount := PageSize;
      justCopied := false;
    }

    /** `toggle`: flips `expanded` and nothing else. */
    method Toggle()
      modifies this`expanded
      ensures expanded == !old(expanded)
    {
      expanded := !expanded;
    }

    /** `showMore`: one more page, with no cap at the number of children. */
    method ShowMore()
      modifies this`visibleCount
      ensures visibleCount == old(visibleCount) + PageSize
    {
      visibleCount := visibleCount + PageSize;
    }

    /**
     * `handleCopyPath`: returns what is written to the clipboard, if anything, and
     * raises the acknowledgement only when something was copied.
     */
    method CopyPath(name: string, path: string) returns (copied: Option<string>)
      modifies this`justCopied
      ensures copied == if CopyTarget(name, path) == "" then None else Some(CopyTarget(name, path))
      ensures justCopied == (copied.Some? || old(justCopied))
    {
      var target := CopyTarget(name, path);
      if target == "" {
        copied := None;
        return;
      }
      copied := Some(target);
      justCopied := true;
    }

    /** The timer that ends the copy acknowledgement. */
    method CopyAcknowledged()
      modifies this`justCopied
      ensures !justCopied
    {
      justCopied := false;
    }
  }
}
