/**
 * The tree panel's entry decisions: an empty state for blank text, a placeholder for
 * text that is invalid or parses to `null`, and otherwise a root node together with a
 * size-based initial depth.
 */
module JsonTree {
  import opened Wrappers
  import opened Text
  import opened JsonValues
  import opened JsonNode
  import opened NodePaths

  datatype TreeView =
    | EmptyState
    | InvalidPlaceholder
    | TreeRoot(root: Props, initialDepth: nat)

  /** The root node: no name, the last of its siblings, at depth 0 with the empty path. */
  function RootProps(v: JsonValue): (p: Props)
    ensures p.value == v && p.isLast && p.depth == 0
    ensures CopyTarget(p.name, p.path) == ""
  {
    Props("", v, true, 0, "")
  }

  /** Expansion depth chosen from the length of the raw text in UTF-16 code units. */
  function InitialDepth(size: nat): (d: nat)
    ensures d <= 3
    ensures size < 10000 ==> d == 3
    ensures 10000 <= size < 50000 ==> d == 1
    ensures size >= 50000 ==> d == 0
  {
    if size < 10000 then 3 else if size < 50000 then 1 else 0
  }

  /** A larger document never gets a deeper initial expansion. */
  lemma InitialDepthMonotone(a: nat, b: nat)
    requires a <= b
    ensures InitialDepth(b) <= InitialDepth(a)
  {
  }

  /** What the tree panel shows for the store's `rawText`, `isValid` and `parsedData`. */
  function View(rawText: string, isValid: bool, parsedData: JsonValue): (r: TreeView)
    ensures r.EmptyState? <==> AllWhitespace(rawText)
    ensures r.InvalidPlaceholder? <==> !AllWhitespace(rawText) && (!isValid || parsedData == JNull)
    ensures r.TreeRoot? ==> r.root == RootProps(parsedData) && !r.root.value.JNull?
    ensures r.TreeRoot? ==> r.initialDepth == InitialDepth(Utf16Length(rawText))
  {
    if rawText == "" || Trim(rawText) == "" then EmptyState
    else if !isValid || parsedData == JNull then InvalidPlaceholder
    else TreeRoot(RootProps(parsedData), InitialDepth(Utf16Length(rawText)))
  }

  /**
   * The root renders without a trailing comma and copies nothing, and every node a walk
   * reaches below it carries exactly the path of the steps taken, at their depth; its
   * key click copies that path.
   */
  lemma RootAndDescendants(v: JsonValue, expanded: bool, visibleCount: nat, steps: seq<Step>)
    ensures !Render(RootProps(v), expanded, visibleCount).comma
    ensures CopyTarget(RootProps(v).name, RootProps(v).path) == ""
    ensures Walk(RootProps(v), steps).Some? ==>
      var c := Walk(RootProps(v), steps).value;
      && c.path == PathOf(steps)
      && c.depth == |steps|
      && (steps != [] ==> CopyTarget(c.name, c.path) == PathOf(steps))
  {
    if Walk(RootProps(v), steps).Some? {
      WalkPath(RootProps(v), steps);
      if steps != [] {
        assert |Segment(steps[0])| > 0;
      }
    }
  }
}
