/**
 * The diff editor: the two pane buffers (the read-only original on the left, the
 * editable modified text on the right), the toolbar actions that rewrite them, and the
 * choice of the change to jump to. The merge view, its chunk computation and the
 * clipboard are outside the model: chunks, the cursor, clipboard reads and the answer
 * to the confirmation prompt are inputs.
 */
module DiffEditor {
  import opened Wrappers
  import opened Seqs
  import JsonStore

  /** The toast an action raises. */
  datatype Notice = Done(message: string) | Info(message: string) | Problem(message: string)

  /** `formatAndSortJSON` reaches a fixed point after one application. */
  ghost predicate Idempotent(sort: string -> string)
  {
    forall s :: sort(sort(s)) == sort(s)
  }

  class DiffPanes {
    var left: string
    var right: string

    constructor (left: string, right: string)
      ensures this.left == left && this.right == right
    {
      this.left, this.right := left, right;
    }

    /** `handleSwap`. */
    method Swap() returns (n: Notice)
      modifies this
      ensures left == old(right) && right == old(left)
      ensures n == Done("Swapped panes")
    {
      left, right := right, left;
      n := Done("Swapped panes");
    }

    /** `handleCopyLeft`: the modified pane becomes a copy of the original. */
    method CopyLeft() returns (n: Notice)
      modifies this`right
      ensures right == left
      ensures n == Done("Copied Original to Modified")
    {
      right := left;
      n := Done("Copied Original to Modified");
    }

    /** The clear button of the modified pane. */
    method ClearRight()
      modifies this`right
      ensures right == ""
    {
      right := "";
    }

    /** An edit in the modified pane, reported by its update listener. */
    method EditRight(text: string)
      modifies this`right
      ensures right == text
    {
      right := text;
    }

    /**
     * `handlePasteRight`: `clipboard` is the text read, or `None` when reading failed.
     * An empty clipboard changes nothing and raises no toast.
     */
    method PasteRight(clipboard: Option<string>) returns (n: Option<Notice>)
      modifies this`right
      ensures clipboard.None? ==> right == old(right) && n == Some(Problem("Could not read clipboard"))
      ensures clipboard == Some("") ==> right == old(right) && n == None
      ensures clipboard.Some? && clipboard.value != "" ==>
        right == clipboard.value && n == Some(Done("Pasted to Modified pane"))
    {
      match clipboard
      case None =>
        n := Some(Problem("Could not read clipboard"));
      case Some(text) =>
        if text != "" {
          right := text;
          n := Some(Done("Pasted to Modified pane"));
        } else {
          n := None;
        }
    }

    /** `handleApply`: after confirmation the modified text becomes the store's text. */
    method Apply(confirmed: bool, store: JsonStore.Store) returns (n: Option<Notice>)
      modifies store`rawText, store`parsedData, store`error, store`isValid
      ensures confirmed ==> store.rawText == right && store.Synced()
      ensures confirmed ==> n == Some(Done("Changes applied to main file"))
      ensures !confirmed ==>
        store.rawText == old(store.rawText) && store.parsedData == old(store.parsedData) &&
        store.error == old(store.error) && store.isValid == old(store.isValid) && n == None
    {
      if confirmed {
        store.SetText(right);
        n := Some(Done("Changes applied to main file"));
      } else {
        n := None;
      }
    }

    /**
     * `handleSmartSort`: both panes end as `sort` of their text, and `changed` says
     * whether either differed. The panes are rewritten only in that case, which leaves
     * the same contents.
     */
    method SmartSort(sort: string -> string) returns (changed: bool, n: Notice)
      modifies this
      ensures left == sort(old(left)) && right == sort(old(right))
      ensures changed <==> sort(old(left)) != old(left) || sort(old(right)) != old(right)
      ensures !changed ==> left == old(left) && right == old(right)
      ensures n == if changed then Done("Keys sorted & formatted") else Info("Already sorted")
      ensures Idempotent(sort) ==> sort(left) == left && sort(right) == right
    {
      var sortedLeft, sortedRight := sort(left), sort(right);
      changed := sortedLeft != left || sortedRight != right;
      if changed {
        left, right := sortedLeft, sortedRight;
        n := Done("Keys sorted & formatted");
      } else {
        n := Info("Already sorted");
      }
    }
  }

  /** Sorting twice with an idempotent sorter: the second press reports nothing to do. */
  method SmartSortTwice(panes: DiffPanes, sort: string -> string) returns (first: bool, second: bool)
    requires Idempotent(sort)
    modifies panes
    ensures panes.left == sort(old(panes.left)) && panes.right == sort(old(panes.right))
    ensures !second
  {
    var n;
    first, n := panes.SmartSort(sort);
    second, n := panes.SmartSort(sort);
  }

  /** Swapping twice restores both panes. */
  method SwapTwice(panes: DiffPanes)
    modifies panes
    ensures panes.left == old(panes.left) && panes.right == old(panes.right)
  {
    var n := panes.Swap();
    n := panes.Swap();
  }

  // ---------------------------------------------------------------------------
  // Jumping between changes

  /** A changed region of the merge view: where it starts in each pane. */
  datatype Chunk = Chunk(fromA: nat, fromB: nat)

  datatype Direction = Next | Prev

  /** The outcome of a jump: the chunk to scroll both panes to, or why there is none. */
  datatype Jump = NotMounted | NoDifferences | JumpTo(target: Chunk)

  /** The chunks arrive in document order. */
  predicate Ascending(chunks: seq<Chunk>)
  {
    forall i, j :: 0 <= i < j < |chunks| ==> chunks[i].fromA <= chunks[j].fromA
  }

  /** `chunks.find(c => c.fromA > cursor)`, wrapping to the first chunk. */
  function NextIndex(chunks: seq<Chunk>, cursor: nat): (i: nat)
    requires chunks != []
    ensures i < |chunks|
    ensures chunks[i].fromA > cursor ==> forall j :: 0 <= j < i ==> chunks[j].fromA <= cursor
    ensures chunks[i].fromA <= cursor ==> i == 0 && forall j :: 0 <= j < |chunks| ==> chunks[j].fromA <= cursor
  {
    match FindIndex(chunks, (c: Chunk) => c.fromA > cursor)
    case Some(k) => k
    case None => 0
  }

  /** `[...chunks].reverse().find(c => c.fromA < cursor)`, wrapping to the last chunk. */
  function PrevIndex(chunks: seq<Chunk>, cursor: nat): (i: nat)
    requires chunks != []
    ensures i < |chunks|
    ensures chunks[i].fromA < cursor ==> forall j :: i < j < |chunks| ==> chunks[j].fromA >= cursor
    ensures chunks[i].fromA >= cursor ==>
      i == |chunks| - 1 && forall j :: 0 <= j < |chunks| ==> chunks[j].fromA >= cursor
  {
    var rev := Reverse(chunks);
    match FindIndex(rev, (c: Chunk) => c.fromA < cursor)
    case Some(k) =>
      assert forall j :: |chunks| - 1 - k < j < |chunks| ==> chunks[j] == rev[|chunks| - 1 - j];
      |chunks| - 1 - k
    case None =>
      assert forall j :: 0 <= j < |chunks| ==> chunks[j] == rev[|chunks| - 1 - j];
      |chunks| - 1
  }

  /** `scrollToChange`: the chunk to move to from the cursor in the original pane. */
  function ScrollToChange(mounted: bool, chunks: seq<Chunk>, cursor: nat, dir: Direction): (r: Jump)
    ensures !mounted <==> r.NotMounted?
    ensures mounted && chunks == [] <==> r.NoDifferences?
    ensures r.JumpTo? ==> r.target in chunks
  {
    if !mounted then NotMounted
    else if chunks == [] then NoDifferences
    else match dir
      case Next => JumpTo(chunks[NextIndex(chunks, cursor)])
      case Prev => JumpTo(chunks[PrevIndex(chunks, cursor)])
  }

  /**
   * With chunks in document order, `Next` goes to the nearest change after the cursor
   * when there is one, and otherwise wraps to the first change.
   */
  lemma NextIsNearestAfter(chunks: seq<Chunk>, cursor: nat)
    requires chunks != [] && Ascending(chunks)
    ensures ScrollToChange(true, chunks, cursor, Next).JumpTo?
    ensures var t := ScrollToChange(true, chunks, cursor, Next).target;
      (exists j :: 0 <= j < |chunks| && chunks[j].fromA > cursor) ==>
        t.fromA > cursor && forall j :: 0 <= j < |chunks| && chunks[j].fromA > cursor ==> t.fromA <= chunks[j].fromA
    ensures (forall j :: 0 <= j < |chunks| ==> chunks[j].fromA <= cursor) ==>
      ScrollToChange(true, chunks, cursor, Next).target == chunks[0]
  {
    var i := NextIndex(chunks, cursor);
    forall j | 0 <= j < |chunks| && chunks[j].fromA > cursor && chunks[i].fromA > cursor
      ensures chunks[i].fromA <= chunks[j].fromA
    {
    }
  }

  /**
   * With chunks in document order, `Prev` goes to the nearest change before the cursor
   * when there is one, and otherwise wraps to the last change.
   */
  lemma PrevIsNearestBefore(chunks: seq<Chunk>, cursor: nat)
    requires chunks != [] && Ascending(chunks)
    ensures ScrollToChange(true, chunks, cursor, Prev).JumpTo?
    ensures var t := ScrollToChange(true, chunks, cursor, Prev).target;
      (exists j :: 0 <= j < |chunks| && chunks[j].fromA < cursor) ==>
        t.fromA < cursor && forall j :: 0 <= j < |chunks| && chunks[j].fromA < cursor ==> chunks[j].fromA <= t.fromA
    ensures (forall j :: 0 <= j < |chunks| ==> chunks[j].fromA >= cursor) ==>
      ScrollToChange(true, chunks, cursor, Prev).target == chunks[|chunks| - 1]
  {
    var i := PrevIndex(chunks, cursor);
    forall j | 0 <= j < |chunks| && chunks[j].fromA < cursor && chunks[i].fromA < cursor
      ensures chunks[j].fromA <= chunks[i].fromA
    {
    }
  }
}
