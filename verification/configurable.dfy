/** `CodeCollectorConfigurable`: the settings page's list of ignore patterns. The
    checkbox tree is modelled as the root's children in order, each a node holding
    its pattern object and its own checked flag; the dialogs' answers and the current
    selection become parameters. */
module Configurable {
  import opened Wrappers
  import opened Text

  /** `IgnorePattern`: the pattern text and its enabled flag. */
  datatype IgnorePattern = IgnorePattern(pattern: string, enabled: bool)

  /** A `CheckedTreeNode` under the root: its user object and whether it is checked. */
  datatype Node = Node(item: IgnorePattern, checked: bool)

  /** The root's children, in order. */
  type Tree = seq<Node>

  /** `getCurrentPatterns`: each node's text with the node's checked state as its
      enabled flag (the pattern object's own flag is ignored). */
  function CurrentPatterns(tree: Tree): (patterns: seq<IgnorePattern>)
    ensures |patterns| == |tree|
    ensures forall i :: 0 <= i < |tree| ==>
      patterns[i].pattern == tree[i].item.pattern && patterns[i].enabled == tree[i].checked
  {
    if |tree| == 0 then []
    else [IgnorePattern(tree[0].item.pattern, tree[0].checked)] + CurrentPatterns(tree[1..])
  }

  /** `rebuildTree`, and the rebuild `reset` performs: one node per pattern, checked
      exactly when the pattern is enabled. */
  function RebuildTree(patterns: seq<IgnorePattern>): (tree: Tree)
    ensures |tree| == |patterns|
    ensures forall i :: 0 <= i < |patterns| ==> tree[i] == Node(patterns[i], patterns[i].enabled)
  {
    if |patterns| == 0 then []
    else [Node(patterns[0], patterns[0].enabled)] + RebuildTree(patterns[1..])
  }

  /** `reset`: the tree is rebuilt from the stored patterns (copies of them). */
  function Reset(stored: seq<IgnorePattern>): (tree: Tree)
    ensures |tree| == |stored|
  {
    RebuildTree(stored)
  }

  /** `apply`: the stored list becomes the current patterns. */
  function Apply(tree: Tree): (stored: seq<IgnorePattern>)
    ensures |stored| == |tree|
  {
    CurrentPatterns(tree)
  }

  /** `isModified`: the current patterns differ from the stored ones. */
  predicate IsModified(tree: Tree, stored: seq<IgnorePattern>) {
    CurrentPatterns(tree) != stored
  }

  /** After `reset`, the page shows exactly the stored patterns. */
  lemma ResetRoundTrip(stored: seq<IgnorePattern>)
    ensures CurrentPatterns(Reset(stored)) == stored
    ensures !IsModified(Reset(stored), stored)
  {
    var shown := CurrentPatterns(Reset(stored));
    assert forall i :: 0 <= i < |stored| ==> shown[i] == stored[i];
  }

  /** After `apply`, the page is not modified, and resetting from what was applied
      shows the same patterns again. */
  lemma ApplyRoundTrip(tree: Tree)
    ensures !IsModified(tree, Apply(tree))
    ensures CurrentPatterns(Reset(Apply(tree))) == CurrentPatterns(tree)
  {
    ResetRoundTrip(Apply(tree));
  }

  /** `addPattern`: a cancelled (`None`) or blank answer changes nothing; otherwise a
      checked node holding the trimmed text, enabled, is appended. */
  function AddPattern(tree: Tree, answer: Option<string>): (r: Tree)
    ensures answer.None? || IsBlank(answer.value) ==> r == tree
    ensures answer.Some? && !IsBlank(answer.value) ==>
      r == tree + [Node(IgnorePattern(Trim(answer.value), true), true)]
  {
    match answer
    case Some(text) =>
      if !IsBlank(text) then tree + [Node(IgnorePattern(Trim(text), true), true)] else tree
    case None => tree
  }

  /** What a non-blank addition shows: the earlier patterns unchanged, then the new
      one, whose text is non-blank, free of surrounding whitespace, and enabled. */
  lemma AddPatternShows(tree: Tree, text: string)
    requires !IsBlank(text)
    ensures var shown := CurrentPatterns(AddPattern(tree, Some(text)));
      && shown[..|tree|] == CurrentPatterns(tree)
      && |shown| == |tree| + 1
      && shown[|tree|] == IgnorePattern(Trim(text), true)
      && !IsBlank(shown[|tree|].pattern)
      && Trim(shown[|tree|].pattern) == shown[|tree|].pattern
  {
    TrimBlank(text);
    TrimIdempotent(text);
    var shown := CurrentPatterns(AddPattern(tree, Some(text)));
    assert forall i :: 0 <= i < |tree| ==> shown[i] == CurrentPatterns(tree)[i];
  }

  /** The node at `i` with its pattern object's text replaced, flags kept. */
  function Rename(tree: Tree, i: nat, text: string): (r: Tree)
    requires i < |tree|
    ensures |r| == |tree|
    ensures r[i].item == tree[i].item.(pattern := text) && r[i].checked == tree[i].checked
    ensures forall k :: 0 <= k < |tree| && k != i ==> r[k] == tree[k]
  {
    tree[i := tree[i].(item := tree[i].item.(pattern := text))]
  }

  /** A rename shows up as a text change in that row only. */
  lemma RenameShows(tree: Tree, i: nat, text: string)
    requires i < |tree|
    ensures CurrentPatterns(Rename(tree, i, text)) == CurrentPatterns(tree)[i := CurrentPatterns(tree)[i].(pattern := text)]
  {
    var shown := CurrentPatterns(Rename(tree, i, text));
    var expected := CurrentPatterns(tree)[i := CurrentPatterns(tree)[i].(pattern := text)];
    forall k | 0 <= k < |tree|
      ensures shown[k] == expected[k]
    {
      RenameShowsAt(tree, i, text, k);
    }
  }

  /** One row of `RenameShows`. */
  lemma RenameShowsAt(tree: Tree, i: nat, text: string, k: nat)
    requires i < |tree| && k < |tree|
    ensures CurrentPatterns(Rename(tree, i, text))[k] ==
      CurrentPatterns(tree)[i := CurrentPatterns(tree)[i].(pattern := text)][k]
  {
    var renamed := Rename(tree, i, text);
    if k == i {
      assert CurrentPatterns(renamed)[k] == IgnorePattern(text, tree[i].checked);
    } else {
      assert renamed[k] == tree[k];
    }
  }

  /** `editPattern` for the selected node (`None`: nothing selected, or the selection
      is not a pattern node). A cancelled or blank answer changes nothing; otherwise
      only the selected node's text changes, to the trimmed answer, and its flags are
      kept. */
  function EditPattern(tree: Tree, selected: Option<nat>, answer: Option<string>): (r: Tree)
    requires selected.Some? ==> selected.value < |tree|
    ensures |r| == |tree|
    ensures selected.None? || answer.None? || IsBlank(answer.value) ==> r == tree
    ensures selected.Some? && answer.Some? && !IsBlank(answer.value) ==>
      && r[selected.value].item == tree[selected.value].item.(pattern := Trim(answer.value))
      && r[selected.value].checked == tree[selected.value].checked
      && forall i :: 0 <= i < |tree| && i != selected.value ==> r[i] == tree[i]
  {
    match (selected, answer)
    case (Some(i), Some(text)) => if !IsBlank(text) then Rename(tree, i, Trim(text)) else tree
    case _ => tree
  }

  /** A non-blank edit shows up as a text change in the selected row only, and the
      new text is non-blank and trimmed. */
  lemma EditPatternShows(tree: Tree, i: nat, text: string)
    requires i < |tree| && !IsBlank(text)
    ensures var shown := CurrentPatterns(EditPattern(tree, Some(i), Some(text)));
      && shown == CurrentPatterns(tree)[i := CurrentPatterns(tree)[i].(pattern := Trim(text))]
      && !IsBlank(shown[i].pattern) && Trim(shown[i].pattern) == shown[i].pattern
  {
    RenameShows(tree, i, Trim(text));
    TrimBlank(text);
    TrimIdempotent(text);
  }

  /** `removePattern`: the selected pattern node, if any, is removed. */
  function RemovePattern(tree: Tree, selected: Option<nat>): (r: Tree)
    requires selected.Some? ==> selected.value < |tree|
    ensures selected.None? ==> r == tree
    ensures selected.Some? ==> |r| == |tree| - 1 && r == tree[..selected.value] + tree[selected.value + 1..]
  {
    match selected
    case Some(i) => RemoveAt(tree, i)
    case None => tree
  }

  /** `MutableList.removeAt` on nodes. */
  function RemoveAt(tree: Tree, i: nat): (r: Tree)
    requires i < |tree|
    ensures |r| == |tree| - 1
    ensures forall k :: 0 <= k < i ==> r[k] == tree[k]
    ensures forall k :: i <= k < |r| ==> r[k] == tree[k + 1]
  {
    tree[..i] + tree[i + 1..]
  }

  /** `MutableList.removeAt` on patterns. */
  function RemovePatternAt(s: seq<IgnorePattern>, i: nat): (r: seq<IgnorePattern>)
    requires i < |s|
    ensures |r| == |s| - 1
    ensures forall k :: 0 <= k < i ==> r[k] == s[k]
    ensures forall k :: i <= k < |r| ==> r[k] == s[k + 1]
    ensures multiset(r) + multiset{s[i]} == multiset(s)
  {
    assert s == s[..i] + [s[i]] + s[i + 1..];
    s[..i] + s[i + 1..]
  }

  /** `MutableList.add(index, element)`. */
  function InsertPatternAt(s: seq<IgnorePattern>, i: nat, x: IgnorePattern): (r: seq<IgnorePattern>)
    requires i <= |s|
    ensures |r| == |s| + 1
    ensures r[i] == x
    ensures forall k :: 0 <= k < i ==> r[k] == s[k]
    ensures forall k :: i < k < |r| ==> r[k] == s[k - 1]
    ensures multiset(r) == multiset(s) + multiset{x}
  {
    assert s == s[..i] + s[i..];
    s[..i] + [x] + s[i..]
  }

  /** `coerceIn(lo, hi)` for `lo <= hi`. */
  function Clamp(x: int, lo: int, hi: int): (r: int)
    requires lo <= hi
    ensures lo <= r <= hi
    ensures lo <= x <= hi ==> r == x
    ensures x < lo ==> r == lo
    ensures x > hi ==> r == hi
  {
    if x < lo then lo else if x > hi then hi else x
  }

  /** The index the dragged entry ends up at, for a move that goes ahead. */
  function Landing(n: nat, source: nat, target: int): (landing: nat)
    requires source < n
    ensures landing < n
  {
    Clamp(if source < target then target - 1 else target, 0, n - 1)
  }

  /** `after` is `before` with the entry at `source` taken out and put back at
      `landing`, everything else in its old order. */
  predicate IsMove(before: seq<IgnorePattern>, after: seq<IgnorePattern>, source: nat, landing: nat) {
    && |after| == |before|
    && source < |before| && landing < |after|
    && after[landing] == before[source]
    && RemovePatternAt(after, landing) == RemovePatternAt(before, source)
  }

  /** Take out the entry at `source` and put it back at `landing`. */
  function Move(s: seq<IgnorePattern>, source: nat, landing: nat): (r: seq<IgnorePattern>)
    requires source < |s| && landing < |s|
    ensures IsMove(s, r, source, landing)
    ensures multiset(r) == multiset(s)
  {
    var rest := RemovePatternAt(s, source);
    var r := InsertPatternAt(rest, landing, s[source]);
    assert RemovePatternAt(r, landing) == rest;
    r
  }

  /** The drop's target index: the child index, or the end of the list for -1. */
  function Target(n: nat, dropIndex: int): (target: int)
    ensures dropIndex == -1 ==> target == n
    ensures dropIndex != -1 ==> target == dropIndex
  {
    if dropIndex == -1 then n else dropIndex
  }

  /** `importData` of the drag-and-drop handler, once its flavour and drop location
      are accepted: the dragged node's index `source` and the drop's child index
      `dropIndex` (-1 meaning the end). Dropping an entry just before or just after
      itself is refused; a `source` outside the list makes `removeAt` throw, which is
      caught and refused. Otherwise the entry is moved and the tree rebuilt from the
      current patterns. Returns whether the drop was accepted and the new tree. */
  function ImportData(tree: Tree, source: int, dropIndex: int): (r: (bool, Tree))
    ensures r.0 <==> 0 <= source < |tree| && source != Target(|tree|, dropIndex) && source + 1 != Target(|tree|, dropIndex)
    ensures !r.0 ==> r.1 == tree
    ensures r.0 ==> IsMove(CurrentPatterns(tree), CurrentPatterns(r.1), source, Landing(|tree|, source, Target(|tree|, dropIndex)))
    ensures r.0 ==> multiset(CurrentPatterns(r.1)) == multiset(CurrentPatterns(tree))
    ensures r.0 ==> forall i :: 0 <= i < |r.1| ==> r.1[i].checked == r.1[i].item.enabled
  {
    var target := Target(|tree|, dropIndex);
    if source == target || source + 1 == target then
      (false, tree)
    else if !(0 <= source < |tree|) then
      (false, tree)
    else
      var moved := Move(CurrentPatterns(tree), source, Landing(|tree|, source, target));
      ResetRoundTrip(moved);
      (true, RebuildTree(moved))
  }

  /** Moving an entry back from where it landed restores the list. */
  lemma MoveBack(s: seq<IgnorePattern>, source: nat, landing: nat)
    requires source < |s| && landing < |s|
    ensures Move(Move(s, source, landing), landing, source) == s
  {
    var m := Move(s, source, landing);
    var back := Move(m, landing, source);
    assert RemovePatternAt(back, source) == RemovePatternAt(s, source);
    assert back[source] == s[source];
    forall k | 0 <= k < |s|
      ensures back[k] == s[k]
    {
      if k < source {
        assert back[k] == RemovePatternAt(back, source)[k];
      } else if k > source {
        assert back[k] == RemovePatternAt(back, source)[k - 1];
      }
    }
  }

  /** A drop of an entry inside the list, not just before or just after itself, is
      accepted and shows the current patterns with the dragged entry moved. */
  lemma ImportDataMoves(tree: Tree, source: int, dropIndex: int)
    requires 0 <= source < |tree|
    requires source != Target(|tree|, dropIndex) && source + 1 != Target(|tree|, dropIndex)
    ensures ImportData(tree, source, dropIndex).0
    ensures |ImportData(tree, source, dropIndex).1| == |tree|
    ensures CurrentPatterns(ImportData(tree, source, dropIndex).1) ==
      Move(CurrentPatterns(tree), source, Landing(|tree|, source, Target(|tree|, dropIndex)))
  {
    var moved := Move(CurrentPatterns(tree), source, Landing(|tree|, source, Target(|tree|, dropIndex)));
    ResetRoundTrip(moved);
  }

  /** A drop that went ahead and moved its entry can be undone by a second drop: at
      the entry's old index when it moved down, just after it when it moved up. */
  lemma ImportDataUndo(tree: Tree, source: int, dropIndex: int)
    requires ImportData(tree, source, dropIndex).0
    requires Landing(|tree|, source, Target(|tree|, dropIndex)) != source
    ensures var landing := Landing(|tree|, source, Target(|tree|, dropIndex));
      var undo := if landing > source then source else source + 1;
      var again := ImportData(ImportData(tree, source, dropIndex).1, landing, undo);
      again.0 && CurrentPatterns(again.1) == CurrentPatterns(tree)
  {
    ImportDataMoves(tree, source, dropIndex);
    var landing := Landing(|tree|, source, Target(|tree|, dropIndex));
    var patterns := CurrentPatterns(tree);
    var t1 := ImportData(tree, source, dropIndex).1;
    var undo := if landing > source then source else source + 1;
    UndoLands(|tree|, source, landing);
    ImportDataMoves(t1, landing, undo);
    MoveBack(patterns, source, landing);
  }

  /** The index arithmetic of undoing a move: the second drop is accepted and lands
      the entry back at `source`. */
  lemma UndoLands(n: nat, source: nat, landing: nat)
    requires source < n && landing < n && landing != source
    ensures var undo := if landing > source then source else source + 1;
      && Target(n, undo) == undo
      && landing != undo && landing + 1 != undo
      && Landing(n, landing, undo) == source
  {
  }
}
