// Building nested list blocks in place: a stack of list blocks, each of which
// is the last entry of the one below, over mutable content lists.
module ListParser {
  import opened Strings
  import opened ListTree

  // ---- The builder on values ----

  // The list blocks so far, the levels of the stack, and the previous item's list and level.
  datatype Lists = Lists(trees: seq<Tree>, levels: seq<int>, preNumId: int, preLevel: int)

  datatype Op =
    | Add(numId: int, level: int, text: string, ordered: bool)
    | Close

  // How many stack entries survive a move up to `level`.
  function Surviving(levels: seq<int>, level: int): (n: nat)
    requires |levels| > 0
    ensures 1 <= n <= |levels|
  {
    if |levels| > 1 && levels[|levels| - 1] > level then Surviving(levels[..|levels| - 1], level) else |levels|
  }

  // The stack is a part of the rightmost spine of the last tree.
  predicate Ok(s: Lists) {
    && (s.levels != [] ==> s.trees != [] && HasSpine(s.trees[|s.trees| - 1], |s.levels| - 1))
    && (s.preNumId != -1 ==> s.levels != [])
    && forall i :: 0 <= i < |s.trees| ==> NoEmptyList(s.trees[i])
  }

  // Append to the list block at the top of a stack of `n` blocks.
  function AppendTop(s: Lists, n: nat, item: Item): Lists
    requires 0 < n <= |s.levels| && Ok(s)
  {
    var last := |s.trees| - 1;
    SpineShorter(s.trees[last], |s.levels| - 1, n - 1);
    s.(trees := s.trees[last := AppendAt(s.trees[last], n - 1, item)], levels := s.levels[..n])
  }

  function Apply(s: Lists, op: Op): Lists
    requires Ok(s)
  {
    match op
    case Close => s.(levels := [], preNumId := -1, preLevel := -1)
    case Add(numId, level, text, ordered) =>
      var leaf := Text(text);
      if s.preNumId == -1 || s.preNumId != numId then
        Lists(s.trees + [Node(ordered, level, [leaf])], [level], numId, level)
      else if level > s.preLevel then
        var t := AppendTop(s, |s.levels|, Branch(Node(ordered, level, [leaf])));
        t.(levels := s.levels + [level], preLevel := level)
      else if level < s.preLevel then
        AppendTop(s, Surviving(s.levels, level), leaf).(preLevel := level)
      else
        AppendTop(s, |s.levels|, leaf)
  }

  lemma {:induction false} SpineShorter(t: Tree, d: nat, e: nat)
    requires HasSpine(t, d) && e <= d
    ensures HasSpine(t, e)
    decreases e
  {
    if e > 0 {
      SpineShorter(t.content[|t.content| - 1].sub, d - 1, e - 1);
    }
  }

  function Added(op: Op): seq<string> {
    match op case Add(_, _, text, _) => [text] case Close => []
  }

  lemma LeavesOfLast(trees: seq<Tree>, t: Tree)
    requires |trees| > 0
    ensures AllLeaves(trees[|trees| - 1 := t]) == AllLeaves(trees[..|trees| - 1]) + Leaves(t)
  {
    assert trees[|trees| - 1 := t][..|trees| - 1] == trees[..|trees| - 1];
  }

  lemma AppendTopAdds(s: Lists, n: nat, item: Item)
    requires 0 < n <= |s.levels| && Ok(s) && (item.Branch? ==> NoEmptyList(item.sub))
    ensures var t := AppendTop(s, n, item);
      && Ok(t)
      && (item.Branch? ==> HasSpine(t.trees[|t.trees| - 1], n))
      && AllLeaves(t.trees) == AllLeaves(s.trees) + LeavesOfItem(item)
  {
    AppendTopOk(s, n, item);
    AppendTopLeaves(s, n, item);
  }

  lemma AppendTopOk(s: Lists, n: nat, item: Item)
    requires 0 < n <= |s.levels| && Ok(s) && (item.Branch? ==> NoEmptyList(item.sub))
    ensures var t := AppendTop(s, n, item);
      Ok(t) && (item.Branch? ==> HasSpine(t.trees[|t.trees| - 1], n))
  {
    var last := |s.trees| - 1;
    var tree := s.trees[last];
    SpineShorter(tree, |s.levels| - 1, n - 1);
    hide HasSpine, AppendAt, NoEmptyList;
    AppendAtSpine(tree, n - 1, item, n - 1);
    AppendAtSpine(tree, n - 1, item, n);
    AppendAtNotEmpty(tree, n - 1, item);
  }

  lemma AppendTopLeaves(s: Lists, n: nat, item: Item)
    requires 0 < n <= |s.levels| && Ok(s)
    ensures AllLeaves(AppendTop(s, n, item).trees) == AllLeaves(s.trees) + LeavesOfItem(item)
  {
    var last := |s.trees| - 1;
    var tree := s.trees[last];
    SpineShorter(tree, |s.levels| - 1, n - 1);
    AppendAtLeaves(tree, n - 1, item);
    LeavesOfLast(s.trees, tree);
    LeavesOfLast(s.trees, AppendAt(tree, n - 1, item));
    hide HasSpine, AppendAt, Leaves, AllLeaves, NoEmptyList;
    assert s.trees[last := tree] == s.trees;
  }

  // Popping first and appending then is appending further down.
  lemma PopThenAppend(s: Lists, n: nat, item: Item)
    requires 0 < n <= |s.levels| && Ok(s)
    ensures var popped := s.(levels := s.levels[..n]);
      Ok(popped) && AppendTop(popped, n, item) == AppendTop(s, n, item)
  {
    SpineShorter(s.trees[|s.trees| - 1], |s.levels| - 1, n - 1);
    assert s.levels[..n][..n] == s.levels[..n];
  }

  lemma StartedIsOk(s: Lists, node: Tree, numId: int, level: int)
    requires Ok(s) && NoEmptyList(node)
    ensures Ok(Lists(s.trees + [node], [level], numId, level))
  {
  }

  // Every item goes to the end of the reading order and nothing else moves.
  lemma ApplyAdds(s: Lists, op: Op)
    requires Ok(s)
    ensures Ok(Apply(s, op)) && AllLeaves(Apply(s, op).trees) == AllLeaves(s.trees) + Added(op)
  {
    match op
    case Close =>
    case Add(numId, level, text, ordered) =>
      var leaf, node := Text(text), Node(ordered, level, [Text(text)]);
      OneLeaf(node, text);
      hide Leaves, LeavesUpTo, AppendAt, NoEmptyList, AllLeaves, AppendTop;
      if s.preNumId == -1 || s.preNumId != numId {
        StartedIsOk(s, node, numId, level);
        LeavesOfMore(s.trees, node);
      } else if level > s.preLevel {
        AppendTopAdds(s, |s.levels|, Branch(node));
        PushedIsOk(AppendTop(s, |s.levels|, Branch(node)), s.levels + [level], level);
      } else if level < s.preLevel {
        AppendTopAdds(s, Surviving(s.levels, level), leaf);
      } else {
        AppendTopAdds(s, |s.levels|, leaf);
      }
  }

  lemma OneLeaf(node: Tree, text: string)
    requires node.content == [Text(text)]
    ensures Leaves(node) == [text] && NoEmptyList(node)
  {
    assert LeavesUpTo(node, 0) == [];
  }

  lemma LeavesOfMore(trees: seq<Tree>, t: Tree)
    ensures AllLeaves(trees + [t]) == AllLeaves(trees) + Leaves(t)
  {
    assert (trees + [t])[..|trees|] == trees;
  }

  lemma PushedIsOk(s: Lists, levels: seq<int>, level: int)
    requires Ok(s) && levels != [] && s.trees != [] && HasSpine(s.trees[|s.trees| - 1], |levels| - 1)
    ensures Ok(s.(levels := levels, preLevel := level))
  {
  }

  // The stack is the whole rightmost spine of the last tree.
  predicate WholeSpine(s: Lists) {
    s.levels != [] ==> s.trees != [] && SpineLength(s.trees[|s.trees| - 1]) == |s.levels| - 1
  }

  lemma AppendTopSpine(s: Lists, n: nat, item: Item)
    requires 0 < n <= |s.levels| && Ok(s)
    ensures var t := AppendTop(s, n, item);
      SpineLength(t.trees[|t.trees| - 1]) == n - 1 + if item.Branch? then 1 + SpineLength(item.sub) else 0
  {
    var last := |s.trees| - 1;
    SpineShorter(s.trees[last], |s.levels| - 1, n - 1);
    AppendAtSpineLength(s.trees[last], n - 1, item);
  }

  // After every operation the stack is the whole spine: the list on top ends in a text.
  lemma ApplyMakesWholeSpine(s: Lists, op: Op)
    requires Ok(s)
    ensures WholeSpine(Apply(s, op))
    ensures op.Add? ==> Apply(s, op).levels != []
  {
    match op
    case Close =>
    case Add(numId, level, text, ordered) =>
      var leaf, node := Text(text), Node(ordered, level, [Text(text)]);
      assert SpineLength(node) == 0;
      hide Ok;
      if s.preNumId == -1 || s.preNumId != numId {
      } else if level > s.preLevel {
        AppendTopSpine(s, |s.levels|, Branch(node));
      } else if level < s.preLevel {
        AppendTopSpine(s, Surviving(s.levels, level), leaf);
      } else {
        AppendTopSpine(s, |s.levels|, leaf);
      }
  }

  const START := Lists([], [], -1, -1)

  function ApplyAll(ops: seq<Op>): (s: Lists)
    ensures Ok(s)
  {
    if |ops| == 0 then START
    else
      ApplyAdds(ApplyAll(ops[..|ops| - 1]), ops[|ops| - 1]);
      Apply(ApplyAll(ops[..|ops| - 1]), ops[|ops| - 1])
  }

  // The stack is the whole rightmost spine after every sequence of operations.
  lemma WholeSpineAlways(ops: seq<Op>)
    ensures WholeSpine(ApplyAll(ops))
  {
    if |ops| > 0 {
      ApplyMakesWholeSpine(ApplyAll(ops[..|ops| - 1]), ops[|ops| - 1]);
    }
  }

  function AddedAll(ops: seq<Op>): seq<string> {
    if |ops| == 0 then [] else AddedAll(ops[..|ops| - 1]) + Added(ops[|ops| - 1])
  }

  // Whatever the list ids and levels, the leaves of the list blocks are the added
  // items in order, and the printer writes one entry for each of them.
  lemma {:induction false} NothingLostOrReordered(ops: seq<Op>)
    ensures AllLeaves(ApplyAll(ops).trees) == AddedAll(ops)
    ensures forall i :: 0 <= i < |ApplyAll(ops).trees| ==>
      var t := ApplyAll(ops).trees[i];
      Printed(t, 0) == Join(Shown(Entries(t, 0)), "\n") && Texts(Entries(t, 0)) == Leaves(t)
  {
    if |ops| > 0 {
      NothingLostOrReordered(ops[..|ops| - 1]);
      ApplyAdds(ApplyAll(ops[..|ops| - 1]), ops[|ops| - 1]);
    }
    var trees := ApplyAll(ops).trees;
    forall i | 0 <= i < |trees|
      ensures Printed(trees[i], 0) == Join(Shown(Entries(trees[i], 0)), "\n")
      ensures Texts(Entries(trees[i], 0)) == Leaves(trees[i])
    {
      PrintsEveryLeaf(trees[i], 0);
    }
  }

  // ---- The blocks in the heap ----

  datatype Cell = TextCell(text: string) | ListCell(block: ListBlock)

  class ListBlock {
    const ordered: bool
    const ilevel: int
    var content: seq<Cell>
    // The value this block stands for.
    ghost var tree: Tree

    constructor (ordered: bool, ilevel: int, text: string)
      ensures this.ordered == ordered && this.ilevel == ilevel && content == [TextCell(text)]
      ensures tree == Node(ordered, ilevel, [Text(text)])
    {
      this.ordered, this.ilevel, content := ordered, ilevel, [TextCell(text)];
      tree := Node(ordered, ilevel, [Text(text)]);
    }
  }

  // What a set of blocks holds at one moment.
  ghost function Contents(repr: set<ListBlock>): map<ListBlock, seq<Cell>>
    reads repr
  {
    map b | b in repr :: b.content
  }

  ghost function Trees(repr: set<ListBlock>): map<ListBlock, Tree>
    reads repr
  {
    map b | b in repr :: b.tree
  }

  predicate CellAgrees(cell: Cell, item: Item, trees: map<ListBlock, Tree>) {
    match cell
    case TextCell(x) => item == Text(x)
    case ListCell(c) => c in trees && item == Branch(trees[c])
  }

  predicate BlockAgrees(cells: seq<Cell>, tree: Tree, trees: map<ListBlock, Tree>) {
    && |tree.content| == |cells|
    && forall i :: 0 <= i < |cells| ==> CellAgrees(cells[i], tree.content[i], trees)
  }

  // Every block agrees with its value, entry by entry.
  predicate AllAgree(contents: map<ListBlock, seq<Cell>>, trees: map<ListBlock, Tree>) {
    && contents.Keys == trees.Keys
    && (forall b :: b in contents ==> BlockAgrees(contents[b], trees[b], trees))
    && SameKinds(trees)
  }

  predicate SameKinds(trees: map<ListBlock, Tree>) {
    forall b :: b in trees ==> trees[b].ordered == b.ordered
  }

  predicate StackOnTop(blocks: seq<ListBlock>, stack: seq<ListBlock>) {
    && (stack != [] ==> blocks != [] && blocks[|blocks| - 1] == stack[0])
    && (forall i :: 0 <= i < |blocks| - 1 ==> blocks[i] !in stack)
    && Distinct(stack)
  }

  predicate Distinct(stack: seq<ListBlock>) {
    forall j, k :: 0 <= j < k < |stack| ==> stack[j] != stack[k]
  }

  // Each stack block is the last entry of the one below, and of nothing else.
  predicate Spine(contents: map<ListBlock, seq<Cell>>, stack: seq<ListBlock>) {
    && (forall k :: 0 <= k < |stack| ==> stack[k] in contents)
    && (forall k :: 0 < k < |stack| ==> LastIs(contents[stack[k - 1]], stack[k]))
    && (forall b, i :: b in contents && 0 <= i < |contents[b]| ==> OnlyOnSpine(contents[b], i, b, stack))
  }

  predicate LastIs(cells: seq<Cell>, b: ListBlock) {
    |cells| > 0 && cells[|cells| - 1] == ListCell(b)
  }

  predicate OnlyOnSpine(cells: seq<Cell>, i: nat, b: ListBlock, stack: seq<ListBlock>)
    requires i < |cells|
  {
    forall k :: 0 <= k < |stack| && cells[i] == ListCell(stack[k]) ==> k > 0 && b == stack[k - 1] && i == |cells| - 1
  }

  // The values on the stack form a spine.
  lemma {:induction false} StackIsSpine(
    contents: map<ListBlock, seq<Cell>>, trees: map<ListBlock, Tree>, stack: seq<ListBlock>, k: nat)
    requires AllAgree(contents, trees) && Spine(contents, stack) && k < |stack|
    ensures HasSpine(trees[stack[k]], |stack| - 1 - k)
    decreases |stack| - k
  {
    if k < |stack| - 1 {
      StackIsSpine(contents, trees, stack, k + 1);
      assert LastIs(contents[stack[k]], stack[k + 1]);
      assert BlockAgrees(contents[stack[k]], trees[stack[k]], trees);
      var n := |contents[stack[k]]| - 1;
      assert CellAgrees(contents[stack[k]][n], trees[stack[k]].content[n], trees);
    }
  }

  // The blocks from `b` down through the last entries.
  ghost function RightSpine(contents: map<ListBlock, seq<Cell>>, trees: map<ListBlock, Tree>, b: ListBlock): seq<ListBlock>
    requires AllAgree(contents, trees) && b in contents
    decreases trees[b]
  {
    assert BlockAgrees(contents[b], trees[b], trees);
    var n := |contents[b]|;
    if n > 0 && contents[b][n - 1].ListCell? then
      assert CellAgrees(contents[b][n - 1], trees[b].content[n - 1], trees);
      [b] + RightSpine(contents, trees, contents[b][n - 1].block)
    else [b]
  }

  // If the tree's spine is as long as the stack, the stack is the whole spine.
  lemma {:induction false} StackIsRightSpine(
    contents: map<ListBlock, seq<Cell>>, trees: map<ListBlock, Tree>, stack: seq<ListBlock>, k: nat)
    requires AllAgree(contents, trees) && Spine(contents, stack) && k < |stack|
    requires SpineLength(trees[stack[k]]) == |stack| - 1 - k
    ensures RightSpine(contents, trees, stack[k]) == stack[k..]
    decreases |stack| - k
  {
    var b := stack[k];
    assert BlockAgrees(contents[b], trees[b], trees);
    var n := |contents[b]|;
    if n > 0 {
      assert CellAgrees(contents[b][n - 1], trees[b].content[n - 1], trees);
    }
    if k < |stack| - 1 {
      assert LastIs(contents[stack[k]], stack[k + 1]);
      StackIsRightSpine(contents, trees, stack, k + 1);
    }
  }

  predicate Grew(before: Tree, after: Tree, d: nat, item: Item) {
    HasSpine(before, d) && after == AppendAt(before, d, item)
  }

  // One cell was appended to the top of the stack.
  ghost predicate Appended(
    contents: map<ListBlock, seq<Cell>>, contents': map<ListBlock, seq<Cell>>,
    trees: map<ListBlock, Tree>, trees': map<ListBlock, Tree>,
    stack: seq<ListBlock>, cell: Cell, item: Item)
  {
    && contents.Keys == trees.Keys == contents'.Keys == trees'.Keys
    && stack != [] && (forall k :: 0 <= k < |stack| ==> stack[k] in contents)
    && contents' == contents[stack[|stack| - 1] := contents[stack[|stack| - 1]] + [cell]]
    && (forall b :: b in trees && b !in stack ==> trees'[b] == trees[b])
    && (forall k :: 0 <= k < |stack| ==> Grew(trees[stack[k]], trees'[stack[k]], |stack| - 1 - k, item))
    && CellAgrees(cell, item, trees)
    && (forall k :: 0 <= k < |stack| ==> cell != ListCell(stack[k]))
  }

  lemma AppendKeepsCell(
    contents: map<ListBlock, seq<Cell>>, contents': map<ListBlock, seq<Cell>>,
    trees: map<ListBlock, Tree>, trees': map<ListBlock, Tree>,
    stack: seq<ListBlock>, cell: Cell, item: Item, b: ListBlock, i: nat)
    requires Appended(contents, contents', trees, trees', stack, cell, item)
    requires b in contents && i < |contents[b]|
    requires BlockAgrees(contents[b], trees[b], trees) && Spine(contents, stack) && Distinct(stack)
    ensures i < |trees'[b].content| && CellAgrees(contents[b][i], trees'[b].content[i], trees')
  {
    var n := |contents[b]|;
    assert CellAgrees(contents[b][i], trees[b].content[i], trees);
    assert OnlyOnSpine(contents[b], i, b, stack);
    if contents[b][i].ListCell? && contents[b][i].block in stack {
      var j :| 0 <= j < |stack| && stack[j] == contents[b][i].block;
      assert b == stack[j - 1] && i == n - 1;
      assert Grew(trees[b], trees'[b], |stack| - 1 - (j - 1), item);
      assert Grew(trees[stack[j]], trees'[stack[j]], |stack| - 1 - j, item);
    } else if b in stack {
      var k :| 0 <= k < |stack| && stack[k] == b;
      assert Grew(trees[b], trees'[b], |stack| - 1 - k, item);
      if k < |stack| - 1 {
        assert LastIs(contents[stack[k]], stack[k + 1]);
      }
    }
  }

  lemma AppendKeepsBlock(
    contents: map<ListBlock, seq<Cell>>, contents': map<ListBlock, seq<Cell>>,
    trees: map<ListBlock, Tree>, trees': map<ListBlock, Tree>,
    stack: seq<ListBlock>, cell: Cell, item: Item, b: ListBlock)
    requires AllAgree(contents, trees) && Spine(contents, stack) && Distinct(stack)
    requires Appended(contents, contents', trees, trees', stack, cell, item) && b in contents
    ensures BlockAgrees(contents'[b], trees'[b], trees')
  {
    assert BlockAgrees(contents[b], trees[b], trees);
    forall i | 0 <= i < |contents[b]|
      ensures i < |trees'[b].content| && CellAgrees(contents[b][i], trees'[b].content[i], trees')
    {
      AppendKeepsCell(contents, contents', trees, trees', stack, cell, item, b, i);
    }
    hide AllAgree, Spine, CellAgrees;
    if b in stack {
      var k :| 0 <= k < |stack| && stack[k] == b;
      assert Grew(trees[b], trees'[b], |stack| - 1 - k, item);
      NewCellAgrees(cell, item, trees, trees');
    }
  }

  lemma NewCellAgrees(cell: Cell, item: Item, trees: map<ListBlock, Tree>, trees': map<ListBlock, Tree>)
    requires CellAgrees(cell, item, trees)
    requires cell.ListCell? ==> cell.block in trees' && trees'[cell.block] == trees[cell.block]
    ensures CellAgrees(cell, item, trees')
  {
  }

  lemma AppendKeepsAgreement(
    contents: map<ListBlock, seq<Cell>>, contents': map<ListBlock, seq<Cell>>,
    trees: map<ListBlock, Tree>, trees': map<ListBlock, Tree>,
    stack: seq<ListBlock>, cell: Cell, item: Item)
    requires AllAgree(contents, trees) && Spine(contents, stack) && Distinct(stack)
    requires Appended(contents, contents', trees, trees', stack, cell, item)
    ensures AllAgree(contents', trees')
  {
    forall b | b in contents'
      ensures BlockAgrees(contents'[b], trees'[b], trees')
    {
      AppendKeepsBlock(contents, contents', trees, trees', stack, cell, item, b);
    }
    forall b | b in trees'
      ensures trees'[b].ordered == b.ordered
    {
      AppendKeepsKind(contents, contents', trees, trees', stack, cell, item, b);
    }
  }

  lemma AppendKeepsKind(
    contents: map<ListBlock, seq<Cell>>, contents': map<ListBlock, seq<Cell>>,
    trees: map<ListBlock, Tree>, trees': map<ListBlock, Tree>,
    stack: seq<ListBlock>, cell: Cell, item: Item, b: ListBlock)
    requires SameKinds(trees) && b in trees
    requires Appended(contents, contents', trees, trees', stack, cell, item)
    ensures trees'[b].ordered == b.ordered
  {
    if b in stack {
      var k :| 0 <= k < |stack| && stack[k] == b;
      assert Grew(trees[stack[k]], trees'[stack[k]], |stack| - 1 - k, item);
    }
  }

  lemma StackHasSpines(contents: map<ListBlock, seq<Cell>>, trees: map<ListBlock, Tree>, stack: seq<ListBlock>)
    requires AllAgree(contents, trees) && Spine(contents, stack)
    ensures contents.Keys == trees.Keys
    ensures forall k :: 0 <= k < |stack| ==> stack[k] in trees && HasSpine(trees[stack[k]], |stack| - 1 - k)
  {
    forall k | 0 <= k < |stack|
      ensures stack[k] in trees && HasSpine(trees[stack[k]], |stack| - 1 - k)
    {
      StackIsSpine(contents, trees, stack, k);
    }
  }

  lemma WrittenIsAppended(
    contents: map<ListBlock, seq<Cell>>, contents': map<ListBlock, seq<Cell>>,
    trees: map<ListBlock, Tree>, trees': map<ListBlock, Tree>,
    stack: seq<ListBlock>, cell: Cell, item: Item, grown: seq<Tree>)
    requires contents.Keys == trees.Keys && stack != []
    requires CellAgrees(cell, item, trees) && forall k :: 0 <= k < |stack| ==> cell != ListCell(stack[k])
    requires forall k :: 0 <= k < |stack| ==> stack[k] in trees && HasSpine(trees[stack[k]], |stack| - 1 - k)
    requires stack[|stack| - 1] in contents
    requires contents' == contents[stack[|stack| - 1] := contents[stack[|stack| - 1]] + [cell]]
    requires trees'.Keys == trees.Keys && grown == Grown(stack, trees, item)
    requires forall b :: b in trees && b !in stack ==> trees'[b] == trees[b]
    requires forall k :: 0 <= k < |stack| ==> trees'[stack[k]] == grown[k]
    ensures Appended(contents, contents', trees, trees', stack, cell, item)
  {
    hide CellAgrees, HasSpine;
  }

  // Appending a text to the top keeps the spine.
  lemma TextKeepsSpine(
    contents: map<ListBlock, seq<Cell>>, contents': map<ListBlock, seq<Cell>>, stack: seq<ListBlock>, text: string)
    requires Spine(contents, stack) && Distinct(stack) && stack != []
    requires contents' == contents[stack[|stack| - 1] := contents[stack[|stack| - 1]] + [TextCell(text)]]
    ensures Spine(contents', stack)
  {
    forall k | 0 < k < |stack|
      ensures LastIs(contents'[stack[k - 1]], stack[k])
    {
      assert LastIs(contents[stack[k - 1]], stack[k]);
    }
    forall b, i | b in contents' && 0 <= i < |contents'[b]|
      ensures OnlyOnSpine(contents'[b], i, b, stack)
    {
      if i < |contents[b]| {
        assert OnlyOnSpine(contents[b], i, b, stack);
        TopEndsSpine(contents, stack, b, i);
      }
    }
  }

  // The block on top of the stack has no entry that is on the stack.
  lemma TopEndsSpine(contents: map<ListBlock, seq<Cell>>, stack: seq<ListBlock>, b: ListBlock, i: nat)
    requires Spine(contents, stack) && Distinct(stack) && stack != []
    requires b in contents && i < |contents[b]|
    ensures b == stack[|stack| - 1] ==> forall k :: 0 <= k < |stack| ==> contents[b][i] != ListCell(stack[k])
  {
    assert OnlyOnSpine(contents[b], i, b, stack);
    var top := |stack| - 1;
    forall k | 0 <= k < |stack| && b == stack[top]
      ensures contents[b][i] != ListCell(stack[k])
    {
      assert k > 0 ==> stack[k - 1] != stack[top];
    }
  }

  // A new child appended to the top may be pushed.
  lemma ChildKeepsSpine(
    contents: map<ListBlock, seq<Cell>>, contents': map<ListBlock, seq<Cell>>, trees: map<ListBlock, Tree>,
    stack: seq<ListBlock>, child: ListBlock)
    requires Spine(contents, stack) && Distinct(stack) && stack != []
    requires child in contents && child !in stack && NowhereIn(contents, child)
    requires forall i :: 0 <= i < |contents[child]| ==> contents[child][i].TextCell?
    requires contents' == contents[stack[|stack| - 1] := contents[stack[|stack| - 1]] + [ListCell(child)]]
    ensures Spine(contents', stack + [child])
  {
    var more := stack + [child];
    forall k | 0 < k < |more|
      ensures LastIs(contents'[more[k - 1]], more[k])
    {
      if k < |stack| {
        assert LastIs(contents[stack[k - 1]], stack[k]);
      }
    }
    forall b, i | b in contents' && 0 <= i < |contents'[b]|
      ensures OnlyOnSpine(contents'[b], i, b, more)
    {
      if i < |contents[b]| {
        assert OnlyOnSpine(contents[b], i, b, stack);
        TopEndsSpine(contents, stack, b, i);
        assert contents[b][i] != ListCell(child);
      }
    }
  }

  // No block has `child` as an entry.
  predicate NowhereIn(contents: map<ListBlock, seq<Cell>>, child: ListBlock) {
    forall b, i :: b in contents && 0 <= i < |contents[b]| ==> contents[b][i] != ListCell(child)
  }

  lemma UnknownIsNowhere(contents: map<ListBlock, seq<Cell>>, trees: map<ListBlock, Tree>, child: ListBlock)
    requires AllAgree(contents, trees) && child !in contents
    ensures NowhereIn(contents, child)
  {
    forall b, i | b in contents && 0 <= i < |contents[b]|
      ensures contents[b][i] != ListCell(child)
    {
      assert BlockAgrees(contents[b], trees[b], trees);
      assert CellAgrees(contents[b][i], trees[b].content[i], trees);
    }
  }

  // A block that nobody refers to joins without disturbing anything.
  lemma JoinKeeps(
    contents: map<ListBlock, seq<Cell>>, trees: map<ListBlock, Tree>, stack: seq<ListBlock>,
    child: ListBlock, tree: Tree, text: string)
    requires AllAgree(contents, trees) && Spine(contents, stack) && child !in contents
    requires tree.content == [Text(text)] && tree.ordered == child.ordered
    ensures AllAgree(contents[child := [TextCell(text)]], trees[child := tree])
    ensures Spine(contents[child := [TextCell(text)]], stack)
    ensures NowhereIn(contents[child := [TextCell(text)]], child)
  {
    UnknownIsNowhere(contents, trees, child);
    var c, t := contents[child := [TextCell(text)]], trees[child := tree];
    forall b | b in c
      ensures BlockAgrees(c[b], t[b], t)
    {
      if b != child {
        assert BlockAgrees(contents[b], trees[b], trees);
        forall i | 0 <= i < |contents[b]|
          ensures CellAgrees(contents[b][i], trees[b].content[i], t)
        {
          assert CellAgrees(contents[b][i], trees[b].content[i], trees);
        }
      }
    }
    forall b, i | b in c && 0 <= i < |c[b]|
      ensures OnlyOnSpine(c[b], i, b, stack)
    {
      if b != child {
        assert OnlyOnSpine(contents[b], i, b, stack);
      }
    }
    forall k | 0 < k < |stack|
      ensures LastIs(c[stack[k - 1]], stack[k])
    {
      assert LastIs(contents[stack[k - 1]], stack[k]);
    }
  }

  // Popping keeps a spine, and a block nobody refers to is a spine of its own.
  lemma PopKeepsSpine(contents: map<ListBlock, seq<Cell>>, stack: seq<ListBlock>, n: nat)
    requires Spine(contents, stack) && n <= |stack|
    ensures Spine(contents, stack[..n])
  {
    forall b, i | b in contents && 0 <= i < |contents[b]|
      ensures OnlyOnSpine(contents[b], i, b, stack[..n])
    {
      assert OnlyOnSpine(contents[b], i, b, stack);
    }
    forall k | 0 < k < n
      ensures LastIs(contents[stack[..n][k - 1]], stack[..n][k])
    {
      assert LastIs(contents[stack[k - 1]], stack[k]);
    }
  }

  lemma AloneIsSpine(contents: map<ListBlock, seq<Cell>>, b: ListBlock)
    requires b in contents && NowhereIn(contents, b)
    ensures Spine(contents, [b])
  {
  }

  ghost function TreesOf(stack: seq<ListBlock>, trees: map<ListBlock, Tree>): (r: seq<Tree>)
    requires forall k :: 0 <= k < |stack| ==> stack[k] in trees
    ensures |r| == |stack| && forall k :: 0 <= k < |stack| ==> r[k] == trees[stack[k]]
  {
    seq(|stack|, k requires 0 <= k < |stack| && stack[k] in trees => trees[stack[k]])
  }

  function LevelsOf(stack: seq<ListBlock>): (r: seq<int>)
    ensures |r| == |stack| && forall k :: 0 <= k < |stack| ==> r[k] == stack[k].ilevel
  {
    seq(|stack|, k requires 0 <= k < |stack| => stack[k].ilevel)
  }

  ghost function Grown(stack: seq<ListBlock>, trees: map<ListBlock, Tree>, item: Item): (r: seq<Tree>)
    requires forall k :: 0 <= k < |stack| ==> stack[k] in trees && HasSpine(trees[stack[k]], |stack| - 1 - k)
    ensures |r| == |stack|
    ensures forall k :: 0 <= k < |stack| ==> Grew(trees[stack[k]], r[k], |stack| - 1 - k, item)
  {
    seq(|stack|, k requires 0 <= k < |stack| && stack[k] in trees && HasSpine(trees[stack[k]], |stack| - 1 - k) =>
      AppendAt(trees[stack[k]], |stack| - 1 - k, item))
  }

  // The stack is the rightmost spine of the last top-level block.
  ghost predicate Shape(
    blocks: seq<ListBlock>, stack: seq<ListBlock>, contents: map<ListBlock, seq<Cell>>, trees: map<ListBlock, Tree>)
  {
    && (forall b :: b in blocks ==> b in trees)
    && AllAgree(contents, trees)
    && StackOnTop(blocks, stack)
    && Spine(contents, stack)
  }

  // The value of a builder.
  ghost function ViewOf(
    blocks: seq<ListBlock>, stack: seq<ListBlock>, trees: map<ListBlock, Tree>, preNumId: int, preLevel: int): Lists
    requires forall b :: b in blocks ==> b in trees
  {
    Lists(TreesOf(blocks, trees), LevelsOf(stack), preNumId, preLevel)
  }

  // What appending to the top does to the value of the builder.
  lemma ViewGrows(
    contents: map<ListBlock, seq<Cell>>, contents': map<ListBlock, seq<Cell>>,
    trees: map<ListBlock, Tree>, trees': map<ListBlock, Tree>,
    blocks: seq<ListBlock>, stack: seq<ListBlock>, cell: Cell, item: Item, preNumId: int, preLevel: int)
    requires Appended(contents, contents', trees, trees', stack, cell, item)
    requires StackOnTop(blocks, stack) && (forall b :: b in blocks ==> b in trees)
    requires Ok(ViewOf(blocks, stack, trees, preNumId, preLevel))
    requires item.Branch? ==> NoEmptyList(item.sub)
    ensures var view' := ViewOf(blocks, stack, trees', preNumId, preLevel);
      && view' == AppendTop(ViewOf(blocks, stack, trees, preNumId, preLevel), |stack|, item) && Ok(view')
      && (item.Branch? ==> HasSpine(view'.trees[|view'.trees| - 1], |stack|))
  {
    var view := ViewOf(blocks, stack, trees, preNumId, preLevel);
    AppendTopAdds(view, |stack|, item);
    hide Ok, HasSpine, AppendAt, NoEmptyList;
    assert LevelsOf(stack)[..|stack|] == LevelsOf(stack);
    TreesGrow(contents, contents', trees, trees', blocks, stack, cell, item);
  }

  lemma TreesGrow(
    contents: map<ListBlock, seq<Cell>>, contents': map<ListBlock, seq<Cell>>,
    trees: map<ListBlock, Tree>, trees': map<ListBlock, Tree>,
    blocks: seq<ListBlock>, stack: seq<ListBlock>, cell: Cell, item: Item)
    requires Appended(contents, contents', trees, trees', stack, cell, item)
    requires StackOnTop(blocks, stack) && (forall b :: b in blocks ==> b in trees)
    ensures var last := |blocks| - 1;
      && HasSpine(TreesOf(blocks, trees)[last], |stack| - 1)
      && TreesOf(blocks, trees') ==
           TreesOf(blocks, trees)[last := AppendAt(TreesOf(blocks, trees)[last], |stack| - 1, item)]
  {
    hide HasSpine, AppendAt, CellAgrees;
    assert Grew(trees[stack[0]], trees'[stack[0]], |stack| - 1 - 0, item);
  }

  lemma TextKeepsShape(
    contents: map<ListBlock, seq<Cell>>, contents': map<ListBlock, seq<Cell>>,
    trees: map<ListBlock, Tree>, trees': map<ListBlock, Tree>,
    blocks: seq<ListBlock>, stack: seq<ListBlock>, text: string, preNumId: int, preLevel: int)
    requires Shape(blocks, stack, contents, trees) && Ok(ViewOf(blocks, stack, trees, preNumId, preLevel))
    requires Appended(contents, contents', trees, trees', stack, TextCell(text), Text(text))
    requires AllAgree(contents', trees')
    ensures Shape(blocks, stack, contents', trees')
    ensures var view' := ViewOf(blocks, stack, trees', preNumId, preLevel);
      && view' == AppendTop(ViewOf(blocks, stack, trees, preNumId, preLevel), |stack|, Text(text)) && Ok(view')
  {
    hide Ok, AppendTop, AllAgree, ViewOf, HasSpine, AppendAt, Spine, Grew;
    TextKeepsSpine(contents, contents', stack, text);
    ViewGrows(contents, contents', trees, trees', blocks, stack, TextCell(text), Text(text), preNumId, preLevel);
  }

  lemma ChildKeepsShape(
    contents: map<ListBlock, seq<Cell>>, contents': map<ListBlock, seq<Cell>>,
    trees: map<ListBlock, Tree>, trees': map<ListBlock, Tree>,
    blocks: seq<ListBlock>, stack: seq<ListBlock>, child: ListBlock, preNumId: int, preLevel: int)
    requires Shape(blocks, stack, contents, trees) && Ok(ViewOf(blocks, stack, trees, preNumId, preLevel))
    requires child in trees && child !in stack && child !in blocks && NowhereIn(contents, child)
    requires NoEmptyList(trees[child]) && forall i :: 0 <= i < |contents[child]| ==> contents[child][i].TextCell?
    requires Appended(contents, contents', trees, trees', stack, ListCell(child), Branch(trees[child]))
    requires AllAgree(contents', trees')
    ensures Shape(blocks, stack + [child], contents', trees')
    ensures var view := ViewOf(blocks, stack, trees, preNumId, preLevel);
      && ViewOf(blocks, stack + [child], trees', preNumId, child.ilevel)
         == AppendTop(view, |stack|, Branch(trees[child])).(levels := view.levels + [child.ilevel], preLevel := child.ilevel)
      && Ok(ViewOf(blocks, stack + [child], trees', preNumId, child.ilevel))
  {
    hide AppendTop, AllAgree, AppendAt, Spine, Grew, NoEmptyList;
    ChildKeepsSpine(contents, contents', trees, stack, child);
    ViewGrows(contents, contents', trees, trees', blocks, stack, ListCell(child), Branch(trees[child]), preNumId, preLevel);
    assert LevelsOf(stack + [child]) == LevelsOf(stack) + [child.ilevel];
  }

  lemma StartKeepsShape(
    contents: map<ListBlock, seq<Cell>>, trees: map<ListBlock, Tree>, blocks: seq<ListBlock>, stack: seq<ListBlock>,
    child: ListBlock, preNumId: int, preLevel: int, numId: int)
    requires Shape(blocks, stack, contents, trees) && Ok(ViewOf(blocks, stack, trees, preNumId, preLevel))
    requires child in trees && child !in blocks && NowhereIn(contents, child) && NoEmptyList(trees[child])
    ensures Shape(blocks + [child], [child], contents, trees)
    ensures var view := ViewOf(blocks, stack, trees, preNumId, preLevel);
            var view' := ViewOf(blocks + [child], [child], trees, numId, child.ilevel);
      view' == Lists(view.trees + [trees[child]], [child.ilevel], numId, child.ilevel) && Ok(view')
  {
    var view := ViewOf(blocks, stack, trees, preNumId, preLevel);
    StartedIsOk(view, trees[child], numId, child.ilevel);
    AloneIsSpine(contents, child);
    hide Ok, AllAgree, Spine, NowhereIn;
    assert LevelsOf([child]) == [child.ilevel];
    assert TreesOf(blocks + [child], trees) == view.trees + [trees[child]];
  }

  lemma PopKeepsShape(
    contents: map<ListBlock, seq<Cell>>, trees: map<ListBlock, Tree>, blocks: seq<ListBlock>, stack: seq<ListBlock>,
    n: nat, preNumId: int, preLevel: int)
    requires Shape(blocks, stack, contents, trees) && Ok(ViewOf(blocks, stack, trees, preNumId, preLevel))
    requires 0 < n <= |stack|
    ensures Shape(blocks, stack[..n], contents, trees)
    ensures var view := ViewOf(blocks, stack, trees, preNumId, preLevel);
            var view' := ViewOf(blocks, stack[..n], trees, preNumId, preLevel);
      view' == view.(levels := view.levels[..n]) && Ok(view')
  {
    PopThenAppend(ViewOf(blocks, stack, trees, preNumId, preLevel), n, Text(""));
    PopKeepsSpine(contents, stack, n);
    assert LevelsOf(stack[..n]) == LevelsOf(stack)[..n];
  }

  lemma JoinKeepsShape(
    contents: map<ListBlock, seq<Cell>>, trees: map<ListBlock, Tree>, blocks: seq<ListBlock>, stack: seq<ListBlock>,
    child: ListBlock, tree: Tree, text: string, preNumId: int, preLevel: int)
    requires Shape(blocks, stack, contents, trees) && child !in contents
    requires tree.content == [Text(text)] && tree.ordered == child.ordered
    ensures Shape(blocks, stack, contents[child := [TextCell(text)]], trees[child := tree])
    ensures ViewOf(blocks, stack, trees[child := tree], preNumId, preLevel) == ViewOf(blocks, stack, trees, preNumId, preLevel)
    ensures NowhereIn(contents[child := [TextCell(text)]], child) && child !in blocks && child !in stack
  {
    JoinKeeps(contents, trees, stack, child, tree, text);
    assert TreesOf(blocks, trees[child := tree]) == TreesOf(blocks, trees);
  }

  lemma LevelKeepsShape(
    contents: map<ListBlock, seq<Cell>>, trees: map<ListBlock, Tree>, blocks: seq<ListBlock>, stack: seq<ListBlock>,
    preNumId: int, preLevel: int, level: int)
    requires Shape(blocks, stack, contents, trees) && Ok(ViewOf(blocks, stack, trees, preNumId, preLevel))
    ensures var view := ViewOf(blocks, stack, trees, preNumId, preLevel);
            var view' := ViewOf(blocks, stack, trees, preNumId, level);
      view' == view.(preLevel := level) && Ok(view')
  {
  }

  lemma CloseKeepsShape(
    contents: map<ListBlock, seq<Cell>>, trees: map<ListBlock, Tree>, blocks: seq<ListBlock>, stack: seq<ListBlock>,
    preNumId: int, preLevel: int)
    requires Shape(blocks, stack, contents, trees) && Ok(ViewOf(blocks, stack, trees, preNumId, preLevel))
    ensures Shape(blocks, [], contents, trees)
    ensures var view' := ViewOf(blocks, [], trees, -1, -1);
      view' == Apply(ViewOf(blocks, stack, trees, preNumId, preLevel), Close) && Ok(view')
  {
    PopKeepsSpine(contents, stack, 0);
    assert stack[..0] == [];
    assert LevelsOf([]) == [];
  }

  class ListBuilder {
    var blocks: seq<ListBlock>
    var stack: seq<ListBlock>
    var preNumId: int
    var preLevel: int
    ghost var repr: set<ListBlock>

    ghost predicate Valid()
      reads this, repr
    {
      Shape(blocks, stack, Contents(repr), Trees(repr)) && Ok(View())
    }

    ghost function View(): Lists
      reads this, repr
      requires forall b :: b in blocks ==> b in Trees(repr)
    {
      ViewOf(blocks, stack, Trees(repr), preNumId, preLevel)
    }

    constructor ()
      ensures Valid() && View() == START && fresh(repr)
    {
      blocks, stack, preNumId, preLevel, repr := [], [], -1, -1, {};
      new;
      assert TreesOf(blocks, Trees(repr)) == [] && LevelsOf(stack) == [];
    }

    method CloseList()
      requires Valid()
      modifies this
      ensures Valid() && repr == old(repr) && View() == Apply(old(View()), Close)
    {
      CloseKeepsShape(Contents(repr), Trees(repr), blocks, stack, preNumId, preLevel);
      hide Contents, Trees, Ok, Shape, Apply;
      preNumId, preLevel, stack := -1, -1, [];
    }

    // Write a cell into the block on top of the stack, and new values into all blocks on it.
    method WriteToTop(cell: Cell, ghost grown: seq<Tree>)
      requires stack != [] && StackOnTop(blocks, stack) && |grown| == |stack|
      requires forall k :: 0 <= k < |stack| ==> stack[k] in repr
      modifies repr
      ensures var top := stack[|stack| - 1];
        Contents(repr) == old(Contents(repr))[top := old(Contents(repr))[top] + [cell]]
      ensures Trees(repr).Keys == old(Trees(repr)).Keys
      ensures forall b :: b in Trees(repr) && b !in stack ==> Trees(repr)[b] == old(Trees(repr))[b]
      ensures forall k :: 0 <= k < |stack| ==> stack[k] in Trees(repr) && Trees(repr)[stack[k]] == grown[k]
    {
      var top := stack[|stack| - 1];
      top.content := top.content + [cell];
      forall k | 0 <= k < |stack| {
        stack[k].tree := grown[k];
      }
    }

    // Append a cell to the block on top of the stack: the values of all blocks
    // on the stack grow with it.
    method AppendToTop(cell: Cell, ghost item: Item)
      requires Shape(blocks, stack, Contents(repr), Trees(repr)) && stack != [] && CellAgrees(cell, item, Trees(repr))
      requires forall k :: 0 <= k < |stack| ==> cell != ListCell(stack[k])
      modifies repr
      ensures AllAgree(Contents(repr), Trees(repr))
      ensures Appended(old(Contents(repr)), Contents(repr), old(Trees(repr)), Trees(repr), stack, cell, item)
    {
      ghost var contents, trees := Contents(repr), Trees(repr);
      StackHasSpines(contents, trees, stack);
      hide AllAgree, Spine, StackOnTop, CellAgrees, HasSpine;
      ghost var grown := Grown(stack, trees, item);
      WriteToTop(cell, grown);
      hide Contents, Trees;
      WrittenIsAppended(contents, Contents(repr), trees, Trees(repr), stack, cell, item, grown);
      hide Appended;
      AppendKeepsAgreement(contents, Contents(repr), trees, Trees(repr), stack, cell, item);
    }

    // Append a text to the block on top of the stack.
    method AppendText(text: string)
      requires Valid() && stack != []
      modifies repr
      ensures Valid() && View() == AppendTop(old(View()), |stack|, Text(text))
    {
      hide Contents, Trees, Ok, AppendTop, ViewOf, AllAgree, Appended;
      ghost var contents, trees := Contents(repr), Trees(repr);
      AppendToTop(TextCell(text), Text(text));
      TextKeepsShape(contents, Contents(repr), trees, Trees(repr), blocks, stack, text, preNumId, preLevel);
    }

    // Pop the blocks that are deeper than `level`, but never the last one.
    method PopTo(level: int)
      requires Valid() && stack != []
      modifies this`stack
      ensures stack == old(stack)[..Surviving(LevelsOf(old(stack)), level)]
      ensures var view := old(View());
        Valid() && View() == view.(levels := view.levels[..|stack|]) && |stack| == Surviving(view.levels, level) <= |view.levels|
    {
      hide Contents, Trees, Ok, Shape;
      PopLoop(level);
      PopKeepsShape(Contents(repr), Trees(repr), blocks, old(stack), |stack|, preNumId, preLevel);
    }

    method PopLoop(level: int)
      requires stack != []
      modifies this`stack
      ensures stack == old(stack)[..Surviving(LevelsOf(old(stack)), level)]
    {
      while |stack| > 1 && stack[|stack| - 1].ilevel > level
        invariant stack != [] && |stack| <= |old(stack)| && stack == old(stack)[..|stack|]
        invariant Surviving(LevelsOf(stack), level) == Surviving(LevelsOf(old(stack)), level)
      {
        assert LevelsOf(stack)[..|stack| - 1] == LevelsOf(stack[..|stack| - 1]);
        stack := stack[..|stack| - 1];
      }
    }

    // Allocate a list block holding one text; nothing refers to it yet.
    method Allocate(ordered: bool, level: int, text: string) returns (child: ListBlock)
      requires Valid()
      modifies this`repr
      ensures fresh(child) && repr == old(repr) + {child}
      ensures child.ordered == ordered && child.ilevel == level && child.tree == Node(ordered, level, [Text(text)])
      ensures Valid() && View() == old(View())
      ensures child in Trees(repr) && Trees(repr)[child] == child.tree
      ensures child in Contents(repr) && Contents(repr)[child] == [TextCell(text)]
      ensures NowhereIn(Contents(repr), child) && child !in blocks && child !in stack
    {
      ghost var contents, trees := Contents(repr), Trees(repr);
      child := new ListBlock(ordered, level, text);
      repr := repr + {child};
      hide Ok, Shape, ViewOf;
      assert Contents(repr) == contents[child := [TextCell(text)]];
      assert Trees(repr) == trees[child := child.tree];
      JoinKeepsShape(contents, trees, blocks, stack, child, child.tree, text, preNumId, preLevel);
    }

    // Start a list sequence of its own.
    method StartList(numId: int, level: int, text: string, ordered: bool)
      requires Valid()
      modifies this
      ensures Valid() && fresh(repr - old(repr))
      ensures View() == Lists(old(View()).trees + [Node(ordered, level, [Text(text)])], [level], numId, level)
    {
      hide Contents, Trees, Ok;
      var child := Allocate(ordered, level, text);
      StartKeepsShape(Contents(repr), Trees(repr), blocks, stack, child, preNumId, preLevel, numId);
      hide Shape, NowhereIn, NoEmptyList;
      ghost var view := View();
      blocks, stack, preNumId, preLevel := blocks + [child], [child], numId, level;
    }

    // Open a list inside the block on top of the stack.
    method OpenChild(level: int, text: string, ordered: bool)
      requires Valid() && stack != []
      modifies this, repr
      ensures Valid() && fresh(repr - old(repr))
      ensures View() == AppendTop(old(View()), |old(stack)|, Branch(Node(ordered, level, [Text(text)]))).(
        levels := old(View()).levels + [level], preLevel := level)
    {
      hide Contents, Trees, Ok, AppendTop, AllAgree, Appended, NowhereIn, ViewOf;
      var child := Allocate(ordered, level, text);
      ghost var contents, trees := Contents(repr), Trees(repr);
      AppendToTop(ListCell(child), Branch(child.tree));
      ChildKeepsShape(contents, Contents(repr), trees, Trees(repr), blocks, stack, child, preNumId, preLevel);
      stack := stack + [child];
      preLevel := level;
    }

    // Pop back to a shallower level and append there.
    method BackTo(level: int, text: string)
      requires Valid() && stack != []
      modifies this, repr
      ensures Valid() && repr == old(repr)
      ensures var view := old(View());
        View() == AppendTop(view, Surviving(view.levels, level), Text(text)).(preLevel := level)
    {
      ghost var view := View();
      hide Contents, Trees, AppendTop, Shape, Ok, Valid, View, Surviving;
      PopTo(level);
      PopThenAppend(view, |stack|, Text(text));
      AppendText(text);
      SetLevel(level);
    }

    method SetLevel(level: int)
      requires Valid()
      modifies this`preLevel
      ensures Valid() && View() == old(View()).(preLevel := level)
    {
      LevelKeepsShape(Contents(repr), Trees(repr), blocks, stack, preNumId, preLevel, level);
      hide Contents, Trees, Shape, Ok;
      preLevel := level;
    }

    lemma ActiveHasStack()
      requires Valid() && preNumId != -1
      ensures stack != []
    {
      assert View().levels != [];
    }

    // While a list is open, the stack is the whole right spine of the last block.
    ghost predicate StackIsWhole()
      reads this, repr
      requires Valid()
    {
      stack != [] ==> blocks != [] && stack == RightSpine(Contents(repr), Trees(repr), blocks[|blocks| - 1])
    }

    lemma WholeSpineWholeStack()
      requires Valid() && WholeSpine(View())
      ensures StackIsWhole()
    {
      if stack != [] {
        StackIsRightSpine(Contents(repr), Trees(repr), stack, 0);
      }
    }

    method AddListItem(numId: int, level: int, text: string, ordered: bool)
      requires Valid()
      modifies this, repr
      ensures Valid() && fresh(repr - old(repr))
      ensures View() == Apply(old(View()), Add(numId, level, text, ordered))
    {
      if preNumId != -1 {
        ActiveHasStack();
      }
      hide Ok, AppendTop, Shape, Contents, Trees;
      if preNumId == -1 || preNumId != numId {
        if preNumId != -1 {
          CloseList();
        }
        StartList(numId, level, text, ordered);
        return;
      }
      if level > preLevel {
        OpenChild(level, text, ordered);
        return;
      }
      if level < preLevel {
        BackTo(level, text);
        return;
      }
      AppendText(text);
    }

    method Perform(op: Op)
      requires Valid()
      modifies this, repr
      ensures Valid() && fresh(repr - old(repr)) && View() == Apply(old(View()), op)
    {
      hide Apply, Ok, Shape;
      match op {
        case Close => CloseList();
        case Add(numId, level, text, ordered) => AddListItem(numId, level, text, ordered);
      }
    }
  }

  // ---- Printing the blocks in the heap ----

  // The text a list block is printed as is the printed form of its value.
  method ListToText(block: ListBlock, indent: nat, ghost repr: set<ListBlock>) returns (text: string)
    requires AllAgree(Contents(repr), Trees(repr)) && block in repr
    ensures text == Printed(block.tree, indent)
    decreases block.tree
  {
    var lines: seq<string> := [];
    var i := 0;
    assert BlockAgrees(Contents(repr)[block], Trees(repr)[block], Trees(repr));
    while i < |block.content|
      invariant i <= |block.content| == |block.tree.content|
      invariant lines == PrintedItems(block.tree, i, indent)
    {
      ghost var item := block.tree.content[i];
      assert CellAgrees(block.content[i], item, Trees(repr));
      match block.content[i] {
        case TextCell(x) =>
          lines := lines + [Marked(block.ordered, i + 1, indent, x)];
        case ListCell(sub) =>
          var part := ListToText(sub, indent + 1, repr);
          lines := lines + [part];
      }
      i := i + 1;
    }
    text := Join(lines, "\n");
  }

  // Feed a document's list items and closes to a fresh builder.
  method Build(ops: seq<Op>) returns (builder: ListBuilder)
    ensures fresh(builder) && fresh(builder.repr)
    ensures builder.Valid() && builder.View() == ApplyAll(ops)
    ensures builder.StackIsWhole()
  {
    builder := BuildUp(ops);
    WholeSpineAlways(ops);
    builder.WholeSpineWholeStack();
  }

  method BuildUp(ops: seq<Op>) returns (builder: ListBuilder)
    ensures fresh(builder) && fresh(builder.repr)
    ensures builder.Valid() && builder.View() == ApplyAll(ops)
  {
    builder := new ListBuilder();
    hide Apply, Ok, ViewOf, AllAgree, Spine, StackOnTop, Contents, Trees;
    var i := 0;
    while i < |ops|
      invariant 0 <= i <= |ops| && fresh(builder) && fresh(builder.repr)
      invariant builder.Valid() && builder.View() == ApplyAll(ops[..i])
    {
      assert ops[..i + 1][..i] == ops[..i];
      builder.Perform(ops[i]);
      i := i + 1;
    }
    assert ops[..i] == ops;
  }
}
