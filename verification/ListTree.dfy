// Nested list blocks as values: what the parser builds and the cleaner prints.
module ListTree {
  import opened Strings

  datatype Tree = Node(ordered: bool, ilevel: int, content: seq<Item>)
  datatype Item = Text(text: string) | Branch(sub: Tree)

  // The text items in reading order.
  function Leaves(t: Tree): seq<string>
    decreases t, 1
  {
    LeavesUpTo(t, |t.content|)
  }

  // The text items below the first `n` entries of the node.
  function LeavesUpTo(t: Tree, n: nat): seq<string>
    requires n <= |t.content|
    decreases t, 0, n
  {
    if n == 0 then [] else
      LeavesUpTo(t, n - 1) + (match t.content[n - 1] case Text(x) => [x] case Branch(sub) => Leaves(sub))
  }

  lemma {:induction false} LeavesSamePrefix(t: Tree, u: Tree, n: nat)
    requires n <= |t.content| && n <= |u.content| && t.content[..n] == u.content[..n]
    ensures LeavesUpTo(t, n) == LeavesUpTo(u, n)
  {
    if n > 0 {
      assert t.content[..n][n - 1] == u.content[..n][n - 1];
      assert t.content[..n][..n - 1] == t.content[..n - 1] && u.content[..n][..n - 1] == u.content[..n - 1];
      LeavesSamePrefix(t, u, n - 1);
    }
  }

  function AllLeaves(trees: seq<Tree>): seq<string> {
    if |trees| == 0 then [] else AllLeaves(trees[..|trees| - 1]) + Leaves(trees[|trees| - 1])
  }

  // `t` has a rightmost spine of at least `d` branches.
  predicate HasSpine(t: Tree, d: nat) {
    d > 0 ==> |t.content| > 0 && t.content[|t.content| - 1].Branch? && HasSpine(t.content[|t.content| - 1].sub, d - 1)
  }

  // Append an item to the node `d` branches down the rightmost spine.
  function AppendAt(t: Tree, d: nat, item: Item): Tree
    requires HasSpine(t, d)
  {
    if d == 0 then t.(content := t.content + [item])
    else
      var n := |t.content| - 1;
      t.(content := t.content[n := Branch(AppendAt(t.content[n].sub, d - 1, item))])
  }

  function LeavesOfItem(item: Item): seq<string> {
    match item case Text(x) => [x] case Branch(sub) => Leaves(sub)
  }

  // Appending on the rightmost spine appends to the leaves.
  lemma {:induction false} AppendAtLeaves(t: Tree, d: nat, item: Item)
    requires HasSpine(t, d)
    ensures Leaves(AppendAt(t, d, item)) == Leaves(t) + LeavesOfItem(item)
    decreases d
  {
    var u := AppendAt(t, d, item);
    var n := |u.content| - 1;
    assert u.content[..n] == t.content[..n];
    LeavesSamePrefix(t, u, n);
    if d > 0 {
      AppendAtLeaves(t.content[n].sub, d - 1, item);
    }
  }

  // The spine reaches down to the new last branch.
  lemma {:induction false} AppendAtSpine(t: Tree, d: nat, item: Item, e: nat)
    requires HasSpine(t, d)
    ensures e <= d ==> HasSpine(AppendAt(t, d, item), e)
    ensures item.Branch? && e == d + 1 ==> HasSpine(AppendAt(t, d, item), e)
    decreases d
  {
    if d > 0 && e > 0 {
      AppendAtSpine(t.content[|t.content| - 1].sub, d - 1, item, e - 1);
    }
  }

  // How many branches the rightmost spine has.
  function SpineLength(t: Tree): nat {
    if |t.content| > 0 && t.content[|t.content| - 1].Branch? then 1 + SpineLength(t.content[|t.content| - 1].sub) else 0
  }

  lemma {:induction false} HasSpineIff(t: Tree, d: nat)
    ensures HasSpine(t, d) <==> d <= SpineLength(t)
    decreases d
  {
    if d > 0 && |t.content| > 0 && t.content[|t.content| - 1].Branch? {
      HasSpineIff(t.content[|t.content| - 1].sub, d - 1);
    }
  }

  // Appending cuts the spine at the node, and a branch starts it again.
  lemma {:induction false} AppendAtSpineLength(t: Tree, d: nat, item: Item)
    requires HasSpine(t, d)
    ensures SpineLength(AppendAt(t, d, item)) == d + if item.Branch? then 1 + SpineLength(item.sub) else 0
    decreases d
  {
    if d > 0 {
      AppendAtSpineLength(t.content[|t.content| - 1].sub, d - 1, item);
    }
  }

  // ---- Printing ----

  // No list block is empty; the parser never makes one that is.
  predicate NoEmptyList(t: Tree) {
    |t.content| > 0 && forall i :: 0 <= i < |t.content| && t.content[i].Branch? ==> NoEmptyList(t.content[i].sub)
  }

  lemma {:induction false} AppendAtNotEmpty(t: Tree, d: nat, item: Item)
    requires HasSpine(t, d) && NoEmptyList(t) && (item.Branch? ==> NoEmptyList(item.sub))
    ensures NoEmptyList(AppendAt(t, d, item))
    decreases d
  {
    if d > 0 {
      AppendAtNotEmpty(t.content[|t.content| - 1].sub, d - 1, item);
    }
  }

  function Decimal(n: nat): string {
    if n < 10 then [('0' as int + n) as char] else Decimal(n / 10) + [('0' as int + n % 10) as char]
  }

  function Indent(n: nat): string {
    if n == 0 then "" else Indent(n - 1) + "  "
  }

  // A text item at position `i` of its list, counted from 1 over all items.
  function Marked(ordered: bool, i: nat, indent: nat, text: string): string {
    Indent(indent) + (if ordered then Decimal(i) + "." else "-") + " " + text
  }

  // The printed lists: each entry of `lines` is a text item or a whole sublist.
  function Printed(t: Tree, indent: nat): string
    decreases t, 1
  {
    Join(PrintedItems(t, |t.content|, indent), "\n")
  }

  function PrintedItems(t: Tree, n: nat, indent: nat): (r: seq<string>)
    requires n <= |t.content|
    ensures |r| == n
    decreases t, 0, n
  {
    if n == 0 then [] else
      PrintedItems(t, n - 1, indent) +
      [match t.content[n - 1] case Branch(sub) => Printed(sub, indent + 1)
                              case Text(x) => Marked(t.ordered, n, indent, x)]
  }

  // One entry per leaf.
  datatype Entry = Entry(indent: nat, marker: string, text: string)

  function Show(e: Entry): string {
    Indent(e.indent) + e.marker + " " + e.text
  }

  function Entries(t: Tree, indent: nat): seq<Entry>
    decreases t, 1
  {
    EntriesOf(t, |t.content|, indent)
  }

  function EntriesOf(t: Tree, n: nat, indent: nat): seq<Entry>
    requires n <= |t.content|
    decreases t, 0, n
  {
    if n == 0 then [] else EntriesOf(t, n - 1, indent) + LastEntries(t, n, indent)
  }

  function LastEntries(t: Tree, n: nat, indent: nat): seq<Entry>
    requires 0 < n <= |t.content|
    decreases t, 0, n - 1
  {
    match t.content[n - 1]
    case Branch(sub) => Entries(sub, indent + 1)
    case Text(x) => [Entry(indent, if t.ordered then Decimal(n) + "." else "-", x)]
  }

  function Shown(entries: seq<Entry>): (r: seq<string>)
    ensures |r| == |entries|
  {
    seq(|entries|, i requires 0 <= i < |entries| => Show(entries[i]))
  }

  function Texts(entries: seq<Entry>): (r: seq<string>)
    ensures |r| == |entries|
  {
    seq(|entries|, i requires 0 <= i < |entries| => entries[i].text)
  }

  // The printer writes one entry per leaf, in reading order, one below the other.
  lemma {:induction false} PrintsEveryLeaf(t: Tree, indent: nat)
    requires NoEmptyList(t)
    ensures Printed(t, indent) == Join(Shown(Entries(t, indent)), "\n")
    ensures Texts(Entries(t, indent)) == Leaves(t)
    ensures |Entries(t, indent)| > 0
    decreases t, 1
  {
    PrintsEveryItem(t, |t.content|, indent);
  }

  lemma {:induction false} PrintsLastItem(t: Tree, n: nat, indent: nat)
    requires NoEmptyList(t) && 0 < n <= |t.content|
    ensures PrintedItems(t, n, indent) == PrintedItems(t, n - 1, indent) + [PrintedItems(t, n, indent)[n - 1]]
    ensures PrintedItems(t, n, indent)[n - 1] == Join(Shown(LastEntries(t, n, indent)), "\n")
    ensures Texts(LastEntries(t, n, indent)) == LeavesOfItem(t.content[n - 1])
    ensures |LastEntries(t, n, indent)| > 0
    decreases t, 0, n - 1
  {
    var item := t.content[n - 1];
    if item.Branch? {
      PrintsEveryLeaf(item.sub, indent + 1);
    } else {
      OneLine(t.ordered, n, indent, item.text);
    }
    hide Join, Shown, Texts, Printed, Leaves, Marked, Entries, EntriesOf, LeavesUpTo;
  }

  lemma OneLine(ordered: bool, n: nat, indent: nat, text: string)
    ensures var e := [Entry(indent, if ordered then Decimal(n) + "." else "-", text)];
      Join(Shown(e), "\n") == Marked(ordered, n, indent, text) && Texts(e) == [text]
  {
    var e := Entry(indent, if ordered then Decimal(n) + "." else "-", text);
    assert Shown([e]) == [Show(e)];
    assert Texts([e]) == [text];
    hide Decimal, Indent;
  }

  lemma {:induction false} PrintsEveryItem(t: Tree, n: nat, indent: nat)
    requires NoEmptyList(t) && n <= |t.content|
    ensures Join(PrintedItems(t, n, indent), "\n") == Join(Shown(EntriesOf(t, n, indent)), "\n")
    ensures Texts(EntriesOf(t, n, indent)) == LeavesUpTo(t, n)
    ensures n > 0 ==> |EntriesOf(t, n, indent)| > 0
    decreases t, 0, n
  {
    if n > 0 {
      hide NoEmptyList, LastEntries, Printed, Join, Shown, Texts, Leaves;
      PrintsEveryItem(t, n - 1, indent);
      PrintsLastItem(t, n, indent);
      var front, last := EntriesOf(t, n - 1, indent), LastEntries(t, n, indent);
      PrintAppend(front, last, PrintedItems(t, n - 1, indent), PrintedItems(t, n, indent)[n - 1]);
      TextsAppend(front, last);
      assert LeavesUpTo(t, n) == LeavesUpTo(t, n - 1) + LeavesOfItem(t.content[n - 1]);
    } else {
      assert Shown([]) == [] && Texts([]) == [];
    }
  }

  lemma TextsAppend(a: seq<Entry>, b: seq<Entry>)
    ensures Texts(a + b) == Texts(a) + Texts(b)
  {
  }

  lemma PrintAppend(front: seq<Entry>, last: seq<Entry>, before: seq<string>, printed: string)
    requires Join(before, "\n") == Join(Shown(front), "\n") && printed == Join(Shown(last), "\n")
    requires |last| > 0 && (before == [] <==> front == [])
    ensures Join(before + [printed], "\n") == Join(Shown(front + last), "\n")
  {
    assert Shown(front + last) == Shown(front) + Shown(last);
    if before == [] {
      assert Shown(front) + Shown(last) == Shown(last);
    } else {
      JoinSnoc(before, printed, "\n");
      JoinAppend(Shown(front), Shown(last), "\n");
    }
  }
}
