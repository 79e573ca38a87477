// Where an item ends up and how it is printed: its depth, its indentation and its number.
module ListLaws {
  import opened Strings
  import opened ListTree
  import opened ListParser

  // ---- Numbers and indentation ----

  predicate IsDigit(c: char) {
    '0' <= c <= '9'
  }

  function ValueOf(digits: string): nat
    requires forall i :: 0 <= i < |digits| ==> IsDigit(digits[i])
  {
    if digits == "" then 0
    else
      var n := |digits| - 1;
      assert IsDigit(digits[n]);
      ValueOf(digits[..n]) * 10 + (digits[n] as int - '0' as int)
  }

  // Reading the number gives it back, and it is written without leading zeros.
  lemma {:induction false} DecimalReadsBack(n: nat)
    ensures forall i :: 0 <= i < |Decimal(n)| ==> IsDigit(Decimal(n)[i])
    ensures ValueOf(Decimal(n)) == n
    ensures |Decimal(n)| > 0 && (Decimal(n)[0] == '0' ==> n == 0)
  {
    if n < 10 {
      assert ValueOf("") == 0;
    } else {
      DecimalReadsBack(n / 10);
      var d := Decimal(n);
      assert d[..|d| - 1] == Decimal(n / 10);
    }
  }

  lemma {:induction false} IndentIsSpaces(n: nat)
    ensures |Indent(n)| == 2 * n && forall i :: 0 <= i < 2 * n ==> Indent(n)[i] == ' '
  {
    if n > 0 {
      IndentIsSpaces(n - 1);
    }
  }

  // ---- Depth ----

  // The list at the end of the rightmost spine.
  function Bottom(t: Tree): Tree {
    if |t.content| > 0 && t.content[|t.content| - 1].Branch? then Bottom(t.content[|t.content| - 1].sub) else t
  }

  // The last entry printed is the last item of that list: it is indented by the depth of the
  // list and numbered by its position there.
  lemma {:induction false} LastEntryIs(t: Tree, indent: nat, text: string)
    requires NoEmptyList(t)
    requires var b := Bottom(t); |b.content| > 0 && b.content[|b.content| - 1] == Text(text)
    ensures var entries, b := Entries(t, indent), Bottom(t);
      && |entries| > 0
      && entries[|entries| - 1]
         == Entry(indent + SpineLength(t), if b.ordered then Decimal(|b.content|) + "." else "-", text)
    decreases t
  {
    var n := |t.content|;
    assert Entries(t, indent) == EntriesOf(t, n - 1, indent) + LastEntries(t, n, indent);
    if t.content[n - 1].Branch? {
      LastEntryIs(t.content[n - 1].sub, indent + 1, text);
    }
  }

  // What the bottom list is after an item was appended at a depth.
  lemma {:induction false} AppendAtBottom(t: Tree, d: nat, item: Item)
    requires HasSpine(t, d)
    ensures item.Branch? ==> Bottom(AppendAt(t, d, item)) == Bottom(item.sub)
    ensures item.Text? ==>
      Bottom(AppendAt(t, d, item)) == NodeAt(t, d).(content := NodeAt(t, d).content + [item])
    decreases d
  {
    if d > 0 {
      AppendAtBottom(t.content[|t.content| - 1].sub, d - 1, item);
    }
  }

  // The list `d` branches down the rightmost spine.
  function NodeAt(t: Tree, d: nat): Tree
    requires HasSpine(t, d)
  {
    if d == 0 then t else NodeAt(t.content[|t.content| - 1].sub, d - 1)
  }

  // The list that takes the item: it starts a new block, opens a list one deeper, stays in its
  // list, or goes back to the deepest open list that is not deeper than its level, if any.
  function DepthFor(s: Lists, numId: int, level: int): nat
    requires Ok(s)
  {
    if s.preNumId == -1 || s.preNumId != numId then 0
    else if level > s.preLevel then |s.levels|
    else if level == s.preLevel then |s.levels| - 1
    else DeepestUpTo(s.levels, level)
  }

  function DeepestUpTo(levels: seq<int>, level: int): (d: nat)
    requires |levels| > 0
    ensures d < |levels|
    ensures d > 0 ==> levels[d] <= level
    ensures forall i :: d < i < |levels| ==> levels[i] > level
  {
    var n := |levels| - 1;
    if n == 0 || levels[n] <= level then n else DeepestUpTo(levels[..n], level)
  }

  lemma {:induction false} SurvivingIsDeepest(levels: seq<int>, level: int)
    requires |levels| > 0
    ensures Surviving(levels, level) == DeepestUpTo(levels, level) + 1
  {
    var n := |levels| - 1;
    if n > 0 && levels[n] > level {
      SurvivingIsDeepest(levels[..n], level);
    }
  }

  // The item starts a list of its own.
  predicate Opens(s: Lists, numId: int, level: int) {
    s.preNumId == -1 || s.preNumId != numId || level > s.preLevel
  }

  // The open list that takes an item that does not start one.
  function Home(s: Lists, numId: int, level: int): Tree
    requires Ok(s) && !Opens(s, numId, level)
  {
    var last := s.trees[|s.trees| - 1];
    SpineShorter(last, |s.levels| - 1, DepthFor(s, numId, level));
    NodeAt(last, DepthFor(s, numId, level))
  }

  // The list that the item is in afterwards.
  function HomeAfter(s: Lists, numId: int, level: int, text: string, ordered: bool): Tree
    requires Ok(s)
  {
    if Opens(s, numId, level) then Node(ordered, level, [Text(text)])
    else Home(s, numId, level).(content := Home(s, numId, level).content + [Text(text)])
  }

  // Where one more item goes.
  lemma ItemLands(s: Lists, numId: int, level: int, text: string, ordered: bool)
    requires Ok(s)
    ensures var t := Apply(s, Add(numId, level, text, ordered)); var d := DepthFor(s, numId, level);
      && |t.trees| == |s.trees| + (if s.preNumId == -1 || s.preNumId != numId then 1 else 0)
      && |t.levels| == d + 1 && t.preNumId == numId && t.preLevel == level
      && |t.trees| > 0 && NoEmptyList(t.trees[|t.trees| - 1])
      && SpineLength(t.trees[|t.trees| - 1]) == d
      && Bottom(t.trees[|t.trees| - 1]) == HomeAfter(s, numId, level, text, ordered)
  {
    var op := Add(numId, level, text, ordered);
    var leaf, node := Text(text), Node(ordered, level, [Text(text)]);
    ApplyAdds(s, op);
    ApplyMakesWholeSpine(s, op);
    if s.preNumId != -1 && s.preNumId == numId {
      var last := s.trees[|s.trees| - 1];
      SurvivingIsDeepest(s.levels, level);
      hide NoEmptyList, AllLeaves, SpineLength;
      if level > s.preLevel {
        AppendAtBottom(last, |s.levels| - 1, Branch(node));
      } else {
        SpineShorter(last, |s.levels| - 1, DepthFor(s, numId, level));
        AppendAtBottom(last, DepthFor(s, numId, level), leaf);
      }
    }
  }

  // In the printed text the new item is the last line: indented by its depth, with a dash or
  // with its number in its list.
  lemma ItemIsPrintedLast(ops: seq<Op>, numId: int, level: int, text: string, ordered: bool)
    ensures var s, t := ApplyAll(ops), ApplyAll(ops + [Add(numId, level, text, ordered)]);
      && |t.trees| > 0
      && var entries, home := Entries(t.trees[|t.trees| - 1], 0), HomeAfter(s, numId, level, text, ordered);
      && |entries| > 0
      && entries[|entries| - 1]
         == Entry(DepthFor(s, numId, level), if home.ordered then Decimal(|home.content|) + "." else "-", text)
  {
    var s, op := ApplyAll(ops), Add(numId, level, text, ordered);
    assert (ops + [op])[..|ops|] == ops;
    ItemLands(s, numId, level, text, ordered);
    var tree := Apply(s, op).trees[|Apply(s, op).trees| - 1];
    LastEntryIs(tree, 0, text);
  }
}
