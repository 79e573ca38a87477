// What a chunking of a text is: stretches of the text, in order, that overlap
// in a bounded way and leave out nothing but separators.
module Chunking {
  import opened Strings

  datatype Span = Span(start: nat, end: nat)

  predicate MadeOf(parts: seq<string>, seps: set<string>) {
    forall i :: 0 <= i < |parts| ==> parts[i] in seps
  }

  // `g` is a row of separators.
  ghost predicate IsGap(g: string, seps: set<string>) {
    exists parts :: MadeOf(parts, seps) && Concat(parts) == g
  }

  lemma GapOne(s: string, seps: set<string>)
    requires s in seps || s == ""
    ensures IsGap(s, seps)
  {
    var parts := if s == "" then [] else [s];
    assert MadeOf(parts, seps);
    ConcatSnoc([], s);
    assert [] + [s] == [s];
  }

  lemma GapAppend(g: string, h: string, seps: set<string>)
    requires IsGap(g, seps) && IsGap(h, seps)
    ensures IsGap(g + h, seps)
  {
    var p :| MadeOf(p, seps) && Concat(p) == g;
    var q :| MadeOf(q, seps) && Concat(q) == h;
    assert MadeOf(p + q, seps);
    ConcatAppend(p, q);
  }

  lemma GapMore(g: string, seps: set<string>, more: set<string>)
    requires IsGap(g, seps) && seps <= more
    ensures IsGap(g, more)
  {
    var p :| MadeOf(p, seps) && Concat(p) == g;
    assert MadeOf(p, more);
  }

  lemma GapNeedsSeparators(g: string, seps: set<string>)
    ensures IsGap(g, seps) && g != "" ==> seps != {}
  {
    if IsGap(g, seps) {
      var p :| MadeOf(p, seps) && Concat(p) == g;
      if p != [] {
        assert p[0] in seps;
      }
    }
  }

  // The text from `a` to `b`, if there is any, is a gap.
  ghost predicate Between(text: string, a: nat, b: nat, seps: set<string>) {
    a < b ==> b <= |text| && IsGap(text[a..b], seps)
  }

  predicate Slices(text: string, chunks: seq<string>, spans: seq<Span>) {
    && |chunks| == |spans|
    && forall k :: 0 <= k < |spans| ==> IsSlice(text, chunks[k], spans[k])
  }

  predicate IsSlice(text: string, chunk: string, s: Span) {
    s.start < s.end <= |text| && chunk == text[s.start..s.end]
  }

  // Both ends advance, the overlap is bounded, and between the two is at most a gap.
  ghost predicate Neighbours(text: string, a: Span, b: Span, overlap: int, seps: set<string>) {
    && a.start < b.start && a.end < b.end
    && a.end - b.start <= overlap
    && Between(text, a.end, b.start, seps)
  }

  ghost predicate Chain(text: string, spans: seq<Span>, overlap: int, seps: set<string>) {
    forall k :: 0 <= k < |spans| - 1 ==> Neighbours(text, spans[k], spans[k + 1], overlap, seps)
  }

  function First(text: string, spans: seq<Span>): nat {
    if spans == [] then |text| else spans[0].start
  }

  function Last(spans: seq<Span>): nat {
    if spans == [] then 0 else spans[|spans| - 1].end
  }

  // The chunks are stretches of the text, and all that is in none of them is separators.
  ghost predicate Covers(text: string, chunks: seq<string>, spans: seq<Span>, overlap: int, seps: set<string>) {
    && Slices(text, chunks, spans) && Chain(text, spans, overlap, seps)
    && Between(text, 0, First(text, spans), seps)
    && Between(text, Last(spans), |text|, seps)
  }

  // The stretch from `x` to `y` lies within one chunk.
  predicate Inside(spans: seq<Span>, x: nat, y: nat) {
    exists k :: 0 <= k < |spans| && spans[k].start <= x && y <= spans[k].end
  }

  predicate SizesOk(chunks: seq<string>, size: int) {
    forall k :: 0 <= k < |chunks| ==> 1 <= |chunks[k]| <= size
  }

  // ---- Nothing is left out ----

  // The chunks start at the beginning, end at the end, advance at both ends, leave
  // no gap, and two neighbours share at most `overlap` characters.
  predicate CoversAll(text: string, chunks: seq<string>, spans: seq<Span>, overlap: int) {
    && Slices(text, chunks, spans)
    && (text == "" <==> spans == [])
    && (spans != [] ==> spans[0].start == 0 && spans[|spans| - 1].end == |text|)
    && forall k :: 0 <= k < |spans| - 1 ==> Touch(spans[k], spans[k + 1], overlap)
  }

  predicate Touch(a: Span, b: Span, overlap: int) {
    a.start < b.start <= a.end < b.end && a.end - b.start <= overlap
  }

  lemma NoSeparatorsNoGap(text: string, chunks: seq<string>, spans: seq<Span>, overlap: int)
    requires Covers(text, chunks, spans, overlap, {})
    ensures CoversAll(text, chunks, spans, overlap)
  {
    forall a: nat, b: nat
      ensures Between(text, a, b, {}) ==> b <= a
    {
      if a < b <= |text| {
        GapNeedsSeparators(text[a..b], {});
      }
    }
    hide Between;
    forall k | 0 <= k < |spans| - 1
      ensures Touch(spans[k], spans[k + 1], overlap)
    {
      assert Neighbours(text, spans[k], spans[k + 1], overlap, {});
    }
    if spans != [] {
      assert IsSlice(text, chunks[0], spans[0]);
      assert IsSlice(text, chunks[|spans| - 1], spans[|spans| - 1]);
    }
  }

  // With no overlap the chunks concatenate to the text.
  lemma NoOverlapRejoins(text: string, chunks: seq<string>, spans: seq<Span>)
    requires CoversAll(text, chunks, spans, 0)
    ensures Concat(chunks) == text
  {
    ConcatToEnd(text, chunks, spans, |chunks|);
    assert chunks[..|chunks|] == chunks;
  }

  lemma {:induction false} ConcatToEnd(text: string, chunks: seq<string>, spans: seq<Span>, n: nat)
    requires CoversAll(text, chunks, spans, 0) && n <= |chunks|
    ensures n > 0 ==> IsSlice(text, chunks[n - 1], spans[n - 1])
    ensures Concat(chunks[..n]) == text[..if n == 0 then 0 else spans[n - 1].end]
  {
    if n > 0 {
      ConcatToEnd(text, chunks, spans, n - 1);
      assert chunks[..n][..n - 1] == chunks[..n - 1];
      assert IsSlice(text, chunks[n - 1], spans[n - 1]);
      if n > 1 {
        assert Touch(spans[n - 2], spans[n - 1], 0);
      }
    }
  }

  // ---- Side by side ----

  function Shift(spans: seq<Span>, d: nat): (r: seq<Span>)
    ensures |r| == |spans|
    ensures forall k :: 0 <= k < |spans| ==> r[k] == Span(spans[k].start + d, spans[k].end + d)
  {
    seq(|spans|, k requires 0 <= k < |spans| => Span(spans[k].start + d, spans[k].end + d))
  }

  lemma PrefixBetween(text: string, more: string, a: nat, b: nat, seps: set<string>)
    requires text <= more && Between(text, a, b, seps)
    ensures Between(more, a, b, seps)
  {
    if a < b {
      assert more[a..b] == text[a..b];
    }
  }

  lemma SuffixBetween(front: string, text: string, a: nat, b: nat, seps: set<string>)
    requires Between(text, a, b, seps)
    ensures Between(front + text, |front| + a, |front| + b, seps)
  {
    if a < b {
      assert (front + text)[|front| + a..|front| + b] == text[a..b];
    }
  }

  lemma BetweenJoins(text: string, a: nat, b: nat, c: nat, seps: set<string>)
    requires Between(text, a, b, seps) && Between(text, b, c, seps) && a <= b <= c
    ensures Between(text, a, c, seps)
  {
    if a < b < c {
      GapAppend(text[a..b], text[b..c], seps);
      hide IsGap;
      assert text[a..b] + text[b..c] == text[a..c];
    }
  }

  lemma PrefixCovers(text: string, more: string, chunks: seq<string>, spans: seq<Span>, overlap: int, seps: set<string>)
    requires text <= more && Slices(text, chunks, spans) && Chain(text, spans, overlap, seps)
    ensures Slices(more, chunks, spans) && Chain(more, spans, overlap, seps)
  {
    forall k | 0 <= k < |spans|
      ensures IsSlice(more, chunks[k], spans[k])
    {
      assert IsSlice(text, chunks[k], spans[k]);
      assert more[spans[k].start..spans[k].end] == text[spans[k].start..spans[k].end];
    }
    forall k | 0 <= k < |spans| - 1
      ensures Neighbours(more, spans[k], spans[k + 1], overlap, seps)
    {
      assert Neighbours(text, spans[k], spans[k + 1], overlap, seps);
      PrefixBetween(text, more, spans[k].end, spans[k + 1].start, seps);
    }
  }

  lemma ShiftSlices(front: string, text: string, chunks: seq<string>, spans: seq<Span>)
    requires Slices(text, chunks, spans)
    ensures Slices(front + text, chunks, Shift(spans, |front|))
  {
    var d, r := |front|, Shift(spans, |front|);
    forall k | 0 <= k < |spans|
      ensures IsSlice(front + text, chunks[k], r[k])
    {
      assert IsSlice(text, chunks[k], spans[k]);
      assert (front + text)[spans[k].start + d..spans[k].end + d] == text[spans[k].start..spans[k].end];
    }
  }

  lemma ShiftChain(front: string, text: string, spans: seq<Span>, overlap: int, seps: set<string>)
    requires Chain(text, spans, overlap, seps)
    ensures Chain(front + text, Shift(spans, |front|), overlap, seps)
  {
    var r := Shift(spans, |front|);
    forall k | 0 <= k < |spans| - 1
      ensures Neighbours(front + text, r[k], r[k + 1], overlap, seps)
    {
      assert Neighbours(text, spans[k], spans[k + 1], overlap, seps);
      SuffixBetween(front, text, spans[k].end, spans[k + 1].start, seps);
      hide Between;
    }
  }

  lemma ChainAppend(text: string, a: seq<Span>, b: seq<Span>, overlap: int, seps: set<string>)
    requires Chain(text, a, overlap, seps) && Chain(text, b, overlap, seps)
    requires a != [] && b != [] ==> Neighbours(text, a[|a| - 1], b[0], overlap, seps)
    ensures Chain(text, a + b, overlap, seps)
  {
    var r := a + b;
    forall k | 0 <= k < |r| - 1
      ensures Neighbours(text, r[k], r[k + 1], overlap, seps)
    {
      if k < |a| - 1 {
        assert Neighbours(text, a[k], a[k + 1], overlap, seps);
      } else if k >= |a| {
        assert Neighbours(text, b[k - |a|], b[k - |a| + 1], overlap, seps);
      }
    }
  }

  lemma SlicesAppend(text: string, ca: seq<string>, sa: seq<Span>, cb: seq<string>, sb: seq<Span>)
    requires Slices(text, ca, sa) && Slices(text, cb, sb)
    ensures Slices(text, ca + cb, sa + sb)
  {
    forall k | 0 <= k < |sa + sb|
      ensures IsSlice(text, (ca + cb)[k], (sa + sb)[k])
    {
      if k < |sa| {
        assert IsSlice(text, ca[k], sa[k]);
      } else {
        assert IsSlice(text, cb[k - |sa|], sb[k - |sa|]);
      }
    }
  }

  // Two covered texts with a separator, or nothing, between them.
  lemma CoversAppend(
    a: string, ca: seq<string>, sa: seq<Span>, mid: string, b: string, cb: seq<string>, sb: seq<Span>,
    overlap: nat, seps: set<string>)
    requires Covers(a, ca, sa, overlap, seps) && Covers(b, cb, sb, overlap, seps) && IsGap(mid, seps)
    ensures Covers(a + mid + b, ca + cb, sa + Shift(sb, |a + mid|), overlap, seps)
  {
    var all, d, r := a + mid + b, |a + mid|, Shift(sb, |a + mid|);
    PrefixCovers(a, all, ca, sa, overlap, seps);
    ShiftSlices(a + mid, b, cb, sb);
    ShiftChain(a + mid, b, sb, overlap, seps);
    SlicesAppend(all, ca, sa, cb, r);
    SpansInText(a, ca, sa);
    SpansInText(b, cb, sb);
    GapsBetween(a, sa, mid, b, sb, seps);
    hide Between;
    if sa != [] && sb != [] {
      assert IsSlice(a, ca[|sa| - 1], sa[|sa| - 1]) && IsSlice(b, cb[0], sb[0]);
    }
    ChainAppend(all, sa, r, overlap, seps);
  }

  lemma SpansInText(text: string, chunks: seq<string>, spans: seq<Span>)
    requires Slices(text, chunks, spans)
    ensures Last(spans) <= |text| && First(text, spans) <= |text|
  {
    if spans != [] {
      assert IsSlice(text, chunks[0], spans[0]) && IsSlice(text, chunks[|spans| - 1], spans[|spans| - 1]);
    }
  }

  lemma GapsBetween(a: string, sa: seq<Span>, mid: string, b: string, sb: seq<Span>, seps: set<string>)
    requires Between(a, 0, First(a, sa), seps) && Between(a, Last(sa), |a|, seps) && Last(sa) <= |a| && First(a, sa) <= |a|
    requires Between(b, 0, First(b, sb), seps) && Between(b, Last(sb), |b|, seps) && IsGap(mid, seps)
    requires Last(sb) <= |b| && First(b, sb) <= |b|
    ensures var all, r := a + mid + b, Shift(sb, |a + mid|);
      && Between(all, 0, First(all, sa + r), seps)
      && Between(all, Last(sa + r), |all|, seps)
      && (sa != [] && sb != [] ==> Between(all, Last(sa), r[0].start, seps))
  {
    var all, d := a + mid + b, |a + mid|;
    hide IsGap;
    assert Between(all, 0, First(a, sa), seps) && Between(all, Last(sa), |a|, seps) by {
      PrefixBetween(a, all, 0, First(a, sa), seps);
      PrefixBetween(a, all, Last(sa), |a|, seps);
    }
    assert Between(all, |a|, d, seps) by {
      MiddleIsGap(a, mid, b, seps);
    }
    assert Between(all, d, d + First(b, sb), seps) && Between(all, d + Last(sb), |all|, seps) by {
      SuffixBetween(a + mid, b, 0, First(b, sb), seps);
      SuffixBetween(a + mid, b, Last(sb), |b|, seps);
    }
    hide Between;
    GapsMeet(all, |a|, d, sa, Shift(sb, d), d + First(b, sb), d + Last(sb), seps);
  }

  lemma GapsMeet(
    all: string, na: nat, d: nat, sa: seq<Span>, sb: seq<Span>, first: nat, last: nat, seps: set<string>)
    requires na <= d <= first && Last(sa) <= na && (sb == [] ==> first == |all| && last == d)
    requires sb != [] ==> first == sb[0].start && last == sb[|sb| - 1].end
    requires Between(all, 0, if sa == [] then na else sa[0].start, seps)
    requires Between(all, Last(sa), na, seps) && Between(all, na, d, seps) && Between(all, d, first, seps)
    requires Between(all, last, |all|, seps)
    ensures Between(all, 0, First(all, sa + sb), seps)
    ensures Between(all, Last(sa + sb), |all|, seps)
    ensures sa != [] && sb != [] ==> Between(all, Last(sa), sb[0].start, seps)
  {
    BetweenJoins(all, Last(sa), na, d, seps);
    BetweenJoins(all, Last(sa), d, first, seps);
    EndsOfAppend(all, sa, sb);
    hide Between;
  }

  lemma EndsOfAppend(text: string, a: seq<Span>, b: seq<Span>)
    ensures First(text, a + b) == if a == [] then First(text, b) else First(text, a)
    ensures Last(a + b) == if b == [] then Last(a) else Last(b)
  {
    if b == [] {
      assert a + b == a;
    }
  }

  lemma MiddleIsGap(a: string, mid: string, b: string, seps: set<string>)
    requires IsGap(mid, seps)
    ensures Between(a + mid + b, |a|, |a + mid|, seps)
  {
    assert (a + mid + b)[|a|..|a + mid|] == mid;
  }

  lemma InsideAppend(sa: seq<Span>, sb: seq<Span>, d: nat, x: nat, y: nat)
    ensures Inside(sa, x, y) ==> Inside(sa + Shift(sb, d), x, y)
    ensures Inside(sb, x, y) ==> Inside(sa + Shift(sb, d), x + d, y + d)
  {
    var r := sa + Shift(sb, d);
    if Inside(sa, x, y) {
      var k :| 0 <= k < |sa| && sa[k].start <= x && y <= sa[k].end;
      assert r[k] == sa[k];
    }
    if Inside(sb, x, y) {
      var k :| 0 <= k < |sb| && sb[k].start <= x && y <= sb[k].end;
      assert r[|sa| + k] == Shift(sb, d)[k];
    }
  }

  lemma CoversMore(
    text: string, chunks: seq<string>, spans: seq<Span>, overlap: int, wider: int, seps: set<string>, more: set<string>)
    requires Covers(text, chunks, spans, overlap, seps) && overlap <= wider && seps <= more
    ensures Covers(text, chunks, spans, wider, more)
  {
    forall a: nat, b: nat | Between(text, a, b, seps)
      ensures Between(text, a, b, more)
    {
      if a < b {
        GapMore(text[a..b], seps, more);
      }
    }
    forall k | 0 <= k < |spans| - 1
      ensures Neighbours(text, spans[k], spans[k + 1], wider, more)
    {
      assert Neighbours(text, spans[k], spans[k + 1], overlap, seps);
    }
  }

  // ---- A window that is still open ----

  // The finished chunks, and a window from `off` to the end of what was read.
  ghost predicate Pending(
    text: string, docs: seq<string>, spans: seq<Span>, off: nat, overlap: int, seps: set<string>)
  {
    && Slices(text, docs, spans) && off <= |text|
    && Chain(text, spans, overlap, seps)
    && Between(text, 0, if spans == [] then off else spans[0].start, seps)
    && (spans != [] ==> Neighbours(text, spans[|spans| - 1], Span(off, |text|), overlap, seps))
  }

  lemma PendingGrows(
    text: string, more: string, docs: seq<string>, spans: seq<Span>, off: nat, overlap: int, seps: set<string>)
    requires text <= more && Pending(text, docs, spans, off, overlap, seps)
    ensures Pending(more, docs, spans, off, overlap, seps)
  {
    PrefixCovers(text, more, docs, spans, overlap, seps);
    PrefixBetween(text, more, 0, if spans == [] then off else spans[0].start, seps);
    if spans != [] {
      PrefixBetween(text, more, spans[|spans| - 1].end, off, seps);
    }
  }

  // The window becomes a chunk and a new one opens at `next`.
  lemma PendingEmits(
    text: string, more: string, docs: seq<string>, spans: seq<Span>, off: nat, next: nat, overlap: int, seps: set<string>)
    requires text < more && Pending(text, docs, spans, off, overlap, seps)
    requires off < |text| && off < next <= |more| && |text| - next <= overlap
    requires Between(more, |text|, next, seps)
    ensures Pending(more, docs + [text[off..]], spans + [Span(off, |text|)], next, overlap, seps)
  {
    PendingGrows(text, more, docs, spans, off, overlap, seps);
    var last := Span(off, |text|);
    assert IsSlice(more, text[off..], last);
    SlicesAppend(more, docs, spans, [text[off..]], [last]);
    if spans != [] {
      assert Neighbours(text, spans[|spans| - 1], last, overlap, seps);
      PrefixBetween(text, more, spans[|spans| - 1].end, off, seps);
    }
    ChainAppend(more, spans, [last], overlap, seps);
  }

  // An empty window is dropped without a chunk.
  lemma PendingSkips(
    text: string, more: string, docs: seq<string>, spans: seq<Span>, next: nat, overlap: int, seps: set<string>)
    requires text < more && Pending(text, docs, spans, |text|, overlap, seps)
    requires |text| <= next <= |more| && Between(more, |text|, next, seps) && overlap >= 0
    ensures Pending(more, docs, spans, next, overlap, seps)
  {
    PendingGrows(text, more, docs, spans, |text|, overlap, seps);
    if spans == [] {
      BetweenJoins(more, 0, |text|, next, seps);
    } else {
      assert Neighbours(text, spans[|spans| - 1], Span(|text|, |text|), overlap, seps);
      BetweenJoins(more, spans[|spans| - 1].end, |text|, next, seps);
    }
  }

  lemma PendingEnds(text: string, docs: seq<string>, spans: seq<Span>, off: nat, overlap: int, seps: set<string>)
    requires Pending(text, docs, spans, off, overlap, seps)
    ensures off < |text| ==> Covers(text, docs + [text[off..]], spans + [Span(off, |text|)], overlap, seps)
    ensures off == |text| ==> Covers(text, docs, spans, overlap, seps)
  {
    if off < |text| {
      var last := Span(off, |text|);
      assert IsSlice(text, text[off..], last);
      SlicesAppend(text, docs, spans, [text[off..]], [last]);
      ChainAppend(text, spans, [last], overlap, seps);
    }
  }

  lemma InsideLonger(spans: seq<Span>, a: nat, e: nat, f: nat, x: nat, y: nat)
    requires Inside(spans + [Span(a, e)], x, y) && e <= f
    ensures Inside(spans + [Span(a, f)], x, y)
  {
    var r := spans + [Span(a, e)];
    var k :| 0 <= k < |r| && r[k].start <= x && y <= r[k].end;
    assert (spans + [Span(a, f)])[k].start <= x && y <= (spans + [Span(a, f)])[k].end;
  }

  lemma InsideMore(spans: seq<Span>, last: Span, x: nat, y: nat)
    ensures Inside(spans, x, y) ==> Inside(spans + [last], x, y)
    ensures last.start <= x && y <= last.end ==> Inside(spans + [last], x, y)
    ensures Inside(spans + [last], x, y) && x < y && last.start == last.end ==> Inside(spans, x, y)
  {
    var r := spans + [last];
    if Inside(spans, x, y) {
      var k :| 0 <= k < |spans| && spans[k].start <= x && y <= spans[k].end;
      assert r[k] == spans[k];
    }
    if last.start <= x && y <= last.end {
      assert r[|spans|] == last;
    }
    if Inside(r, x, y) && x < y && last.start == last.end {
      var k :| 0 <= k < |r| && r[k].start <= x && y <= r[k].end;
      assert r[k] == spans[k];
    }
  }
}
