// The windows of pieces that a greedy merge makes chunks of: each is filled as far
// as it goes, and the next one reaches back as far as the overlap allows.
module Windows {
  import opened Strings

  // The pieces `lo` to `hi`.
  datatype Window = Window(lo: nat, hi: nat)

  predicate Lies(splits: seq<string>, w: Window) {
    w.lo < w.hi <= |splits|
  }

  // How long the pieces `a` to `n` are when joined.
  function Length(splits: seq<string>, sep: string, a: nat, n: nat): nat
    requires a <= n <= |splits|
  {
    |Join(splits[a..n], sep)|
  }

  // The pieces `a` to `n` leave room for piece `n` behind them.
  predicate HasRoom(splits: seq<string>, sep: string, a: nat, n: nat, size: int)
    requires a <= n < |splits|
  {
    Length(splits, sep, a, n) + |sep| + |splits[n]| <= size
  }

  // What may be kept of a finished window in front of piece `n`.
  predicate MayKeep(splits: seq<string>, sep: string, a: nat, n: nat, size: int, overlap: int)
    requires a <= n < |splits|
  {
    a == n || (Length(splits, sep, a, n) <= overlap && HasRoom(splits, sep, a, n, size))
  }

  // `v` ends because the next piece does not fit, and `w` starts at the earliest piece that it may.
  predicate Follows(splits: seq<string>, sep: string, v: Window, w: Window, size: int, overlap: int)
    requires Lies(splits, v) && Lies(splits, w)
  {
    && v.hi < |splits| && !HasRoom(splits, sep, v.lo, v.hi, size)
    && w.lo <= v.hi < w.hi
    && MayKeep(splits, sep, w.lo, v.hi, size, overlap)
    && forall d :: 0 <= d < w.lo ==> !MayKeep(splits, sep, d, v.hi, size, overlap)
  }

  // A row of windows from the first piece up to piece `n`.
  predicate GreedyUpTo(splits: seq<string>, sep: string, n: nat, ws: seq<Window>, size: int, overlap: int) {
    && |ws| > 0 && ws[0].lo == 0 && ws[|ws| - 1].hi == n
    && (forall k :: 0 <= k < |ws| ==> Lies(splits, ws[k]) && Length(splits, sep, ws[k].lo, ws[k].hi) <= size)
    && forall k :: 0 <= k < |ws| - 1 ==> Follows(splits, sep, ws[k], ws[k + 1], size, overlap)
  }

  predicate Greedy(splits: seq<string>, sep: string, ws: seq<Window>, size: int, overlap: int) {
    if splits == [] then ws == [] else GreedyUpTo(splits, sep, |splits|, ws, size, overlap)
  }

  // What the windows put out: their joined pieces, except where that is nothing.
  function Texts(splits: seq<string>, sep: string, ws: seq<Window>): seq<string>
    requires forall k :: 0 <= k < |ws| ==> Lies(splits, ws[k])
  {
    if ws == [] then []
    else
      var w := ws[|ws| - 1];
      assert Lies(splits, w);
      var text := Join(splits[w.lo..w.hi], sep);
      Texts(splits, sep, ws[..|ws| - 1]) + if text != "" then [text] else []
  }

  // ---- Longer windows are longer ----

  lemma LengthSnoc(splits: seq<string>, sep: string, a: nat, n: nat)
    requires a <= n < |splits|
    ensures Length(splits, sep, a, n + 1) == Length(splits, sep, a, n) + |splits[n]| + if a < n then |sep| else 0
  {
    assert splits[a..n + 1] == splits[a..n] + [splits[n]];
    if a < n {
      JoinSnoc(splits[a..n], splits[n], sep);
    }
  }

  lemma LengthCons(splits: seq<string>, sep: string, a: nat, n: nat)
    requires a < n <= |splits|
    ensures Length(splits, sep, a, n) == Length(splits, sep, a + 1, n) + |splits[a]| + if a + 1 < n then |sep| else 0
  {
    assert splits[a..n][1..] == splits[a + 1..n];
    if a + 1 < n {
      JoinFront(splits[a..n], sep);
    }
  }

  lemma {:induction false} LongerBehind(splits: seq<string>, sep: string, a: nat, m: nat, n: nat)
    requires a < m <= n <= |splits|
    ensures Length(splits, sep, a, m) <= Length(splits, sep, a, n)
    decreases n
  {
    if m < n {
      LongerBehind(splits, sep, a, m, n - 1);
      LengthSnoc(splits, sep, a, n - 1);
    }
  }

  lemma {:induction false} LongerInFront(splits: seq<string>, sep: string, a: nat, b: nat, n: nat)
    requires a <= b <= n <= |splits|
    ensures Length(splits, sep, b, n) <= Length(splits, sep, a, n)
    decreases b
  {
    if a < b {
      LongerInFront(splits, sep, a, b - 1, n);
      LengthCons(splits, sep, b - 1, n);
    }
  }

  // What cannot be kept from `a` on cannot be kept from further in front either.
  lemma NothingInFront(splits: seq<string>, sep: string, d: nat, a: nat, n: nat, size: int, overlap: int)
    requires d <= a < n < |splits| && !HasRoom(splits, sep, a, n, size)
    ensures !MayKeep(splits, sep, d, n, size, overlap)
  {
    LongerInFront(splits, sep, d, a, n);
  }

  // ---- The merge, window by window ----

  lemma FirstWindow(splits: seq<string>, sep: string, size: int, overlap: int)
    requires splits != [] && |splits[0]| <= size
    ensures GreedyUpTo(splits, sep, 1, [Window(0, 1)], size, overlap)
  {
    assert splits[0..1] == [splits[0]];
  }

  // The last window takes one more piece.
  lemma WindowGrows(splits: seq<string>, sep: string, n: nat, ws: seq<Window>, a: nat, size: int, overlap: int)
    requires a < n < |splits| && GreedyUpTo(splits, sep, n, ws + [Window(a, n)], size, overlap)
    requires HasRoom(splits, sep, a, n, size)
    ensures GreedyUpTo(splits, sep, n + 1, ws + [Window(a, n + 1)], size, overlap)
  {
    LengthSnoc(splits, sep, a, n);
    var before, after := ws + [Window(a, n)], ws + [Window(a, n + 1)];
    hide Length, HasRoom, MayKeep;
    forall k | 0 <= k < |after|
      ensures Lies(splits, after[k]) && Length(splits, sep, after[k].lo, after[k].hi) <= size
    {
      assert Lies(splits, before[k]);
      assert k < |ws| ==> after[k] == before[k];
    }
    forall k | 0 <= k < |ws|
      ensures Follows(splits, sep, after[k], after[k + 1], size, overlap)
    {
      assert Follows(splits, sep, before[k], before[k + 1], size, overlap);
    }
    assert after[0].lo == before[0].lo;
  }

  // The last window is full, and the next one starts at `b`.
  lemma WindowCloses(splits: seq<string>, sep: string, n: nat, ws: seq<Window>, a: nat, b: nat, size: int, overlap: int)
    requires a <= b <= n && a < n < |splits| && GreedyUpTo(splits, sep, n, ws + [Window(a, n)], size, overlap)
    requires !HasRoom(splits, sep, a, n, size) && |splits[n]| <= size
    requires MayKeep(splits, sep, b, n, size, overlap)
    requires forall d :: a <= d < b ==> !MayKeep(splits, sep, d, n, size, overlap)
    ensures GreedyUpTo(splits, sep, n + 1, ws + [Window(a, n), Window(b, n + 1)], size, overlap)
  {
    LengthSnoc(splits, sep, b, n);
    if b == n {
      assert splits[n..n] == [];
    }
    forall d | 0 <= d < b
      ensures !MayKeep(splits, sep, d, n, size, overlap)
    {
      if d < a {
        NothingInFront(splits, sep, d, a, n, size, overlap);
      }
    }
    assert Follows(splits, sep, Window(a, n), Window(b, n + 1), size, overlap);
    var before, after := ws + [Window(a, n)], ws + [Window(a, n), Window(b, n + 1)];
    assert Length(splits, sep, b, n + 1) <= size;
    hide Length, HasRoom, MayKeep, Follows;
    forall k | 0 <= k < |after|
      ensures Lies(splits, after[k]) && Length(splits, sep, after[k].lo, after[k].hi) <= size
    {
      assert k <= |ws| ==> after[k] == before[k] && Lies(splits, before[k]);
    }
    forall k | 0 <= k < |after| - 1
      ensures Follows(splits, sep, after[k], after[k + 1], size, overlap)
    {
      if k < |ws| {
        assert Follows(splits, sep, before[k], before[k + 1], size, overlap);
      }
    }
    assert after[0].lo == before[0].lo;
  }

  // ---- The windows are determined ----

  // Two windows with the same start that are both filled as far as they go end at the same piece.
  lemma SameEnd(splits: seq<string>, sep: string, v: Window, w: Window, size: int)
    requires Lies(splits, v) && Lies(splits, w) && v.lo == w.lo
    requires v.hi < |splits| && !HasRoom(splits, sep, v.lo, v.hi, size)
    requires Length(splits, sep, w.lo, w.hi) <= size
    ensures w.hi <= v.hi
  {
    if v.hi < w.hi {
      LengthSnoc(splits, sep, v.lo, v.hi);
      LongerBehind(splits, sep, v.lo, v.hi + 1, w.hi);
    }
  }

  lemma SameStart(splits: seq<string>, sep: string, v: Window, w: Window, x: Window, size: int, overlap: int)
    requires Lies(splits, v) && Lies(splits, w) && Lies(splits, x)
    requires Follows(splits, sep, v, w, size, overlap) && Follows(splits, sep, v, x, size, overlap)
    ensures w.lo == x.lo
  {
  }

  lemma {:induction false} SameWindows(
    splits: seq<string>, sep: string, vs: seq<Window>, ws: seq<Window>, k: nat, size: int, overlap: int)
    requires Greedy(splits, sep, vs, size, overlap) && Greedy(splits, sep, ws, size, overlap)
    requires k <= |vs| && k <= |ws|
    ensures vs[..k] == ws[..k]
    ensures k < |vs| && k < |ws| ==> vs[k].lo == ws[k].lo
  {
    if k > 0 {
      SameWindows(splits, sep, vs, ws, k - 1, size, overlap);
      var v, w := vs[k - 1], ws[k - 1];
      assert Lies(splits, v) && Lies(splits, w);
      hide Length, HasRoom, MayKeep;
      if k < |vs| {
        assert Follows(splits, sep, vs[k - 1], vs[k - 1 + 1], size, overlap);
        SameEnd(splits, sep, v, w, size);
      }
      if k < |ws| {
        assert Follows(splits, sep, ws[k - 1], ws[k - 1 + 1], size, overlap);
        SameEnd(splits, sep, w, v, size);
      }
      assert v.hi == w.hi;
      assert vs[..k] == vs[..k - 1] + [v] && ws[..k] == ws[..k - 1] + [w];
      if k < |vs| && k < |ws| {
        SameStart(splits, sep, v, vs[k], ws[k], size, overlap);
      }
    }
  }

  // Pieces, sizes and overlap leave only one way to be greedy.
  lemma GreedyIsUnique(splits: seq<string>, sep: string, vs: seq<Window>, ws: seq<Window>, size: int, overlap: int)
    requires Greedy(splits, sep, vs, size, overlap) && Greedy(splits, sep, ws, size, overlap)
    ensures vs == ws
  {
    if splits != [] {
      var k := if |vs| <= |ws| then |vs| else |ws|;
      SameWindows(splits, sep, vs, ws, k, size, overlap);
      assert vs[k - 1] == vs[..k][k - 1] && ws[k - 1] == ws[..k][k - 1];
      EndsOnce(splits, sep, vs, k - 1, size, overlap);
      EndsOnce(splits, sep, ws, k - 1, size, overlap);
      assert vs[..|vs|] == vs && ws[..|ws|] == ws;
    }
  }

  // Only the last window ends with the last piece.
  lemma EndsOnce(splits: seq<string>, sep: string, ws: seq<Window>, k: nat, size: int, overlap: int)
    requires Greedy(splits, sep, ws, size, overlap) && k < |ws|
    ensures ws[k].hi == |splits| <==> k == |ws| - 1
  {
    if k < |ws| - 1 {
      assert Follows(splits, sep, ws[k], ws[k + 1], size, overlap);
    }
  }
}
