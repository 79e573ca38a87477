// What a fused hit says, read off the channels: its score as a sum over raw
// positions, the hit it takes its text from, and what breaks a tie.
module FusionLaws {
  import opened Fusion

  // The first hit of the list with the id is at position `r`, from 0.
  predicate FirstAt(hits: seq<SearchHit>, id: string, r: nat) {
    r < |hits| && hits[r].id == id && forall j :: 0 <= j < r ==> hits[j].id != id
  }

  predicate Missing(hits: seq<SearchHit>, id: string) {
    forall j :: 0 <= j < |hits| ==> hits[j].id != id
  }

  // One over `k` plus the position counted from 1, or nothing.
  ghost predicate IsShare(k: nat, hits: seq<SearchHit>, id: string, x: real)
    requires k > 0
  {
    || (Missing(hits, id) && x == 0.0)
    || exists r: nat :: FirstAt(hits, id, r) && x == 1.0 / (k as real + r as real + 1.0)
  }

  function Sum(xs: seq<real>): real {
    if |xs| == 0 then 0.0 else Sum(xs[..|xs| - 1]) + xs[|xs| - 1]
  }

  lemma RankIsFirst(hits: seq<SearchHit>, id: string, r: nat)
    requires FirstAt(hits, id, r)
    ensures RankOf(hits, id) == r + 1
  {
  }

  lemma ShareIs(k: nat, hits: seq<SearchHit>, id: string, x: real)
    requires k > 0 && IsShare(k, hits, id, x)
    ensures Share(k, hits, id) == x
  {
    if Missing(hits, id) {
      assert RankOf(hits, id) == 0;
    } else {
      var r: nat :| FirstAt(hits, id, r) && x == 1.0 / (k as real + r as real + 1.0);
      RankIsFirst(hits, id, r);
      assert (k + (r + 1)) as real == k as real + r as real + 1.0;
    }
  }

  lemma {:induction false} ScoreIs(k: nat, channels: seq<Channel>, id: string, shares: seq<real>)
    requires k > 0 && |shares| == |channels|
    requires forall c :: 0 <= c < |channels| ==> IsShare(k, channels[c].hits, id, shares[c])
    ensures Score(k, channels, id) == Sum(shares)
  {
    if |channels| > 0 {
      var n := |channels| - 1;
      ScoreIs(k, channels[..n], id, shares[..n]);
      ShareIs(k, channels[n].hits, id, shares[n]);
    }
  }

  // The score of a fused hit is the sum over the channels of 1 / (k + rank).
  lemma ScoreIsSumOfReciprocals(k: nat, channels: seq<Channel>, fused: seq<FusedHit>, i: nat, shares: seq<real>)
    requires k > 0 && IsFusion(k, channels, fused) && i < |fused| && |shares| == |channels|
    requires forall c :: 0 <= c < |channels| ==> IsShare(k, channels[c].hits, fused[i].id, shares[c])
    ensures fused[i].score == Sum(shares)
  {
    assert IsHitOf(k, channels, fused[i]);
    ScoreIs(k, channels, fused[i].id, shares);
  }

  lemma {:induction false} RepresentativeIs(channels: seq<Channel>, id: string, c: nat, r: nat)
    requires c < |channels| && FirstAt(channels[c].hits, id, r)
    requires forall b :: 0 <= b < c ==> Missing(channels[b].hits, id)
    ensures Found(channels, id) && Representative(channels, id) == channels[c].hits[r]
  {
    RankIsFirst(channels[c].hits, id, r);
    assert Has(channels[c], id);
    var n := |channels| - 1;
    if c < n {
      RepresentativeIs(channels[..n], id, c, r);
    } else {
      forall b | 0 <= b < n
        ensures !Has(channels[..n][b], id)
      {
        assert Missing(channels[b].hits, id);
      }
    }
  }

  // Text and metadata come from the first hit of the first channel that has the id, and
  // each channel that has it is named with the raw position and score there.
  lemma HitTellsWhereItCameFrom(
    k: nat, channels: seq<Channel>, fused: seq<FusedHit>, i: nat, c: nat, r: nat)
    requires k > 0 && IsFusion(k, channels, fused) && i < |fused| && DistinctNames(channels)
    requires c < |channels| && FirstAt(channels[c].hits, fused[i].id, r)
    ensures channels[c].name in fused[i].contributions
    ensures fused[i].contributions[channels[c].name] == RankContribution(r + 1, channels[c].hits[r].score)
    ensures (forall b :: 0 <= b < c ==> Missing(channels[b].hits, fused[i].id)) ==>
      fused[i].text == channels[c].hits[r].text && fused[i].metadata == channels[c].hits[r].metadata
  {
    var id := fused[i].id;
    assert IsHitOf(k, channels, fused[i]);
    RankIsFirst(channels[c].hits, id, r);
    ContributionsAre(channels, id, channels[c].name, c);
    if forall b :: 0 <= b < c ==> Missing(channels[b].hits, id) {
      RepresentativeIs(channels, id, c, r);
    }
  }

  // A channel that does not have the id is not named.
  lemma OnlyChannelsThatHaveIt(k: nat, channels: seq<Channel>, fused: seq<FusedHit>, i: nat, c: nat)
    requires k > 0 && IsFusion(k, channels, fused) && i < |fused| && DistinctNames(channels)
    requires c < |channels| && Missing(channels[c].hits, fused[i].id)
    ensures channels[c].name !in fused[i].contributions
  {
    assert IsHitOf(k, channels, fused[i]);
    ContributionsAre(channels, fused[i].id, channels[c].name, c);
  }

  // The strings agree on `n` characters, and then `a` ends or has the smaller one.
  predicate SmallerAt(a: string, b: string, n: nat) {
    && n <= |a| && n < |b| && a[..n] == b[..n]
    && (n == |a| || a[n] < b[n])
  }

  // Ids are compared character by character.
  lemma {:induction false} LessIsLexicographic(a: string, b: string)
    ensures Less(a, b) <==> exists n: nat :: SmallerAt(a, b, n)
  {
    if b == "" || a == "" {
      if b != "" {
        assert SmallerAt(a, b, 0);
      }
    } else if a[0] != b[0] {
      if a[0] < b[0] {
        assert SmallerAt(a, b, 0);
      }
      forall n: nat | 0 < n <= |a| && n < |b|
        ensures !SmallerAt(a, b, n)
      {
        assert a[..n][0] == a[0] && b[..n][0] == b[0];
      }
    } else {
      LessIsLexicographic(a[1..], b[1..]);
      if n: nat :| SmallerAt(a[1..], b[1..], n) {
        assert a[..n + 1] == [a[0]] + a[1..][..n] && b[..n + 1] == [b[0]] + b[1..][..n];
        assert SmallerAt(a, b, n + 1);
      }
      if n: nat :| SmallerAt(a, b, n) {
        assert n > 0;
        assert a[1..][..n - 1] == a[..n][1..] && b[1..][..n - 1] == b[..n][1..];
        assert SmallerAt(a[1..], b[1..], n - 1);
      }
    }
  }

  // Of two hits with the same score the one with the smaller id comes first.
  lemma TieGoesToSmallerId(k: nat, channels: seq<Channel>, fused: seq<FusedHit>, i: nat, j: nat, n: nat)
    requires k > 0 && IsFusion(k, channels, fused) && i < |fused| && j < |fused| && fused[i].score == fused[j].score
    requires SmallerAt(fused[i].id, fused[j].id, n)
    ensures i < j
  {
    LessIsLexicographic(fused[i].id, fused[j].id);
    hide IsHitOf, Found, Less;
    assert Before(Keys(fused)[i], Keys(fused)[j]);
    assert j < i ==> Before(Keys(fused)[j], Keys(fused)[i]);
    BeforeIsStrict(Keys(fused)[i], Keys(fused)[j]);
    BeforeIsStrict(Keys(fused)[i], Keys(fused)[i]);
  }
}
