// Reciprocal rank fusion of several retrieval channels, over exact reals.
module Fusion {
  import opened Wrappers
  import opened Strings

  datatype SearchHit = SearchHit(id: string, text: string, score: real, metadata: map<string, string>)

  // A named channel with its hits, best first. A hit may occur more than once.
  datatype Channel = Channel(name: string, hits: seq<SearchHit>)

  datatype RankContribution = RankContribution(rank: nat, score: real)

  datatype FusedHit = FusedHit(
    id: string, text: string, score: real, metadata: map<string, string>,
    contributions: map<string, RankContribution>)

  datatype FusionError = BadK | BlankChannelName

  // ---- The specification ----

  // The position, from 1, of the first hit with this id, or 0.
  function RankOf(hits: seq<SearchHit>, id: string): (r: nat)
    ensures r > 0 ==> r <= |hits| && hits[r - 1].id == id && forall j :: 0 <= j < r - 1 ==> hits[j].id != id
    ensures r == 0 ==> forall j :: 0 <= j < |hits| ==> hits[j].id != id
  {
    if |hits| == 0 then 0
    else
      var r := RankOf(hits[..|hits| - 1], id);
      if r > 0 then r else if hits[|hits| - 1].id == id then |hits| else 0
  }

  function Reciprocal(k: nat, rank: nat): (s: real)
    requires k > 0
    ensures s > 0.0
  {
    1.0 / (k + rank) as real
  }

  // What one channel gives an id.
  function Share(k: nat, hits: seq<SearchHit>, id: string): (s: real)
    requires k > 0
    ensures s >= 0.0 && (s > 0.0 <==> RankOf(hits, id) > 0)
  {
    if RankOf(hits, id) == 0 then 0.0 else Reciprocal(k, RankOf(hits, id))
  }

  function Score(k: nat, channels: seq<Channel>, id: string): real
    requires k > 0
  {
    if |channels| == 0 then 0.0
    else Score(k, channels[..|channels| - 1], id) + Share(k, channels[|channels| - 1].hits, id)
  }

  predicate Has(c: Channel, id: string) {
    RankOf(c.hits, id) > 0
  }

  predicate Found(channels: seq<Channel>, id: string) {
    exists i :: 0 <= i < |channels| && Has(channels[i], id)
  }

  // The first hit of the first channel that has the id.
  function Representative(channels: seq<Channel>, id: string): (r: SearchHit)
    requires Found(channels, id)
  {
    var n := |channels| - 1;
    if Found(channels[..n], id) then Representative(channels[..n], id)
    else channels[n].hits[RankOf(channels[n].hits, id) - 1]
  }

  // The rank and raw score of the id in each channel that has it.
  function Contributions(channels: seq<Channel>, id: string): map<string, RankContribution> {
    if |channels| == 0 then map[]
    else
      var n := |channels| - 1;
      if Has(channels[n], id) then Contributions(channels[..n], id)[channels[n].name := ContributionOf(channels[n], id)]
      else Contributions(channels[..n], id)
  }

  function ContributionOf(c: Channel, id: string): RankContribution
    requires Has(c, id)
  {
    RankContribution(RankOf(c.hits, id), c.hits[RankOf(c.hits, id) - 1].score)
  }

  predicate Less(a: string, b: string) {
    if b == "" then false
    else if a == "" then true
    else a[0] < b[0] || (a[0] == b[0] && Less(a[1..], b[1..]))
  }

  datatype Key = Key(id: string, score: real)

  // Higher score first, then smaller id.
  predicate Before(a: Key, b: Key) {
    a.score > b.score || (a.score == b.score && Less(a.id, b.id))
  }

  predicate Sorted(keys: seq<Key>) {
    forall i, j :: 0 <= i < j < |keys| ==> Before(keys[i], keys[j])
  }

  function KeyOf(f: FusedHit): Key {
    Key(f.id, f.score)
  }

  function Keys(fused: seq<FusedHit>): (r: seq<Key>)
    ensures |r| == |fused| && forall i :: 0 <= i < |fused| ==> r[i] == KeyOf(fused[i])
  {
    seq(|fused|, i requires 0 <= i < |fused| => KeyOf(fused[i]))
  }

  function FusedOf(k: nat, channels: seq<Channel>, id: string): FusedHit
    requires k > 0 && Found(channels, id)
  {
    var hit := Representative(channels, id);
    FusedHit(id, hit.text, Score(k, channels, id), hit.metadata, Contributions(channels, id))
  }

  // The fused list: every id of the input once, with its score, in the strict order.
  ghost predicate IsFusion(k: nat, channels: seq<Channel>, fused: seq<FusedHit>)
    requires k > 0
  {
    && (forall i :: 0 <= i < |fused| ==> IsHitOf(k, channels, fused[i]))
    && (forall id :: Found(channels, id) ==> FusedOf(k, channels, id) in fused)
    && Sorted(Keys(fused))
  }

  predicate IsHitOf(k: nat, channels: seq<Channel>, f: FusedHit)
    requires k > 0
  {
    Found(channels, f.id) && f == FusedOf(k, channels, f.id)
  }

  // ---- The order is strict and total ----

  lemma {:induction false} LessTotal(a: string, b: string)
    ensures a == b || Less(a, b) || Less(b, a)
    ensures !(Less(a, b) && Less(b, a)) && !Less(a, a)
  {
    if a != "" && b != "" {
      assert a == [a[0]] + a[1..] && b == [b[0]] + b[1..];
      LessTotal(a[1..], b[1..]);
    }
    if a != "" {
      LessTotal(a[1..], a[1..]);
    }
  }

  lemma {:induction false} LessTransitive(a: string, b: string, c: string)
    requires Less(a, b) && Less(b, c)
    ensures Less(a, c)
  {
    if a != "" && a[0] == b[0] && b[0] == c[0] {
      LessTransitive(a[1..], b[1..], c[1..]);
    }
  }

  lemma BeforeTransitive(a: Key, b: Key, c: Key)
    requires Before(a, b) && Before(b, c)
    ensures Before(a, c)
  {
    if a.score == c.score {
      LessTransitive(a.id, b.id, c.id);
    }
  }

  lemma BeforeIsStrict(a: Key, b: Key)
    ensures !(Before(a, b) && Before(b, a))
    ensures a.id != b.id ==> Before(a, b) || Before(b, a)
  {
    LessTotal(a.id, b.id);
  }

  // Two strictly sorted lists with the same elements are the same list.
  lemma {:induction false} SortedIsUnique(a: seq<Key>, b: seq<Key>)
    requires Sorted(a) && Sorted(b) && forall x :: x in a <==> x in b
    ensures a == b
  {
    SameEmptiness(a, b);
    if a != [] {
      HeadsMeet(a, b);
      forall x
        ensures x in a[1..] <==> x in b[1..]
      {
        HeadIsOnce(a, x);
        HeadIsOnce(b, x);
      }
      SortedIsUnique(a[1..], b[1..]);
      assert a == [a[0]] + a[1..] && b == [b[0]] + b[1..];
    }
  }

  lemma SameEmptiness(a: seq<Key>, b: seq<Key>)
    requires forall x :: x in a <==> x in b
    ensures a == [] <==> b == []
  {
    if a != [] {
      assert a[0] in b;
    }
    if b != [] {
      assert b[0] in a;
    }
  }

  lemma HeadIsOnce(a: seq<Key>, x: Key)
    requires Sorted(a) && a != []
    ensures x in a[1..] <==> x in a && x != a[0]
  {
    assert a == [a[0]] + a[1..];
    if x in a[1..] {
      var i :| 0 <= i < |a[1..]| && a[1..][i] == x;
      assert Before(a[0], a[i + 1]);
      BeforeIsStrict(a[0], x);
    }
  }

  lemma HeadsMeet(a: seq<Key>, b: seq<Key>)
    requires Sorted(a) && Sorted(b) && a != [] && b != [] && forall x :: x in a <==> x in b
    ensures a[0] == b[0]
  {
    assert a[0] in b && b[0] in a;
    var i :| 0 <= i < |b| && b[i] == a[0];
    var j :| 0 <= j < |a| && a[j] == b[0];
    BeforeIsStrict(a[0], b[0]);
  }

  // ---- Adding one hit to the last channel ----

  function With(front: seq<Channel>, name: string, hits: seq<SearchHit>): seq<Channel> {
    front + [Channel(name, hits)]
  }

  lemma FoundWith(front: seq<Channel>, name: string, hits: seq<SearchHit>, id: string)
    ensures Found(With(front, name, hits), id) <==> Found(front, id) || RankOf(hits, id) > 0
  {
    var all := With(front, name, hits);
    if Found(front, id) {
      var i :| 0 <= i < |front| && Has(front[i], id);
      assert Has(all[i], id);
    }
    if RankOf(hits, id) > 0 {
      assert Has(all[|front|], id);
    }
    if Found(all, id) {
      var i :| 0 <= i < |all| && Has(all[i], id);
      if i < |front| {
        assert Has(front[i], id);
      }
    }
  }

  lemma FoundInPrefix(channels: seq<Channel>, n: nat, id: string)
    requires n <= |channels|
    ensures Found(channels[..n], id) ==> Found(channels, id)
  {
    if Found(channels[..n], id) {
      var i :| 0 <= i < n && Has(channels[..n][i], id);
      assert Has(channels[i], id);
    }
  }

  lemma {:induction false} NotFoundNoScore(k: nat, channels: seq<Channel>, id: string)
    requires k > 0 && !Found(channels, id)
    ensures Score(k, channels, id) == 0.0 && Contributions(channels, id) == map[]
  {
    if |channels| > 0 {
      var n := |channels| - 1;
      assert !Has(channels[n], id);
      FoundInPrefix(channels, n, id);
      NotFoundNoScore(k, channels[..n], id);
    }
  }

  // What the three tables hold for an id, and what they should hold.
  datatype Entry = Absent | Entry(hit: SearchHit, score: real, contributions: map<string, RankContribution>)

  function EntryOf(k: nat, channels: seq<Channel>, id: string): Entry
    requires k > 0
  {
    if Found(channels, id) then Entry(Representative(channels, id), Score(k, channels, id), Contributions(channels, id))
    else Absent
  }

  function Lookup(
    representatives: map<string, SearchHit>, scores: map<string, real>,
    contributions: map<string, map<string, RankContribution>>, id: string): Entry
    requires representatives.Keys == scores.Keys == contributions.Keys
  {
    if id in scores then Entry(representatives[id], scores[id], contributions[id]) else Absent
  }

  ghost predicate Tables(
    k: nat, channels: seq<Channel>, representatives: map<string, SearchHit>, scores: map<string, real>,
    contributions: map<string, map<string, RankContribution>>)
    requires k > 0
  {
    && representatives.Keys == scores.Keys == contributions.Keys
    && forall id :: Lookup(representatives, scores, contributions, id) == EntryOf(k, channels, id)
  }

  // What one more channel does to an entry.
  function Extend(e: Entry, k: nat, name: string, hits: seq<SearchHit>, id: string): Entry
    requires k > 0
  {
    var r := RankOf(hits, id);
    if r == 0 then e
    else
      var share, given := Reciprocal(k, r), RankContribution(r, hits[r - 1].score);
      match e
      case Absent => Entry(hits[r - 1], share, map[name := given])
      case Entry(hit, score, contributions) => Entry(hit, score + share, contributions[name := given])
  }

  lemma EntryWith(k: nat, front: seq<Channel>, name: string, hits: seq<SearchHit>, id: string)
    requires k > 0
    ensures EntryOf(k, With(front, name, hits), id) == Extend(EntryOf(k, front, id), k, name, hits, id)
  {
    var all := With(front, name, hits);
    assert all[..|front|] == front;
    FoundWith(front, name, hits, id);
    if !Found(front, id) {
      NotFoundNoScore(k, front, id);
    }
    hide Found;
  }

  lemma RankSnoc(hits: seq<SearchHit>, h: nat, id: string)
    requires h < |hits|
    ensures RankOf(hits[..h + 1], id) ==
      if RankOf(hits[..h], id) > 0 then RankOf(hits[..h], id) else if hits[h].id == id then h + 1 else 0
  {
    assert hits[..h + 1][..h] == hits[..h];
  }

  // A hit changes the entry of its own id only, and only the first time.
  lemma EntrySnoc(k: nat, front: seq<Channel>, name: string, hits: seq<SearchHit>, h: nat, id: string)
    requires k > 0 && h < |hits|
    ensures var e := EntryOf(k, With(front, name, hits[..h]), id);
      EntryOf(k, With(front, name, hits[..h + 1]), id) ==
      if hits[h].id != id || RankOf(hits[..h], id) > 0 then e else FirstSeen(e, k, name, hits[h], h + 1)
  {
    EntryWith(k, front, name, hits[..h], id);
    EntryWith(k, front, name, hits[..h + 1], id);
    ExtendSnoc(EntryOf(k, front, id), k, name, hits, h, id);
    hide EntryOf, With, RankOf, Extend;
  }

  lemma ExtendSnoc(e: Entry, k: nat, name: string, hits: seq<SearchHit>, h: nat, id: string)
    requires k > 0 && h < |hits|
    ensures Extend(e, k, name, hits[..h + 1], id) ==
      var before := Extend(e, k, name, hits[..h], id);
      if hits[h].id != id || RankOf(hits[..h], id) > 0 then before else FirstSeen(before, k, name, hits[h], h + 1)
  {
    RankSnoc(hits, h, id);
    hide Reciprocal;
    var r := RankOf(hits[..h], id);
    if r > 0 {
      assert hits[..h + 1][r - 1] == hits[..h][r - 1];
    } else if hits[h].id == id {
      assert hits[..h + 1][h] == hits[h];
    }
  }

  function FirstSeen(e: Entry, k: nat, name: string, hit: SearchHit, rank: nat): Entry
    requires k > 0
  {
    var share, given := Reciprocal(k, rank), RankContribution(rank, hit.score);
    match e
    case Absent => Entry(hit, share, map[name := given])
    case Entry(h, score, contributions) => Entry(h, score + share, contributions[name := given])
  }

  // ---- The program ----

  function Insert(sorted: seq<FusedHit>, f: FusedHit): seq<FusedHit> {
    if sorted == [] || Before(KeyOf(f), KeyOf(sorted[0])) then [f] + sorted
    else [sorted[0]] + Insert(sorted[1..], f)
  }

  lemma {:induction false} InsertKeeps(sorted: seq<FusedHit>, f: FusedHit)
    requires Sorted(Keys(sorted)) && forall g :: g in sorted ==> g.id != f.id
    ensures Sorted(Keys(Insert(sorted, f))) && forall g :: g in Insert(sorted, f) <==> g in sorted || g == f
  {
    if sorted != [] {
      var head, tail := sorted[0], sorted[1..];
      assert sorted == [head] + tail;
      assert Keys(tail) == Keys(sorted)[1..];
      if Before(KeyOf(f), KeyOf(head)) {
        PrependKeeps(f, sorted);
      } else {
        InsertKeeps(tail, f);
        assert head in sorted;
        BeforeIsStrict(KeyOf(f), KeyOf(head));
        PrependAll(head, Insert(tail, f), tail, f);
      }
    }
  }

  lemma PrependKeeps(f: FusedHit, sorted: seq<FusedHit>)
    requires Sorted(Keys(sorted)) && sorted != [] && Before(KeyOf(f), KeyOf(sorted[0]))
    ensures Sorted(Keys([f] + sorted))
  {
    var all := [f] + sorted;
    forall i, j | 0 <= i < j < |all|
      ensures Before(Keys(all)[i], Keys(all)[j])
    {
      if i > 0 {
        assert Before(Keys(sorted)[i - 1], Keys(sorted)[j - 1]);
      } else if j > 1 {
        assert Before(Keys(sorted)[0], Keys(sorted)[j - 1]);
        BeforeTransitive(KeyOf(f), KeyOf(sorted[0]), KeyOf(sorted[j - 1]));
      }
    }
  }

  lemma PrependAll(head: FusedHit, rest: seq<FusedHit>, tail: seq<FusedHit>, f: FusedHit)
    requires Sorted(Keys(rest)) && Sorted(Keys([head] + tail)) && Before(KeyOf(head), KeyOf(f))
    requires forall g :: g in rest <==> g in tail || g == f
    ensures Sorted(Keys([head] + rest))
  {
    var all := [head] + rest;
    forall i, j | 0 <= i < j < |all|
      ensures Before(Keys(all)[i], Keys(all)[j])
    {
      if i > 0 {
        assert Before(Keys(rest)[i - 1], Keys(rest)[j - 1]);
      } else {
        assert all[j] in rest;
        if all[j] != f {
          var m :| 0 <= m < |tail| && tail[m] == all[j];
          assert Before(Keys([head] + tail)[0], Keys([head] + tail)[m + 1]);
        }
      }
    }
  }

  method ReciprocalRankFusion(channels: seq<Channel>, k: int) returns (r: Result<seq<FusedHit>, FusionError>)
    ensures r == Err(BadK) <==> k <= 0
    ensures r == Err(BlankChannelName) <==> k > 0 && exists i :: 0 <= i < |channels| && IsBlank(channels[i].name)
    ensures r.Ok? ==> IsFusion(k, channels, r.value)
  {
    if k <= 0 {
      return Err(BadK);
    }
    var representatives: map<string, SearchHit> := map[];
    var scores: map<string, real> := map[];
    var contributions: map<string, map<string, RankContribution>> := map[];
    for c := 0 to |channels|
      invariant Tables(k, channels[..c], representatives, scores, contributions)
      invariant forall i :: 0 <= i < c ==> !IsBlank(channels[i].name)
    {
      if IsBlank(channels[c].name) {
        return Err(BlankChannelName);
      }
      representatives, scores, contributions :=
        AddChannel(k, channels[..c], channels[c], representatives, scores, contributions);
      assert channels[..c] + [channels[c]] == channels[..c + 1];
    }
    assert channels[..|channels|] == channels;
    var fused := Collect(k, channels, representatives, scores, contributions);
    return Ok(fused);
  }

  // A repeated hit counts once per channel, at its first position.
  method AddChannel(
    k: nat, ghost front: seq<Channel>, channel: Channel, reps: map<string, SearchHit>, scs: map<string, real>,
    contribs: map<string, map<string, RankContribution>>)
    returns (
      representatives: map<string, SearchHit>, scores: map<string, real>,
      contributions: map<string, map<string, RankContribution>>)
    requires k > 0 && Tables(k, front, reps, scs, contribs)
    ensures Tables(k, front + [channel], representatives, scores, contributions)
  {
    representatives, scores, contributions := reps, scs, contribs;
    var name, hits := channel.name, channel.hits;
    var seen: set<string> := {};
    assert hits[..0] == [];
    NoHitsNoChange(k, front, name);
    for h := 0 to |hits|
      invariant Tables(k, With(front, name, hits[..h]), representatives, scores, contributions)
      invariant forall id :: id in seen <==> RankOf(hits[..h], id) > 0
    {
      seen, representatives, scores, contributions :=
        AddHit(k, front, name, hits, h, seen, representatives, scores, contributions);
    }
    assert hits[..|hits|] == hits;
    assert With(front, name, hits) == front + [channel];
  }

  method AddHit(
    k: nat, ghost front: seq<Channel>, name: string, hits: seq<SearchHit>, h: nat, before: set<string>,
    reps: map<string, SearchHit>, scs: map<string, real>, contribs: map<string, map<string, RankContribution>>)
    returns (
      seen: set<string>, representatives: map<string, SearchHit>, scores: map<string, real>,
      contributions: map<string, map<string, RankContribution>>)
    requires k > 0 && h < |hits| && Tables(k, With(front, name, hits[..h]), reps, scs, contribs)
    requires forall id :: id in before <==> RankOf(hits[..h], id) > 0
    ensures Tables(k, With(front, name, hits[..h + 1]), representatives, scores, contributions)
    ensures forall id :: id in seen <==> RankOf(hits[..h + 1], id) > 0
  {
    seen, representatives, scores, contributions := before, reps, scs, contribs;
    var hit := hits[h];
    hide RankOf, With, EntryOf, Lookup, Reciprocal;
    RankSnocs(hits, h);
    if hit.id in seen {
      SeenAgain(k, front, name, hits, h, reps, scs, contribs);
      return;
    }
    SeenFirst(k, front, name, hits, h, reps, scs, contribs);
    seen := seen + {hit.id};
    if hit.id !in representatives {
      representatives := representatives[hit.id := hit];
    }
    scores := scores[hit.id := (if hit.id in scores then scores[hit.id] else 0.0) + Reciprocal(k, h + 1)];
    var given := if hit.id in contributions then contributions[hit.id] else map[];
    contributions := contributions[hit.id := given[name := RankContribution(h + 1, hit.score)]];
  }

  // The tables after a hit that is new in its channel.
  function Enter(
    k: nat, name: string, hit: SearchHit, rank: nat, representatives: map<string, SearchHit>,
    scores: map<string, real>, contributions: map<string, map<string, RankContribution>>)
    : (map<string, SearchHit>, map<string, real>, map<string, map<string, RankContribution>>)
    requires k > 0
  {
    (if hit.id in representatives then representatives else representatives[hit.id := hit],
     scores[hit.id := (if hit.id in scores then scores[hit.id] else 0.0) + Reciprocal(k, rank)],
     contributions[hit.id := (if hit.id in contributions then contributions[hit.id] else map[])[name := RankContribution(rank, hit.score)]])
  }

  lemma NoHitsNoChange(k: nat, front: seq<Channel>, name: string)
    requires k > 0
    ensures forall id :: EntryOf(k, With(front, name, []), id) == EntryOf(k, front, id)
  {
    forall id
      ensures EntryOf(k, With(front, name, []), id) == EntryOf(k, front, id)
    {
      EntryWith(k, front, name, [], id);
    }
  }

  lemma RankSnocs(hits: seq<SearchHit>, h: nat)
    requires h < |hits|
    ensures forall id :: RankOf(hits[..h + 1], id) > 0 <==> RankOf(hits[..h], id) > 0 || id == hits[h].id
  {
    forall id
      ensures RankOf(hits[..h + 1], id) > 0 <==> RankOf(hits[..h], id) > 0 || id == hits[h].id
    {
      RankSnoc(hits, h, id);
    }
  }

  lemma SeenAgain(
    k: nat, front: seq<Channel>, name: string, hits: seq<SearchHit>, h: nat, reps: map<string, SearchHit>,
    scs: map<string, real>, contribs: map<string, map<string, RankContribution>>)
    requires k > 0 && h < |hits| && Tables(k, With(front, name, hits[..h]), reps, scs, contribs)
    requires RankOf(hits[..h], hits[h].id) > 0
    ensures Tables(k, With(front, name, hits[..h + 1]), reps, scs, contribs)
  {
    hide With, EntryOf, Lookup;
    var now := With(front, name, hits[..h + 1]);
    forall id
      ensures Lookup(reps, scs, contribs, id) == EntryOf(k, now, id)
    {
      EntrySnoc(k, front, name, hits, h, id);
    }
  }

  lemma SeenFirst(
    k: nat, front: seq<Channel>, name: string, hits: seq<SearchHit>, h: nat, reps: map<string, SearchHit>,
    scs: map<string, real>, contribs: map<string, map<string, RankContribution>>)
    requires k > 0 && h < |hits| && Tables(k, With(front, name, hits[..h]), reps, scs, contribs)
    requires RankOf(hits[..h], hits[h].id) == 0
    ensures var (reps', scs', contribs') := Enter(k, name, hits[h], h + 1, reps, scs, contribs);
      Tables(k, With(front, name, hits[..h + 1]), reps', scs', contribs')
  {
    hide With, EntryOf, RankOf;
    var now := With(front, name, hits[..h + 1]);
    var (reps', scs', contribs') := Enter(k, name, hits[h], h + 1, reps, scs, contribs);
    assert reps'.Keys == scs'.Keys == contribs'.Keys == scs.Keys + {hits[h].id};
    forall id
      ensures Lookup(reps', scs', contribs', id) == EntryOf(k, now, id)
    {
      EntrySnoc(k, front, name, hits, h, id);
    }
  }

  // Turn the tables into hits, in order.
  method Collect(
    k: nat, channels: seq<Channel>, representatives: map<string, SearchHit>, scores: map<string, real>,
    contributions: map<string, map<string, RankContribution>>)
    returns (fused: seq<FusedHit>)
    requires k > 0 && Tables(k, channels, representatives, scores, contributions)
    ensures IsFusion(k, channels, fused)
  {
    fused := [];
    var ids := scores.Keys;
    while ids != {}
      invariant ids <= scores.Keys
      invariant forall f :: f in fused ==> f.id !in ids && IsHitOf(k, channels, f)
      invariant forall id :: id in scores && id !in ids ==> Found(channels, id) && FusedOf(k, channels, id) in fused
      invariant Sorted(Keys(fused))
      decreases ids
    {
      var id :| id in ids;
      assert Lookup(representatives, scores, contributions, id) == EntryOf(k, channels, id);
      hide Found, Score, Contributions, Representative, Tables;
      var hit := FusedHit(id, representatives[id].text, scores[id], representatives[id].metadata, contributions[id]);
      assert hit == FusedOf(k, channels, id);
      InsertKeeps(fused, hit);
      fused := Insert(fused, hit);
      ids := ids - {id};
    }
    forall id | Found(channels, id)
      ensures FusedOf(k, channels, id) in fused
    {
      assert Lookup(representatives, scores, contributions, id) == EntryOf(k, channels, id);
    }
  }

  // ---- What the specification says ----

  // The input has only one fusion.
  lemma FusionIsUnique(k: nat, channels: seq<Channel>, a: seq<FusedHit>, b: seq<FusedHit>)
    requires k > 0 && IsFusion(k, channels, a) && IsFusion(k, channels, b)
    ensures a == b
  {
    SameKeys(k, channels, channels, a, b);
    forall i | 0 <= i < |a|
      ensures a[i] == b[i]
    {
      assert KeyOf(a[i]) == Keys(a)[i] == Keys(b)[i] == KeyOf(b[i]);
      assert IsHitOf(k, channels, a[i]) && IsHitOf(k, channels, b[i]);
    }
  }

  // The two inputs find the same ids with the same scores.
  ghost predicate SameScores(k: nat, a: seq<Channel>, b: seq<Channel>)
    requires k > 0
  {
    forall id :: (Found(a, id) <==> Found(b, id)) && Score(k, a, id) == Score(k, b, id)
  }

  lemma SameKeys(k: nat, ca: seq<Channel>, cb: seq<Channel>, a: seq<FusedHit>, b: seq<FusedHit>)
    requires k > 0 && IsFusion(k, ca, a) && IsFusion(k, cb, b) && SameScores(k, ca, cb)
    ensures Keys(a) == Keys(b)
  {
    forall x
      ensures x in Keys(a) <==> x in Keys(b)
    {
      if x in Keys(a) {
        KeysMeet(k, ca, cb, a, b, x);
      }
      if x in Keys(b) {
        KeysMeet(k, cb, ca, b, a, x);
      }
    }
    SortedIsUnique(Keys(a), Keys(b));
  }

  lemma KeysMeet(k: nat, ca: seq<Channel>, cb: seq<Channel>, a: seq<FusedHit>, b: seq<FusedHit>, x: Key)
    requires k > 0 && IsFusion(k, ca, a) && IsFusion(k, cb, b) && SameScores(k, ca, cb) && x in Keys(a)
    ensures x in Keys(b)
  {
    var i :| 0 <= i < |a| && Keys(a)[i] == x;
    assert IsHitOf(k, ca, a[i]);
    assert Found(cb, x.id);
    var f := FusedOf(k, cb, x.id);
    var j :| 0 <= j < |b| && b[j] == f;
    assert Keys(b)[j] == x;
  }

  predicate DistinctNames(channels: seq<Channel>) {
    forall i, j :: 0 <= i < j < |channels| ==> channels[i].name != channels[j].name
  }

  lemma {:induction false} ScoreRemove(k: nat, channels: seq<Channel>, j: nat, id: string)
    requires k > 0 && j < |channels|
    ensures Score(k, channels, id) == Score(k, channels[..j] + channels[j + 1..], id) + Share(k, channels[j].hits, id)
  {
    var n := |channels| - 1;
    if j < n {
      ScoreRemove(k, channels[..n], j, id);
      var rest := channels[..j] + channels[j + 1..];
      assert rest[..n - 1] == channels[..n][..j] + channels[..n][j + 1..];
      assert rest[n - 1] == channels[n];
    } else {
      assert channels[..j] + channels[j + 1..] == channels[..n];
    }
  }

  lemma {:induction false} ScorePermutes(k: nat, a: seq<Channel>, b: seq<Channel>, id: string)
    requires k > 0 && multiset(a) == multiset(b)
    ensures Score(k, a, id) == Score(k, b, id)
    decreases |a|
  {
    assert |a| == |multiset(a)| == |multiset(b)| == |b|;
    if |a| > 0 {
      var n := |a| - 1;
      assert a[n] in multiset(a);
      var j :| 0 <= j < |b| && b[j] == a[n];
      ScoreRemove(k, b, j, id);
      TakeOne(a, b, j);
      hide Share;
      ScorePermutes(k, a[..n], b[..j] + b[j + 1..], id);
    }
  }

  lemma TakeOne(a: seq<Channel>, b: seq<Channel>, j: nat)
    requires |a| > 0 && j < |b| && multiset(a) == multiset(b) && b[j] == a[|a| - 1]
    ensures multiset(a[..|a| - 1]) == multiset(b[..j] + b[j + 1..])
  {
    var n := |a| - 1;
    assert a == a[..n] + [a[n]];
    assert b == b[..j] + [b[j]] + b[j + 1..];
    assert multiset(a[..n]) == multiset(a) - multiset{a[n]};
    assert multiset(b[..j] + b[j + 1..]) == multiset(b) - multiset{b[j]};
  }

  lemma FoundPermutes(a: seq<Channel>, b: seq<Channel>, id: string)
    requires multiset(a) == multiset(b) && Found(a, id)
    ensures Found(b, id)
  {
    var i :| 0 <= i < |a| && Has(a[i], id);
    assert a[i] in multiset(b);
    var j :| 0 <= j < |b| && b[j] == a[i];
  }

  // What the contributions of an id are, channel by channel.
  lemma {:induction false} ContributionsAre(channels: seq<Channel>, id: string, name: string, i: nat)
    requires DistinctNames(channels) && i < |channels| && channels[i].name == name
    ensures name in Contributions(channels, id) <==> Has(channels[i], id)
    ensures Has(channels[i], id) ==> Contributions(channels, id)[name] == ContributionOf(channels[i], id)
  {
    var n := |channels| - 1;
    if i < n {
      ContributionsAre(channels[..n], id, name, i);
    } else {
      NoOtherName(channels[..n], id, name);
    }
  }

  lemma {:induction false} NoOtherName(channels: seq<Channel>, id: string, name: string)
    requires forall i :: 0 <= i < |channels| ==> channels[i].name != name
    ensures name !in Contributions(channels, id)
  {
    if |channels| > 0 {
      NoOtherName(channels[..|channels| - 1], id, name);
    }
  }

  lemma ContributionsAgree(a: seq<Channel>, b: seq<Channel>, id: string, name: string)
    requires multiset(a) == multiset(b) && DistinctNames(a) && DistinctNames(b) && name in Contributions(a, id)
    ensures name in Contributions(b, id) && Contributions(b, id)[name] == Contributions(a, id)[name]
  {
    if !(exists i :: 0 <= i < |a| && a[i].name == name) {
      NoOtherName(a, id, name);
    }
    var i :| 0 <= i < |a| && a[i].name == name;
    assert a[i] in multiset(b);
    var j :| 0 <= j < |b| && b[j] == a[i];
    ContributionsAre(a, id, name, i);
    ContributionsAre(b, id, name, j);
  }

  // Reordering the channels changes neither ids, scores, order nor contributions.
  lemma ChannelOrderIsIrrelevant(k: nat, ca: seq<Channel>, cb: seq<Channel>, a: seq<FusedHit>, b: seq<FusedHit>)
    requires k > 0 && IsFusion(k, ca, a) && IsFusion(k, cb, b)
    requires multiset(ca) == multiset(cb) && DistinctNames(ca) && DistinctNames(cb)
    ensures Keys(a) == Keys(b)
    ensures forall i :: 0 <= i < |a| ==> a[i].contributions == b[i].contributions
  {
    forall id
      ensures (Found(ca, id) <==> Found(cb, id)) && Score(k, ca, id) == Score(k, cb, id)
    {
      ScorePermutes(k, ca, cb, id);
      if Found(ca, id) {
        FoundPermutes(ca, cb, id);
      }
      if Found(cb, id) {
        FoundPermutes(cb, ca, id);
      }
    }
    SameKeys(k, ca, cb, a, b);
    forall i | 0 <= i < |a|
      ensures a[i].contributions == b[i].contributions
    {
      assert KeyOf(a[i]) == Keys(a)[i] == Keys(b)[i] == KeyOf(b[i]);
      assert IsHitOf(k, ca, a[i]) && IsHitOf(k, cb, b[i]);
      ContributionMapsAgree(ca, cb, a[i].id);
    }
  }

  lemma ContributionMapsAgree(a: seq<Channel>, b: seq<Channel>, id: string)
    requires multiset(a) == multiset(b) && DistinctNames(a) && DistinctNames(b)
    ensures Contributions(a, id) == Contributions(b, id)
  {
    forall name | name in Contributions(a, id)
      ensures name in Contributions(b, id) && Contributions(b, id)[name] == Contributions(a, id)[name]
    {
      ContributionsAgree(a, b, id, name);
    }
    forall name | name in Contributions(b, id)
      ensures name in Contributions(a, id)
    {
      ContributionsAgree(b, a, id, name);
    }
  }

  // `x` is at least as well placed as `y` in every channel that has `y`.
  predicate AtLeastAsGood(c: Channel, x: string, y: string) {
    Has(c, y) ==> Has(c, x) && RankOf(c.hits, x) <= RankOf(c.hits, y)
  }

  predicate Better(c: Channel, x: string, y: string) {
    Has(c, x) && (Has(c, y) ==> RankOf(c.hits, x) < RankOf(c.hits, y))
  }

  lemma ShareIsMonotone(k: nat, c: Channel, x: string, y: string)
    requires k > 0 && AtLeastAsGood(c, x, y)
    ensures Share(k, c.hits, x) >= Share(k, c.hits, y)
    ensures Better(c, x, y) ==> Share(k, c.hits, x) > Share(k, c.hits, y)
  {
    if Has(c, y) {
      Reciprocals((k + RankOf(c.hits, x)) as real, (k + RankOf(c.hits, y)) as real);
    }
  }

  lemma Reciprocals(a: real, b: real)
    requires 0.0 < a <= b
    ensures 1.0 / a >= 1.0 / b && (a < b ==> 1.0 / a > 1.0 / b)
  {
    assert 1.0 / a - 1.0 / b == (b - a) / (a * b);
  }

  lemma {:induction false} ScoreIsMonotone(k: nat, channels: seq<Channel>, x: string, y: string)
    requires k > 0 && forall i :: 0 <= i < |channels| ==> AtLeastAsGood(channels[i], x, y)
    ensures Score(k, channels, x) >= Score(k, channels, y)
    ensures (exists i :: 0 <= i < |channels| && Better(channels[i], x, y)) ==>
      Score(k, channels, x) > Score(k, channels, y)
  {
    if |channels| > 0 {
      var n := |channels| - 1;
      ScoreIsMonotone(k, channels[..n], x, y);
      assert AtLeastAsGood(channels[n], x, y);
      ShareIsMonotone(k, channels[n], x, y);
      hide Share, AtLeastAsGood, Better, RankOf;
      if i: nat :| i < |channels| && Better(channels[i], x, y) {
        if i < n {
          assert Better(channels[..n][i], x, y);
        }
      }
    }
  }

  // At least as well placed everywhere and better somewhere means earlier in the result.
  lemma DominanceDecides(
    k: nat, channels: seq<Channel>, fused: seq<FusedHit>, x: string, y: string, c: nat) returns (i: nat, j: nat)
    requires k > 0 && IsFusion(k, channels, fused) && Found(channels, y)
    requires forall m :: 0 <= m < |channels| ==> AtLeastAsGood(channels[m], x, y)
    requires c < |channels| && Better(channels[c], x, y)
    ensures i < j < |fused| && fused[i].id == x && fused[j].id == y
  {
    assert Has(channels[c], x);
    ScoreIsMonotone(k, channels, x, y);
    hide Score, Better, AtLeastAsGood, Representative, Contributions, Less;
    var fx, fy := FusedOf(k, channels, x), FusedOf(k, channels, y);
    i :| 0 <= i < |fused| && fused[i] == fx;
    j :| 0 <= j < |fused| && fused[j] == fy;
    assert KeyOf(fx).score > KeyOf(fy).score;
    HigherIsEarlier(fused, i, j);
  }

  lemma HigherIsEarlier(fused: seq<FusedHit>, i: nat, j: nat)
    requires Sorted(Keys(fused)) && i < |fused| && j < |fused| && fused[i].score > fused[j].score
    ensures i < j
  {
    forall p, q | 0 <= p < q < |fused|
      ensures fused[p].score >= fused[q].score
    {
      assert Before(Keys(fused)[p], Keys(fused)[q]);
    }
  }
}
