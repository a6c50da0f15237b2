/**
 A failed inventory inherits the cards that are known when it arrives (internal/hub/ingest.go),
 so the points it leaves can depend on the order of arrival: exactly when they do, for any
 two new snapshots of a node.
 */
module FailedInventory {
  import opened Wrappers
  import opened Model
  import opened Rollups
  import opened Tables
  import opened Ingestion
  import opened Ledger
  import opened Validation
  import opened ArrivalOrder

  /******* The points that a snapshot leaves *******/

  // The known cards that a failed inventory inherits.
  function Inherited(gpus: map<GpuId, Seen>, live: set<string>, f: Snapshot): set<string> {
    set u | u in live && u !in Uuids(f.gpus) && GpuId(f.node, u) in gpus && gpus[GpuId(f.node, u)].first <= f.at
  }

  // The point of an inherited card says nothing about the card.
  function BlindPoint(f: Snapshot): Point
    requires 0 <= f.at
  {
    Point(f.at, f.interval, f.number, "query_failed", false, false, false, {}, None, None)
  }

  lemma QueryFailedPoint(f: Snapshot, g: Gpu)
    requires 0 <= f.at
    ensures MakePoint(f, QueryFailed(g, f.gpuStatus)) == BlindPoint(f) && QueryFailed(g, f.gpuStatus).uuid == g.uuid
  {
  }

  ghost predicate BlindFrom(f: Snapshot, gpus: seq<Gpu>) {
    0 <= f.at && forall i :: |f.gpus| <= i < |gpus| ==> MakePoint(f, gpus[i]) == BlindPoint(f)
  }

  lemma {:induction false} InheritIs(gpus: map<GpuId, Seen>, known: seq<Gpu>, f: Snapshot, n: nat)
    requires 0 <= f.at && n <= |known| && Inherit(gpus, known, f, n).Ok?
    ensures var r := Inherit(gpus, known, f, n).value;
            && f.gpus <= r && BlindFrom(f, r)
            && Uuids(r) == Uuids(f.gpus) + Inherited(gpus, Uuids(known[..n]), f)
  {
    hide MakePoint, QueryFailed, Uuids;
    if n == 0 {
      NoUuids();
      assert known[..0] == [];
    } else {
      InheritIs(gpus, known, f, n - 1);
      var before, g := Inherit(gpus, known, f, n - 1).value, known[n - 1];
      assert known[..n] == known[..n - 1] + [g];
      UuidsAppend(known[..n - 1], g);
      QueryFailedPoint(f, g);
      UuidsAppend(before, QueryFailed(g, f.gpuStatus));
    }
  }

  function IdsOf(s: Snapshot, uuids: set<string>): set<PointId> {
    set u | u in uuids :: PointId(s.node, u, s.boot, s.number)
  }

  // A snapshot leaves a point for each card that it lists, as it says, and a blind one for
  // each of some others.
  ghost predicate Leaves(points: map<PointId, Point>, later: map<PointId, Point>, s: Snapshot, others: set<string>) {
    && 0 <= s.at
    && later.Keys == points.Keys + IdsOf(s, Uuids(s.gpus) + others)
    && (forall i :: i in points ==> later[i] == points[i])
    && (forall i :: i in later && i !in points ==>
          if i.uuid in Uuids(s.gpus) then exists g :: g in s.gpus && g.uuid == i.uuid && later[i] == MakePoint(s, g)
          else later[i] == BlindPoint(s))
  }

  lemma AddedLeaves(points: map<PointId, Point>, later: map<PointId, Point>, s: Snapshot, gpus: seq<Gpu>, others: set<string>)
    requires 0 <= s.at && s.gpus <= gpus && BlindFrom(s, gpus) && Uuids(gpus) == Uuids(s.gpus) + others
    requires DistinctUuids(gpus) && PointsAdded(points, later, s, gpus, |gpus|)
    ensures Leaves(points, later, s, others)
  {
    hide MakePoint, BlindFrom, DistinctUuids, Uuids, BlindPoint;
    AddedIds(points, later, s, gpus);
    forall i | i in later && i !in points
      ensures if i.uuid in Uuids(s.gpus) then exists g :: g in s.gpus && g.uuid == i.uuid && later[i] == MakePoint(s, g)
              else later[i] == BlindPoint(s)
    {
      AddedPoint(points, later, s, gpus, i);
    }
  }

  lemma AddedIds(points: map<PointId, Point>, later: map<PointId, Point>, s: Snapshot, gpus: seq<Gpu>)
    requires 0 <= s.at && PointsAdded(points, later, s, gpus, |gpus|)
    ensures later.Keys == points.Keys + IdsOf(s, Uuids(gpus))
  {
    hide MakePoint;
    forall i | i in later && i !in points
      ensures i in IdsOf(s, Uuids(gpus))
    {
      assert SampleOf(i) == IdOf(s);
    }
  }

  lemma AddedPoint(points: map<PointId, Point>, later: map<PointId, Point>, s: Snapshot, gpus: seq<Gpu>, i: PointId)
    requires s.gpus <= gpus && BlindFrom(s, gpus) && DistinctUuids(gpus)
    requires PointsAdded(points, later, s, gpus, |gpus|) && i in later && i !in points
    ensures if i.uuid in Uuids(s.gpus) then exists g :: g in s.gpus && g.uuid == i.uuid && later[i] == MakePoint(s, g)
            else later[i] == BlindPoint(s)
  {
    hide MakePoint, BlindPoint;
    var j :| 0 <= j < |gpus| && gpus[j].uuid == i.uuid && later[i] == MakePoint(s, gpus[j]);
    if j < |s.gpus| {
      assert s.gpus[j] == gpus[j] && s.gpus[j] in s.gpus;
    } else {
      assert forall k :: 0 <= k < |s.gpus| ==> gpus[k] == s.gpus[k] && gpus[k].uuid != gpus[j].uuid;
    }
  }

  // Known cards, with their rows, of the node of a snapshot.
  ghost predicate Fresh(st: State, s: Snapshot) {
    && Sound(st) && s.node in st.nodes && 0 <= s.at && DistinctUuids(s.gpus)
    && IdOf(s) !in st.samples && Consistent(st.samples, s)
  }

  ghost function LiveCards(st: State, node: string): set<string>
    requires node in st.nodes
  {
    Uuids(st.nodes[node].gpus)
  }

  // The cards for which a snapshot leaves a point without listing them.
  ghost function Others(st: State, s: Snapshot): set<string>
    requires s.node in st.nodes
  {
    if s.gpuStatus == "ok" then {} else Inherited(st.gpus, LiveCards(st, s.node), s)
  }

  // First times after a snapshot: only the cards that it lists can move. A card that is
  // inherited was first seen before.
  ghost predicate FirstsMove(gpus: map<GpuId, Seen>, later: map<GpuId, Seen>, s: Snapshot) {
    forall u :: var id := GpuId(s.node, u);
      && (id in later <==> id in gpus || u in Uuids(s.gpus))
      && (id in later ==> later[id].first == if u in Uuids(s.gpus) then SeenBy(gpus, id, s.at).first else gpus[id].first)
  }

  lemma AddedFirsts(gpus: map<GpuId, Seen>, later: map<GpuId, Seen>, s: Snapshot, live: set<string>, others: set<string>)
    requires others <= Inherited(gpus, live, s) && GpusAdded(gpus, later, s, Uuids(s.gpus) + others)
    ensures FirstsMove(gpus, later, s)
  {
    hide Uuids;
    forall u
      ensures var id := GpuId(s.node, u);
              && (id in later <==> id in gpus || u in Uuids(s.gpus))
              && (id in later ==> later[id].first == if u in Uuids(s.gpus) then SeenBy(gpus, id, s.at).first else gpus[id].first)
    {
      var id := GpuId(s.node, u);
      assert id in later ==> later[id] == if u in Uuids(s.gpus) + others then SeenBy(gpus, id, s.at) else gpus[id];
    }
  }

  // The cards that are live after a newer snapshot.
  lemma NewLiveCards(st: State, s: Snapshot, gpus: seq<Gpu>)
    requires s.node in st.nodes && Inventory(st) && DistinctUuids(s.gpus)
    requires AllGpus(st, s) == Ok(gpus) && Uuids(gpus) == Uuids(s.gpus) + Others(st, s) && s.at > st.nodes[s.node].sampleAt
    ensures Uuids(NewLive(s, gpus, st.nodes[s.node]).gpus) == Uuids(s.gpus) + LiveCards(st, s.node)
  {
    hide Uuids, Lost;
    var known := st.nodes[s.node];
    AllGpusKnown(st, s);
    if s.gpuStatus == "ok" {
      LostCards(known.gpus, Uuids(gpus), |known.gpus|);
      assert known.gpus[..|known.gpus|] == known.gpus;
      UuidsConcat(gpus, Lost(known.gpus, Uuids(gpus), |known.gpus|));
    } else {
      assert gpus + [] == gpus;
    }
  }

  lemma CardsOf(st: State, s: Snapshot)
    requires Fresh(st, s)
    ensures AllGpus(st, s).Ok?
    ensures var gpus := AllGpus(st, s).value;
            s.gpus <= gpus && BlindFrom(s, gpus) && DistinctUuids(gpus) && Uuids(gpus) == Uuids(s.gpus) + Others(st, s)
  {
    hide Uuids, DistinctUuids, KnownCards, Chained, SamplesKnown, Consistent;
    AllGpusKnown(st, s);
    if s.gpuStatus != "ok" {
      var known := st.nodes[s.node].gpus;
      InheritIs(st.gpus, known, s, |known|);
      assert known[..|known|] == known;
    }
  }

  // A new snapshot leaves points for the cards that it lists and for those that it inherits.
  // The cards that it lists become live if it is newer, and their first times can move.
  lemma InsertLeaves(st: State, s: Snapshot, backfill: bool, now: int)
    requires Fresh(st, s)
    ensures Insert(st, s, backfill, now).Ok?
    ensures var after := Insert(st, s, backfill, now).value;
            && Leaves(st.points, after.points, s, Others(st, s))
            && FirstsMove(st.gpus, after.gpus, s)
            && s.node in after.nodes
            && after.nodes[s.node].sampleAt == Max(st.nodes[s.node].sampleAt, s.at)
            && LiveCards(after, s.node)
               == if s.at > st.nodes[s.node].sampleAt then Uuids(s.gpus) + LiveCards(st, s.node) else LiveCards(st, s.node)
  {
    hide StoreGpus, Finish, Leaves, PointsAdded, DistinctUuids, Exact, Chained, KnownCards, SamplesKnown, Consistent, NodesAdvance,
         GpusAdded, BlindFrom, Uuids, NewLive, Inherited, AllGpus, FirstsMove;
    InsertKeeps(st, s, backfill, now);
    CardsOf(st, s);
    var gpus, recorded := AllGpus(st, s).value, RecordSample(st, s);
    var stored := StoreGpus(recorded, s, gpus, |gpus|).value;
    StoreGpusPoints(recorded, s, gpus, |gpus|);
    StoreGpusAdds(recorded, s, gpus, |gpus|);
    assert gpus[..|gpus|] == gpus;
    FinishNode(stored, s, gpus, backfill, now);
    AddedLeaves(st.points, stored.points, s, gpus, Others(st, s));
    AddedFirsts(st.gpus, stored.gpus, s, LiveCards(st, s.node), Others(st, s));
    if s.at > st.nodes[s.node].sampleAt {
      NewLiveCards(st, s, gpus);
    }
  }

  /******* Both orders *******/

  // Two snapshots and the cards that each of them inherits, in both orders.
  lemma LeavesApart(points: map<PointId, Point>, s: Snapshot, f: Snapshot,
                    a: map<PointId, Point>, b: map<PointId, Point>, sf: map<PointId, Point>, fs: map<PointId, Point>,
                    sFirst: set<string>, fSecond: set<string>, fFirst: set<string>, sSecond: set<string>)
    requires Leaves(points, a, s, sFirst) && Leaves(a, sf, f, fSecond)
    requires Leaves(points, b, f, fFirst) && Leaves(b, fs, s, sSecond)
    requires IdOf(s) != IdOf(f) && DistinctUuids(s.gpus) && DistinctUuids(f.gpus)
    requires forall i :: i in points ==> SampleOf(i) != IdOf(s) && SampleOf(i) != IdOf(f)
    requires sFirst !! Uuids(s.gpus) && sSecond !! Uuids(s.gpus) && fFirst !! Uuids(f.gpus) && fSecond !! Uuids(f.gpus)
    ensures sf == fs <==> sFirst == sSecond && fFirst == fSecond
  {
    hide MakePoint, BlindPoint, Uuids, DistinctUuids, Leaves;
    forall i: PointId
      ensures i in sf <==> i in points || i in IdsOf(s, Uuids(s.gpus) + sFirst) || i in IdsOf(f, Uuids(f.gpus) + fSecond)
      ensures i in fs <==> i in points || i in IdsOf(s, Uuids(s.gpus) + sSecond) || i in IdsOf(f, Uuids(f.gpus) + fFirst)
    {
      LeftAt(points, s, f, a, sf, sFirst, fSecond, i);
      LeftAt(points, f, s, b, fs, fFirst, sSecond, i);
    }
    if sFirst == sSecond && fFirst == fSecond {
      forall i | i in sf
        ensures sf[i] == fs[i]
      {
        SamePoint(points, s, f, a, b, sf, fs, sFirst, fFirst, i);
      }
      assert sf == fs;
    }
    if sf == fs {
      forall u
        ensures u in sFirst <==> u in sSecond
      {
        var i := PointId(s.node, u, s.boot, s.number);
        assert SampleOf(i) == IdOf(s) && i !in points;
        assert i in sf <==> u in Uuids(s.gpus) + sFirst;
        assert i in fs <==> u in Uuids(s.gpus) + sSecond;
      }
      forall u
        ensures u in fFirst <==> u in fSecond
      {
        var i := PointId(f.node, u, f.boot, f.number);
        assert SampleOf(i) == IdOf(f) && i !in points;
        assert i in sf <==> u in Uuids(f.gpus) + fSecond;
        assert i in fs <==> u in Uuids(f.gpus) + fFirst;
      }
    }
  }

  // The identities that two snapshots leave.
  lemma LeftAt(points: map<PointId, Point>, s: Snapshot, f: Snapshot, between: map<PointId, Point>, later: map<PointId, Point>,
               more: set<string>, others: set<string>, i: PointId)
    requires Leaves(points, between, s, more) && Leaves(between, later, f, others)
    ensures i in later <==> i in points || i in IdsOf(s, Uuids(s.gpus) + more) || i in IdsOf(f, Uuids(f.gpus) + others)
  {
    hide MakePoint, BlindPoint, IdsOf, Uuids;
  }

  lemma SamePoint(points: map<PointId, Point>, s: Snapshot, f: Snapshot,
                  a: map<PointId, Point>, b: map<PointId, Point>, sf: map<PointId, Point>, fs: map<PointId, Point>,
                  mine: set<string>, theirs: set<string>, i: PointId)
    requires Leaves(points, a, s, mine) && Leaves(a, sf, f, theirs)
    requires Leaves(points, b, f, theirs) && Leaves(b, fs, s, mine)
    requires IdOf(s) != IdOf(f) && DistinctUuids(s.gpus) && DistinctUuids(f.gpus)
    requires forall j :: j in points ==> SampleOf(j) != IdOf(s) && SampleOf(j) != IdOf(f)
    requires i in sf && i in fs
    ensures sf[i] == fs[i]
  {
    hide MakePoint, BlindPoint, Uuids;
    if i !in points {
      if SampleOf(i) == IdOf(s) {
        assert i in a && i !in b;
        OneCard(s, i.uuid, a[i], fs[i]);
      } else {
        assert i !in a && i in b;
        OneCard(f, i.uuid, sf[i], b[i]);
      }
    }
  }

  // A snapshot says one thing only about a card that it lists.
  lemma OneCard(s: Snapshot, uuid: string, p: Point, q: Point)
    requires 0 <= s.at && DistinctUuids(s.gpus)
    requires if uuid in Uuids(s.gpus) then exists g :: g in s.gpus && g.uuid == uuid && p == MakePoint(s, g) else p == BlindPoint(s)
    requires if uuid in Uuids(s.gpus) then exists g :: g in s.gpus && g.uuid == uuid && q == MakePoint(s, g) else q == BlindPoint(s)
    ensures p == q
  {
    hide MakePoint, BlindPoint, Uuids;
    if uuid in Uuids(s.gpus) {
      var g :| g in s.gpus && g.uuid == uuid && p == MakePoint(s, g);
      var h :| h in s.gpus && h.uuid == uuid && q == MakePoint(s, h);
      assert g == h;
    }
  }

  // Whether the snapshot f, if its inventory failed, inherits a card that s lists and f does
  // not alike before and after s. It does with a live card, unless only s brings the first
  // time of the card down to that of f; and with a card that is not live, unless s makes it
  // live and has seen it by then.
  ghost predicate Indifferent(st: State, s: Snapshot, f: Snapshot, u: string)
    requires s.node in st.nodes
  {
    var id := GpuId(s.node, u);
    if u in LiveCards(st, s.node) then s.at > f.at || (id in st.gpus && st.gpus[id].first <= f.at)
    else s.at <= st.nodes[s.node].sampleAt || (if id in st.gpus then Min(st.gpus[id].first, s.at) else s.at) > f.at
  }

  // The cards that only one of two snapshots lists make no difference to the other.
  ghost predicate AllIndifferent(st: State, s: Snapshot, f: Snapshot)
    requires s.node in st.nodes
  {
    f.gpuStatus != "ok" ==> forall u :: u in Uuids(s.gpus) && u !in Uuids(f.gpus) ==> Indifferent(st, s, f, u)
  }

  lemma InheritedAlike(st: State, after: State, s: Snapshot, f: Snapshot)
    requires s.node in st.nodes && s.node in after.nodes && s.node == f.node
    requires forall u :: u in LiveCards(st, s.node) ==> GpuId(s.node, u) in st.gpus
    requires FirstsMove(st.gpus, after.gpus, s)
    requires LiveCards(after, s.node)
          == if s.at > st.nodes[s.node].sampleAt then Uuids(s.gpus) + LiveCards(st, s.node) else LiveCards(st, s.node)
    ensures Others(after, f) == Others(st, f) <==> AllIndifferent(st, s, f)
  {
    hide Uuids, LiveCards;
    if f.gpuStatus != "ok" {
      var x, y := Inherited(after.gpus, LiveCards(after, s.node), f), Inherited(st.gpus, LiveCards(st, s.node), f);
      forall u
        ensures (u in x <==> u in y) <==> (u in Uuids(s.gpus) && u !in Uuids(f.gpus) ==> Indifferent(st, s, f, u))
      {
        var id := GpuId(s.node, u);
        assert id in after.gpus ==>
          after.gpus[id].first == if u in Uuids(s.gpus) then SeenBy(st.gpus, id, s.at).first else st.gpus[id].first;
      }
    }
  }

  lemma StillFresh(st: State, s: Snapshot, f: Snapshot, backfill: bool, now: int)
    requires Fresh(st, s) && Fresh(st, f) && IdOf(s) != IdOf(f) && Agree(s, f) && Agree(f, s)
    ensures Insert(st, s, backfill, now).Ok? && Fresh(Insert(st, s, backfill, now).value, f)
  {
    hide Insert, Sound, Uuids, DistinctUuids, Exact;
    InsertKeeps(st, s, backfill, now);
  }

  lemma UploadInserts(st: State, s: Snapshot, backfill: bool, now: HubTime)
    requires Fresh(st, s) && Acceptable(s, now) && Insert(st, s, backfill, now).Ok?
    ensures Step(st, Upload(s, backfill, now)) == Insert(st, s, backfill, now).value
  {
    hide Insert, Acceptable, Sound, Consistent;
  }

  lemma NewPoints(st: State, s: Snapshot)
    requires Fresh(st, s)
    ensures forall i :: i in st.points ==> SampleOf(i) != IdOf(s)
    ensures forall u :: u in LiveCards(st, s.node) ==> GpuId(s.node, u) in st.gpus
  {
  }

  // Any two new snapshots of one node, complete or failed: they leave the same points in
  // either order of arrival if and only if no card that only one of them lists makes a
  // difference to what the other, if its inventory failed, inherits.
  lemma {:induction false} FailedInventoryOrderIff(st: State, a: Op, b: Op)
    requires a.Upload? && b.Upload? && Acceptable(a.s, a.now) && Acceptable(b.s, b.now) && a.s.node == b.s.node
    requires Fresh(st, a.s) && Fresh(st, b.s) && IdOf(a.s) != IdOf(b.s) && Agree(a.s, b.s) && Agree(b.s, a.s)
    ensures Step(Step(st, a), b).points == Step(Step(st, b), a).points
       <==> AllIndifferent(st, a.s, b.s) && AllIndifferent(st, b.s, a.s)
  {
    hide Step, Insert, Acceptable, Agree, Leaves, FirstsMove, LiveCards, Others, Uuids, DistinctUuids, Sound, Consistent, AllIndifferent;
    var s, f := a.s, b.s;
    StillFresh(st, s, f, a.backfill, a.now);
    StillFresh(st, f, s, b.backfill, b.now);
    var first, second := Insert(st, s, a.backfill, a.now).value, Insert(st, f, b.backfill, b.now).value;
    InsertLeaves(st, s, a.backfill, a.now);
    InsertLeaves(first, f, b.backfill, b.now);
    InsertLeaves(st, f, b.backfill, b.now);
    InsertLeaves(second, s, a.backfill, a.now);
    UploadInserts(st, s, a.backfill, a.now);
    UploadInserts(first, f, b.backfill, b.now);
    UploadInserts(st, f, b.backfill, b.now);
    UploadInserts(second, s, a.backfill, a.now);
    NewPoints(st, s);
    NewPoints(st, f);
    NotListed(st, s);
    NotListed(first, f);
    NotListed(st, f);
    NotListed(second, s);
    LeavesApart(st.points, s, f, first.points, second.points,
                Insert(first, f, b.backfill, b.now).value.points, Insert(second, s, a.backfill, a.now).value.points,
                Others(st, s), Others(first, f), Others(st, f), Others(second, s));
    InheritedAlike(st, first, s, f);
    InheritedAlike(st, second, f, s);
  }

  lemma NotListed(st: State, s: Snapshot)
    requires s.node in st.nodes
    ensures Others(st, s) !! Uuids(s.gpus)
  {
  }

  /******* A run in which it depends on the order *******/

  // Why the snapshots must be complete: a failed inventory inherits the cards known when
  // it arrives. If it arrives before the sample that first reports a card, complete or not,
  // the card gets no point from it; in the other order it does.
  lemma {:induction false} FailedInventoryDependsOnOrder(s: Snapshot, g: Gpu, f: Snapshot, now: HubTime)
    requires Acceptable(s, now) && Acceptable(f, now) && Agree(s, f) && Agree(f, s)
    requires s.node == f.node && s.boot == f.boot && 0 < s.at < f.at
    requires s.gpus == [g] && f.gpuStatus != "ok" && f.gpus == []
    ensures var add, a, b := AddNode(s.node), Upload(s, false, now), Upload(f, false, now);
            var i := PointId(f.node, g.uuid, f.boot, f.number);
            && i in Run([add, a, b]).points
            && i !in Run([add, b, a]).points
  {
    hide Acceptable, Insert, Agree;
    var add, a, b := AddNode(s.node), Upload(s, false, now), Upload(f, false, now);
    var i := PointId(f.node, g.uuid, f.boot, f.number);
    assert Run([add]) == Step(Empty(), add) by {
      assert [add][..0] == [];
    }
    assert [add, a][..1] == [add] && [add, b][..1] == [add];
    assert [add, a, b][..2] == [add, a] && [add, b, a][..2] == [add, b];
    var st := Run([add]);
    assert IdOf(s) != IdOf(f) by {
      DifferentTimes(s, f);
    }
    FreshSound(s.node);
    AcceptedGpus(s, now);
    AcceptedGpus(f, now);
    // In order: the card is known when the inventory fails.
    InsertKeeps(st, s, false, now);
    KnownAfter(st, s, g, now);
    ConsistentOne(s, f);
    var first := Insert(st, s, false, now).value;
    InsertKeeps(first, f, false, now);
    InheritedPoint(first, f, g, now);
    // The other way round: it is not.
    InsertKeeps(st, f, false, now);
    NoPoints(st, f, now);
    ConsistentOne(f, s);
    var second := Insert(st, f, false, now).value;
    InsertKeeps(second, s, false, now);
    OnlyItsPoints(second, s, now);
  }

  lemma DifferentTimes(s: Snapshot, f: Snapshot)
    requires Agree(s, f) && s.node == f.node && s.boot == f.boot && s.at != f.at
    ensures IdOf(s) != IdOf(f)
  {
  }

  lemma AcceptedGpus(s: Snapshot, now: HubTime)
    requires Acceptable(s, now)
    ensures DistinctUuids(s.gpus) && 0 <= s.at
  {
  }

  lemma FreshSound(node: string)
    ensures Sound(Step(Empty(), AddNode(node)))
  {
  }

  lemma ConsistentOne(s: Snapshot, f: Snapshot)
    requires Agree(s, f) && s.node == f.node && s.boot == f.boot
    ensures Consistent(map[IdOf(s) := s.at], f)
  {
  }

  lemma KnownAfter(st: State, s: Snapshot, g: Gpu, now: HubTime)
    requires st == Step(Empty(), AddNode(s.node)) && s.gpus == [g] && 0 < s.at
    requires Insert(st, s, false, now).Ok? && Sound(Insert(st, s, false, now).value)
    ensures var after := Insert(st, s, false, now).value;
            && after.nodes[s.node].gpus == [g] && after.nodes[s.node].sampleAt == s.at
            && after.samples == map[IdOf(s) := s.at]
            && (forall i :: i in after.points ==> SampleOf(i) == IdOf(s))
            && GpuId(s.node, g.uuid) in after.gpus && after.gpus[GpuId(s.node, g.uuid)].first <= s.at
  {
    hide StoreGpus, Link, Note, MakePoint, KnownCards;
    var recorded := RecordSample(st, s);
    var stored := StoreGpus(recorded, s, s.gpus, 1).value;
    StoreGpusPoints(recorded, s, s.gpus, 1);
    StoreGpusSeen(recorded, s, s.gpus, 1);
    FinishNode(stored, s, s.gpus, false, now);
    assert Lost([], Uuids(s.gpus), 0) == [] && s.gpus + [] == [g] && s.gpus[0] == g;
  }

  lemma InheritedPoint(st: State, f: Snapshot, g: Gpu, now: HubTime)
    requires f.node in st.nodes && st.nodes[f.node].gpus == [g] && f.gpus == [] && f.gpuStatus != "ok" && 0 <= f.at
    requires GpuId(f.node, g.uuid) in st.gpus && st.gpus[GpuId(f.node, g.uuid)].first <= f.at
    requires Insert(st, f, false, now).Ok?
    ensures PointId(f.node, g.uuid, f.boot, f.number) in Insert(st, f, false, now).value.points
  {
    hide StoreGpus, QueryFailed, MakePoint, Uuids;
    assert Uuids([]) == {} by {
      NoUuids();
    }
    assert Inherit(st.gpus, [g], f, 0) == Ok([]);
    var cards := [QueryFailed(g, f.gpuStatus)];
    assert AllGpus(st, f) == Ok([] + cards);
    assert [] + cards == cards;
    QueryFailedUuid(g, f.gpuStatus);
    assert cards[0].uuid == g.uuid;
    StoreGpusPoints(RecordSample(st, f), f, cards, 1);
    FinishNode(StoreGpus(RecordSample(st, f), f, cards, 1).value, f, cards, false, now);
  }

  lemma QueryFailedUuid(g: Gpu, status: string)
    ensures QueryFailed(g, status).uuid == g.uuid
  {
  }

  lemma NoPoints(st: State, f: Snapshot, now: HubTime)
    requires st == Step(Empty(), AddNode(f.node)) && f.gpus == [] && f.gpuStatus != "ok" && 0 <= f.at
    requires Insert(st, f, false, now).Ok?
    ensures Insert(st, f, false, now).value.points == map[] && Insert(st, f, false, now).value.samples == map[IdOf(f) := f.at]
  {
    assert AllGpus(st, f) == Ok([]);
    FinishNode(RecordSample(st, f), f, [], false, now);
  }

  lemma OnlyItsPoints(st: State, s: Snapshot, now: HubTime)
    requires s.node in st.nodes && st.points == map[] && 0 <= s.at && Insert(st, s, false, now).Ok?
    ensures forall i :: i in Insert(st, s, false, now).value.points ==> SampleOf(i) == IdOf(s)
  {
    hide StoreGpus, MakePoint, AllGpus;
    var gpus := AllGpus(st, s).value;
    StoreGpusPoints(RecordSample(st, s), s, gpus, |gpus|);
    FinishNode(StoreGpus(RecordSample(st, s), s, gpus, |gpus|).value, s, gpus, false, now);
  }
}
