/**
 Runs of the ledger: snapshots arrive in any order and any number of times, old rows are
 pruned (internal/hub/prune.go), nodes are registered. This module proves what every
 step keeps and, from it, that the rollups kept up to date by signed updates are always
 the sum over the edges between neighbouring stored points.
 */
module Ledger {
  import opened Wrappers
  import opened Amounts
  import opened Model
  import opened Rollups
  import opened Tables
  import opened Ingestion
  import opened Linking
  import opened Validation

  const RAW_AGE: int := 48 * 3_600_000
  const MINUTE_AGE: int := 30 * 86_400_000
  const HOUR_AGE: int := 500 * 86_400_000
  const EVENT_AGE: int := 30 * 86_400_000

  /******* Pruning *******/

  predicate Expired(k: CellKey, now: int) {
    (k.res == MINUTE && k.bucket < now - MINUTE_AGE) || (k.res == HOUR && k.bucket < now - HOUR_AGE)
  }

  function RecentEvents(events: seq<Event>, cutoff: int): seq<Event> {
    if events == [] then []
    else
      var last := events[|events| - 1];
      RecentEvents(events[..|events| - 1], cutoff) + (if last.at < cutoff then [] else [last])
  }

  function RecentPoints(points: map<PointId, Point>, cutoff: int): map<PointId, Point> {
    map i | i in points && points[i].at >= cutoff :: points[i]
  }

  function RecentSamples(samples: map<SampleId, int>, cutoff: int): map<SampleId, int> {
    map i | i in samples && samples[i] >= cutoff :: samples[i]
  }

  // An edge goes with its right point; what it added to the rollups stays.
  ghost function RecentEdges(edges: map<PointId, Edge>, points: map<PointId, Point>, cutoff: int): map<PointId, Edge> {
    map i | i in edges && i in points && points[i].at >= cutoff :: edges[i]
  }

  ghost function Prune(st: State, now: int): State {
    State(
      RecentSamples(st.samples, now - RAW_AGE),
      RecentPoints(st.points, now - RAW_AGE),
      RecentEdges(st.edges, st.points, now - RAW_AGE),
      imap k: CellKey :: if Expired(k, now) then ZERO else Read(st.rollups, k),
      RecentEvents(st.events, now - EVENT_AGE),
      st.gpus,
      st.nodes)
  }

  // What a prune leaves, in milliseconds: samples, points and the edges that end at them for
  // 48 hours, minutes and events for 30 days, hours for 500 days.
  lemma RetentionIs(st: State, now: int)
    ensures var after := Prune(st, now);
            && (forall i :: i in after.points <==> i in st.points && st.points[i].at >= now - 172_800_000)
            && (forall i :: i in after.points ==> after.points[i] == st.points[i])
            && (forall i :: i in after.samples <==> i in st.samples && st.samples[i] >= now - 172_800_000)
            && (forall i :: i in after.samples ==> after.samples[i] == st.samples[i])
            && (forall i :: i in after.edges <==> i in st.edges && i in after.points)
            && (forall i :: i in after.edges ==> after.edges[i] == st.edges[i])
            && after.gpus == st.gpus && after.nodes == st.nodes
    ensures forall k: CellKey ::
              Read(Prune(st, now).rollups, k)
              == if (k.res == 60_000 && k.bucket < now - 2_592_000_000) || (k.res == 3_600_000 && k.bucket < now - 43_200_000_000) then ZERO
                 else Read(st.rollups, k)
    ensures forall e :: multiset(Prune(st, now).events)[e] == if e.at < now - 2_592_000_000 then 0 else multiset(st.events)[e]
  {
    forall e {
      RecentTimes(st.events, now - EVENT_AGE, e);
    }
  }

  lemma {:induction false} RecentTimes(events: seq<Event>, cutoff: int, e: Event)
    ensures multiset(RecentEvents(events, cutoff))[e] == if e.at < cutoff then 0 else multiset(events)[e]
  {
    if events != [] {
      var init, last := events[..|events| - 1], events[|events| - 1];
      assert events == init + [last];
      RecentTimes(init, cutoff, e);
    }
  }

  /******* Runs *******/

  datatype Op =
    | Upload(s: Snapshot, backfill: bool, now: HubTime)
    | Clean(now: HubTime)
    | AddNode(node: string)

  ghost function Empty(): State {
    State(map[], map[], map[], Cells([]), [], map[], map[])
  }

  ghost function Step(st: State, op: Op): State {
    match op
    case Upload(s, backfill, now) =>
      var r := Ingest(st, s, backfill, now);
      if r.Ok? then r.value else st
    case Clean(now) => Prune(st, now)
    case AddNode(node) => if node in st.nodes then st else st.(nodes := st.nodes[node := Live([], 0, 0)])
  }

  ghost function Run(ops: seq<Op>): State {
    if ops == [] then Empty() else Step(Run(ops[..|ops| - 1]), ops[|ops| - 1])
  }

  // Within one run of an agent the sample number and the sample time identify each other.
  ghost predicate Agree(s: Snapshot, t: Snapshot) {
    s.node == t.node && s.boot == t.boot ==> (s.number == t.number <==> s.at == t.at)
  }

  ghost predicate Coherent(ops: seq<Op>) {
    forall a, b :: a in ops && b in ops && a.Upload? && b.Upload? ==> Agree(a.s, b.s)
  }

  // The same condition against the stored samples: a caller can check it before the call.
  ghost predicate Consistent(samples: map<SampleId, int>, s: Snapshot) {
    forall i :: i in samples && i.node == s.node && i.boot == s.boot ==> (i.number == s.number <==> samples[i] == s.at)
  }

  /******* What every step keeps *******/

  ghost predicate DistinctSampleTimes(samples: map<SampleId, int>) {
    forall i, j :: i in samples && j in samples && i.node == j.node && i.boot == j.boot && samples[i] == samples[j] ==> i == j
  }

  // Every point belongs to a stored sample, and the samples of one chain have distinct times.
  ghost predicate Chained(st: State) {
    && Numbered(st.points)
    && DistinctSampleTimes(st.samples)
    && (forall i :: i in st.points ==> SampleOf(i) in st.samples && st.samples[SampleOf(i)] == st.points[i].at)
  }

  // Every known card of the live snapshot has been seen, at the latest by its sample time.
  ghost predicate KnownCards(live: Live, node: string, gpus: map<GpuId, Seen>) {
    && DistinctUuids(live.gpus)
    && (forall i :: 0 <= i < |live.gpus| ==>
          GpuId(node, live.gpus[i].uuid) in gpus && gpus[GpuId(node, live.gpus[i].uuid)].first <= live.sampleAt)
  }

  ghost predicate Inventory(st: State) {
    forall n :: n in st.nodes ==> KnownCards(st.nodes[n], n, st.gpus)
  }

  ghost predicate SamplesKnown(st: State) {
    forall i :: i in st.samples ==> i.node in st.nodes && st.samples[i] <= st.nodes[i.node].sampleAt
  }

  ghost predicate Sound(st: State) {
    Chained(st) && Inventory(st) && SamplesKnown(st)
  }

  // Only without pruning: an edge for each point that has an earlier neighbour, and the
  // rollups equal to what the edges add up to.
  ghost predicate Exact(st: State) {
    st.edges == Links(st.points) && Balanced(st)
  }

  lemma ChainedDistinct(st: State)
    requires Chained(st)
    ensures DistinctTimes(st.points)
  {
    forall i, j | i in st.points && j in st.points && ChainOf(i) == ChainOf(j) && st.points[i].at == st.points[j].at
      ensures i == j
    {
      assert SampleOf(i) == SampleOf(j);
    }
  }

  lemma RecordChained(st: State, s: Snapshot)
    requires Chained(st) && Consistent(st.samples, s)
    ensures Chained(RecordSample(st, s))
  {
    var after := RecordSample(st, s);
    forall i, j | i in after.samples && j in after.samples && i.node == j.node && i.boot == j.boot && after.samples[i] == after.samples[j]
      ensures i == j
    {
      if i == IdOf(s) || j == IdOf(s) {
        assert i.number == j.number;
      }
    }
    assert IdOf(s) in st.samples ==> st.samples[IdOf(s)] == s.at;
  }

  // A point of the sample just recorded joins the tables.
  lemma StorePointChained(st: State, c: Chain, p: Point)
    requires Chained(st)
    requires SampleId(c.node, c.boot, p.number) in st.samples && st.samples[SampleId(c.node, c.boot, p.number)] == p.at
    ensures Chained(StorePoint(st, c, p))
  {
  }

  lemma StorePointExact(st: State, c: Chain, p: Point)
    requires Exact(st) && Chained(st) && Chained(StorePoint(st, c, p))
    requires PointId(c.node, c.uuid, c.boot, p.number) !in st.points
    ensures Exact(StorePoint(st, c, p))
  {
    ChainedDistinct(StorePoint(st, c, p));
    LinkKeepsLinks(st, c, p);
    LinkBalanced(st, c, p);
    SameLedger(Link(st, c, p), StorePoint(st, c, p));
  }

  // Exact speaks of points, edges and rollups only.
  lemma SameLedger(st: State, after: State)
    requires Exact(st) && after.points == st.points && after.edges == st.edges && after.rollups == st.rollups
    ensures Exact(after)
  {
  }

  /******* The cards of one snapshot *******/

  ghost predicate NoPointYet(points: map<PointId, Point>, s: Snapshot, gpus: seq<Gpu>, n: nat)
    requires n <= |gpus|
  {
    forall i :: i in points && SampleOf(i) == IdOf(s) ==> exists j :: 0 <= j < n && gpus[j].uuid == i.uuid
  }

  // The first n cards are stored without a clash, and the tables stay sound and exact.
  lemma {:induction false} StoreGpusKeep(st: State, s: Snapshot, gpus: seq<Gpu>, n: nat)
    requires 0 <= s.at && n <= |gpus| && DistinctUuids(gpus)
    requires Chained(st) && IdOf(s) in st.samples && st.samples[IdOf(s)] == s.at
    requires NoPointYet(st.points, s, gpus, 0)
    ensures var r := StoreGpus(st, s, gpus, n);
            && r.Ok?
            && Chained(r.value)
            && (Exact(st) ==> Exact(r.value))
            && NoPointYet(r.value.points, s, gpus, n)
  {
    hide StorePoint, MakePoint, Chained, Exact;
    if n != 0 {
      StoreGpusKeep(st, s, gpus, n - 1);
      var before, g := StoreGpus(st, s, gpus, n - 1).value, gpus[n - 1];
      var c, p := Chain(s.node, g.uuid, s.boot), MakePoint(s, g);
      assert PointId(s.node, g.uuid, s.boot, s.number) !in before.points;
      StorePointChained(before, c, p);
      if Exact(st) {
        StorePointExact(before, c, p);
      }
      NoPointStep(before.points, s, gpus, n - 1, p);
    }
  }

  lemma NoPointStep(points: map<PointId, Point>, s: Snapshot, gpus: seq<Gpu>, n: nat, p: Point)
    requires n < |gpus| && NoPointYet(points, s, gpus, n)
    ensures NoPointYet(points[PointId(s.node, gpus[n].uuid, s.boot, s.number) := p], s, gpus, n + 1)
  {
  }

  // The points of a sample, one for each of the first n cards listed.
  ghost predicate PointsAdded(points: map<PointId, Point>, later: map<PointId, Point>, s: Snapshot, gpus: seq<Gpu>, n: nat)
    requires 0 <= s.at && n <= |gpus|
  {
    && (forall i :: i in points ==> i in later && later[i] == points[i])
    && (forall i :: i in later && i !in points ==>
          SampleOf(i) == IdOf(s) && exists j :: 0 <= j < n && gpus[j].uuid == i.uuid && later[i] == MakePoint(s, gpus[j]))
    && (forall j :: 0 <= j < n ==> PointId(s.node, gpus[j].uuid, s.boot, s.number) in later)
  }

  lemma PointsAddedNone(points: map<PointId, Point>, s: Snapshot, gpus: seq<Gpu>)
    requires 0 <= s.at
    ensures PointsAdded(points, points, s, gpus, 0)
  {
  }

  lemma PointAdded(points: map<PointId, Point>, before: map<PointId, Point>, s: Snapshot, gpus: seq<Gpu>, n: nat)
    requires 0 <= s.at && n < |gpus| && PointsAdded(points, before, s, gpus, n)
    requires PointId(s.node, gpus[n].uuid, s.boot, s.number) !in before
    ensures PointsAdded(points, before[PointId(s.node, gpus[n].uuid, s.boot, s.number) := MakePoint(s, gpus[n])], s, gpus, n + 1)
  {
    hide MakePoint;
  }

  lemma {:induction false} StoreGpusPoints(st: State, s: Snapshot, gpus: seq<Gpu>, n: nat)
    requires 0 <= s.at && n <= |gpus| && StoreGpus(st, s, gpus, n).Ok?
    ensures PointsAdded(st.points, StoreGpus(st, s, gpus, n).value.points, s, gpus, n)
  {
    hide StorePoint, MakePoint, PointsAdded;
    if n == 0 {
      PointsAddedNone(st.points, s, gpus);
    } else {
      StoreGpusPoints(st, s, gpus, n - 1);
      var before := StoreGpus(st, s, gpus, n - 1).value;
      PointAdded(st.points, before.points, s, gpus, n - 1);
      assert StoreGpus(st, s, gpus, n).value.points
          == before.points[PointId(s.node, gpus[n - 1].uuid, s.boot, s.number) := MakePoint(s, gpus[n - 1])];
    }
  }

  // Rows of the gpus table only appear, or move to an earlier first time.
  ghost predicate SeenGrows(gpus: map<GpuId, Seen>, later: map<GpuId, Seen>) {
    forall i :: i in gpus ==> i in later && later[i].first <= gpus[i].first
  }

  lemma {:induction false} StoreGpusSeen(st: State, s: Snapshot, gpus: seq<Gpu>, n: nat)
    requires 0 <= s.at && n <= |gpus| && StoreGpus(st, s, gpus, n).Ok?
    ensures var later := StoreGpus(st, s, gpus, n).value.gpus;
            && SeenGrows(st.gpus, later)
            && (forall j :: 0 <= j < n ==> GpuId(s.node, gpus[j].uuid) in later && later[GpuId(s.node, gpus[j].uuid)].first <= s.at)
  {
    hide Link, Note, MakePoint;
    if n != 0 {
      StoreGpusSeen(st, s, gpus, n - 1);
      var before := StoreGpus(st, s, gpus, n - 1).value;
      assert StoreGpus(st, s, gpus, n).value.gpus == SeeGpu(before.gpus, GpuId(s.node, gpus[n - 1].uuid), s.at);
    }
  }

  /******* The inventory *******/

  // A failed inventory inherits the known cards: the lookup of first_seen finds a row,
  // no card is listed twice, and a sample newer than the live one inherits every card.
  lemma {:induction false} InheritKnown(gpus: map<GpuId, Seen>, live: Live, s: Snapshot, n: nat)
    requires n <= |live.gpus| && KnownCards(live, s.node, gpus) && DistinctUuids(s.gpus)
    ensures var r := Inherit(gpus, live.gpus, s, n);
            && r.Ok?
            && s.gpus <= r.value
            && DistinctUuids(r.value)
            && (forall i :: |s.gpus| <= i < |r.value| ==>
                  exists j :: 0 <= j < n && live.gpus[j].uuid == r.value[i].uuid)
            && (s.at >= live.sampleAt ==> forall j :: 0 <= j < n ==> live.gpus[j].uuid in Uuids(r.value))
  {
    if n != 0 {
      InheritKnown(gpus, live, s, n - 1);
      var before, g := Inherit(gpus, live.gpus, s, n - 1).value, live.gpus[n - 1];
      var after := Inherit(gpus, live.gpus, s, n).value;
      UuidsPrefix(s.gpus, before);
      UuidsPrefix(before, after);
      if after != before {
        assert after == before + [QueryFailed(g, s.gpuStatus)];
        assert after[|before|].uuid == g.uuid;
        forall i | 0 <= i < |before| ensures before[i].uuid != g.uuid {
          if i < |s.gpus| {
            assert before[i] == s.gpus[i];
          }
        }
      }
    }
  }

  lemma {:induction false} LostCards(known: seq<Gpu>, present: set<string>, n: nat)
    requires n <= |known| && DistinctUuids(known)
    ensures DistinctUuids(Lost(known, present, n))
    ensures Uuids(Lost(known, present, n)) == Uuids(known[..n]) - present
  {
    if n != 0 {
      LostCards(known, present, n - 1);
      var before, g := Lost(known, present, n - 1), known[n - 1];
      UuidsAppend(known[..n - 1], g);
      assert known[..n] == known[..n - 1] + [g];
      assert g.uuid !in Uuids(known[..n - 1]);
      if g.uuid !in present {
        UuidsAppend(before, NotDetected(g));
        assert forall i :: 0 <= i < |before| ==> before[i].uuid in Uuids(before);
      }
    }
  }


  lemma KnownCardsGrow(live: Live, node: string, gpus: map<GpuId, Seen>, later: map<GpuId, Seen>)
    requires KnownCards(live, node, gpus) && SeenGrows(gpus, later)
    ensures KnownCards(live, node, later)
  {
  }

  // The cards of a snapshot that becomes the live one: each listed once, none forgotten.
  lemma NewLiveKnown(s: Snapshot, gpus: seq<Gpu>, known: Live, seen: map<GpuId, Seen>)
    requires KnownCards(known, s.node, seen) && DistinctUuids(gpus) && known.sampleAt < s.at
    requires s.gpuStatus != "ok" ==> Uuids(known.gpus) <= Uuids(gpus)
    requires forall j :: 0 <= j < |gpus| ==> GpuId(s.node, gpus[j].uuid) in seen && seen[GpuId(s.node, gpus[j].uuid)].first <= s.at
    ensures KnownCards(NewLive(s, gpus, known), s.node, seen)
    ensures Uuids(known.gpus) <= Uuids(NewLive(s, gpus, known).gpus)
  {
    if s.gpuStatus == "ok" {
      var lost := Lost(known.gpus, Uuids(gpus), |known.gpus|);
      LostCards(known.gpus, Uuids(gpus), |known.gpus|);
      assert known.gpus[..|known.gpus|] == known.gpus;
      var all := gpus + lost;
      assert forall i :: 0 <= i < |gpus| ==> gpus[i].uuid in Uuids(gpus);
      forall i | 0 <= i < |lost|
        ensures lost[i].uuid in Uuids(known.gpus) && lost[i].uuid !in Uuids(gpus)
        ensures GpuId(s.node, lost[i].uuid) in seen && seen[GpuId(s.node, lost[i].uuid)].first <= s.at
      {
        assert lost[i].uuid in Uuids(lost);
      }
      assert DistinctUuids(all);
      UuidsConcat(gpus, lost);
    } else {
      assert gpus + [] == gpus;
    }
  }


  /******* One snapshot *******/

  // What a snapshot leaves of the nodes table: cards are never forgotten, the sample time
  // of its node is the greatest one seen, and no other node changes.
  ghost predicate NodesAdvance(nodes: map<string, Live>, later: map<string, Live>, s: Snapshot) {
    && later.Keys == nodes.Keys
    && s.node in nodes
    && later[s.node].sampleAt == Max(nodes[s.node].sampleAt, s.at)
    && (forall n :: n in nodes ==> Uuids(nodes[n].gpus) <= Uuids(later[n].gpus))
    && (forall n :: n in nodes && n != s.node ==> later[n] == nodes[n])
  }

  lemma AllGpusKnown(st: State, s: Snapshot)
    requires Inventory(st) && s.node in st.nodes && DistinctUuids(s.gpus)
    ensures var r := AllGpus(st, s);
            && r.Ok?
            && s.gpus <= r.value
            && DistinctUuids(r.value)
            && (s.gpuStatus != "ok" && s.at >= st.nodes[s.node].sampleAt ==>
                  Uuids(st.nodes[s.node].gpus) <= Uuids(r.value))
  {
    if s.gpuStatus != "ok" {
      InheritKnown(st.gpus, st.nodes[s.node], s, |st.nodes[s.node].gpus|);
    }
  }

  // Finishing changes the row of the node, and appends events.
  lemma FinishNode(stored: State, s: Snapshot, gpus: seq<Gpu>, backfill: bool, now: int)
    requires s.node in stored.nodes
    ensures var r, known := Finish(stored, s, gpus, backfill, now), stored.nodes[s.node];
            && r.points == stored.points && r.edges == stored.edges && r.rollups == stored.rollups
            && r.samples == stored.samples && r.gpus == stored.gpus
            && r.nodes.Keys == stored.nodes.Keys
            && (forall n :: n in stored.nodes && n != s.node ==> r.nodes[n] == stored.nodes[n])
            && r.nodes[s.node].sampleAt == Max(known.sampleAt, s.at)
            && r.nodes[s.node].gpus == if s.at > known.sampleAt then NewLive(s, gpus, known).gpus else known.gpus
  {
  }

  lemma FinishKeeps(stored: State, s: Snapshot, gpus: seq<Gpu>, backfill: bool, now: int)
    requires s.node in stored.nodes
    requires Chained(stored) && Inventory(stored) && DistinctUuids(gpus)
    requires forall i :: i in stored.samples && i != IdOf(s) ==> i.node in stored.nodes && stored.samples[i] <= stored.nodes[i.node].sampleAt
    requires IdOf(s) in stored.samples && stored.samples[IdOf(s)] == s.at
    requires s.gpuStatus != "ok" && s.at > stored.nodes[s.node].sampleAt ==> Uuids(stored.nodes[s.node].gpus) <= Uuids(gpus)
    requires forall j :: 0 <= j < |gpus| ==>
               GpuId(s.node, gpus[j].uuid) in stored.gpus && stored.gpus[GpuId(s.node, gpus[j].uuid)].first <= s.at
    ensures var r := Finish(stored, s, gpus, backfill, now);
            && Sound(r)
            && NodesAdvance(stored.nodes, r.nodes, s)
  {
    hide Finish, NewLive, DistinctUuids;
    var r, known := Finish(stored, s, gpus, backfill, now), stored.nodes[s.node];
    FinishNode(stored, s, gpus, backfill, now);
    if s.at > known.sampleAt {
      NewLiveKnown(s, gpus, known, stored.gpus);
    }
    assert KnownCards(r.nodes[s.node], s.node, r.gpus);
    assert Chained(r);
  }

  // A snapshot with a new identity is never refused, and keeps the tables sound and exact.
  lemma InsertKeeps(st: State, s: Snapshot, backfill: bool, now: int)
    requires Sound(st) && s.node in st.nodes && 0 <= s.at && DistinctUuids(s.gpus)
    requires IdOf(s) !in st.samples && Consistent(st.samples, s)
    ensures var r := Insert(st, s, backfill, now);
            && r.Ok?
            && Sound(r.value)
            && (Exact(st) ==> Exact(r.value))
            && NodesAdvance(st.nodes, r.value.nodes, s)
            && r.value.samples == st.samples[IdOf(s) := s.at]
  {
    hide Links, Balanced, MakePoint, StorePoint, DistinctUuids, KnownCards, Receive, UpdateLive, NodesAdvance;
    var recorded := RecordSample(st, s);
    RecordChained(st, s);
    AllGpusKnown(st, s);
    var gpus := AllGpus(st, s).value;
    assert NoPointYet(recorded.points, s, gpus, 0);
    StoreGpusKeep(recorded, s, gpus, |gpus|);
    StoreGpusSeen(recorded, s, gpus, |gpus|);
    var stored := StoreGpus(recorded, s, gpus, |gpus|).value;
    forall n | n in st.nodes {
      KnownCardsGrow(st.nodes[n], n, st.gpus, stored.gpus);
    }
    FinishKeeps(stored, s, gpus, backfill, now);
    FinishNode(stored, s, gpus, backfill, now);
    if Exact(st) {
      SameLedger(st, recorded);
      SameLedger(stored, Finish(stored, s, gpus, backfill, now));
    }
  }

  // On sound tables a snapshot is refused only by validation or for want of a node row:
  // the lookup of first_seen always finds a row and the key of a point never clashes.
  lemma OnlyTheGateRefuses(st: State, s: Snapshot, backfill: bool, now: HubTime)
    requires Sound(st) && Consistent(st.samples, s)
    ensures Ingest(st, s, backfill, now).Err? <==>
              !Acceptable(s, now) || (IdOf(s) !in st.samples && s.node !in st.nodes)
    ensures Ingest(st, s, backfill, now).Err? ==> Ingest(st, s, backfill, now).error in {Rejected, UnknownNode}
  {
    hide Insert;
    if Acceptable(s, now) && IdOf(s) !in st.samples && s.node in st.nodes {
      InsertKeeps(st, s, backfill, now);
    }
  }

  /******* One step *******/

  lemma PruneSound(st: State, now: int)
    requires Sound(st)
    ensures Sound(Prune(st, now))
  {
  }

  ghost predicate CardsKept(nodes: map<string, Live>, later: map<string, Live>) {
    forall n :: n in nodes ==> n in later && Uuids(nodes[n].gpus) <= Uuids(later[n].gpus) && nodes[n].sampleAt <= later[n].sampleAt
  }

  lemma StepKeeps(st: State, op: Op)
    requires Sound(st) && (op.Upload? ==> Consistent(st.samples, op.s))
    ensures Sound(Step(st, op)) && CardsKept(st.nodes, Step(st, op).nodes)
    ensures Exact(st) && !op.Clean? ==> Exact(Step(st, op))
  {
    hide Insert, Links, Balanced, Uuids;
    match op
    case Upload(s, backfill, now) =>
      if Acceptable(s, now) && IdOf(s) !in st.samples && s.node in st.nodes {
        InsertKeeps(st, s, backfill, now);
      }
    case Clean(now) =>
      PruneSound(st, now);
    case AddNode(node) =>
      AddNodeKeeps(st, node);
  }

  lemma AddNodeKeeps(st: State, node: string)
    requires Sound(st)
    ensures Sound(Step(st, AddNode(node)))
    ensures Exact(st) ==> Exact(Step(st, AddNode(node)))
  {
    hide Uuids, Exact, Numbered, DistinctSampleTimes;
    if Exact(st) {
      SameLedger(st, Step(st, AddNode(node)));
    }
  }

  /******* All runs *******/

  // Every stored sample was uploaded.
  ghost predicate From(samples: map<SampleId, int>, ops: seq<Op>) {
    forall i :: i in samples ==> exists op :: op in ops && op.Upload? && IdOf(op.s) == i && op.s.at == samples[i]
  }

  lemma CoherentConsistent(ops: seq<Op>, op: Op, samples: map<SampleId, int>)
    requires Coherent(ops) && op in ops && op.Upload? && From(samples, ops)
    ensures Consistent(samples, op.s)
  {
    forall i | i in samples && i.node == op.s.node && i.boot == op.s.boot
      ensures i.number == op.s.number <==> samples[i] == op.s.at
    {
      var other :| other in ops && other.Upload? && IdOf(other.s) == i && other.s.at == samples[i];
      assert Agree(other.s, op.s);
    }
  }

  lemma StepSamples(st: State, op: Op)
    requires Sound(st) && (op.Upload? ==> Consistent(st.samples, op.s))
    ensures forall i :: i in Step(st, op).samples ==>
              || (i in st.samples && Step(st, op).samples[i] == st.samples[i])
              || (op.Upload? && i == IdOf(op.s) && Step(st, op).samples[i] == op.s.at)
  {
    hide Insert;
    if op.Upload? && Acceptable(op.s, op.now) && IdOf(op.s) !in st.samples && op.s.node in st.nodes {
      InsertKeeps(st, op.s, op.backfill, op.now);
    }
  }

  ghost predicate NoCleans(ops: seq<Op>) {
    forall op :: op in ops ==> !op.Clean?
  }

  // Every run, with any interleaving of late, early and repeated samples and of prunes.
  lemma {:induction false} RunKeeps(ops: seq<Op>)
    requires Coherent(ops)
    ensures Sound(Run(ops)) && From(Run(ops).samples, ops)
    ensures NoCleans(ops) ==> Exact(Run(ops))
  {
    if ops == [] {
      EmptyExact();
    } else {
      var n := |ops| - 1;
      var st, op := Run(ops[..n]), ops[n];
      RunKeeps(ops[..n]);
      assert From(st.samples, ops);
      if op.Upload? {
        CoherentConsistent(ops, op, st.samples);
      }
      StepKeeps(st, op);
      StepSamples(st, op);
      FromStep(st, op, ops);
    }
  }

  lemma FromStep(st: State, op: Op, ops: seq<Op>)
    requires op in ops && From(st.samples, ops)
    requires Sound(st) && (op.Upload? ==> Consistent(st.samples, op.s))
    ensures From(Step(st, op).samples, ops)
  {
    hide Step, Consistent, Sound;
    StepSamples(st, op);
  }

  lemma EmptyExact()
    ensures Exact(Empty())
  {
    var points: map<PointId, Point>, edges: map<PointId, Edge> := map[], map[];
    assert Links(points) == edges;
    forall k: CellKey
      ensures Empty().rollups[k] == Total(edges, k)
    {
      assert CellsOfEdges(edges, k) == map[];
    }
  }

  // Known cards never vanish: later in any run, with prunes or without, every node still
  // lists each card it ever listed, once, and the card's row is there.
  lemma {:induction false} CardsNeverVanish(ops: seq<Op>, n: nat)
    requires Coherent(ops) && n <= |ops|
    ensures CardsKept(Run(ops[..n]).nodes, Run(ops).nodes)
    ensures Inventory(Run(ops))
    decreases |ops| - n
  {
    hide Step, CardsKept, Sound, Agree, Consistent;
    RunKeeps(ops);
    SoundInventory(Run(ops));
    if n == |ops| {
      assert ops[..n] == ops;
      KeptSame(Run(ops).nodes);
    } else {
      CardsNeverVanish(ops, n + 1);
      assert ops[..n + 1][..n] == ops[..n];
      var st, op := Run(ops[..n]), ops[n];
      RunKeeps(ops[..n]);
      if op.Upload? {
        assert forall x :: x in ops[..n] ==> x in ops;
        CoherentConsistent(ops, op, st.samples);
      }
      StepKeeps(st, op);
      KeptTwice(st.nodes, Run(ops[..n + 1]).nodes, Run(ops).nodes);
    }
  }

  lemma SoundInventory(st: State)
    requires Sound(st)
    ensures Inventory(st)
  {
  }

  lemma KeptSame(nodes: map<string, Live>)
    ensures CardsKept(nodes, nodes)
  {
  }

  lemma KeptTwice(a: map<string, Live>, b: map<string, Live>, c: map<string, Live>)
    requires CardsKept(a, b) && CardsKept(b, c)
    ensures CardsKept(a, c)
  {
    hide Uuids;
  }

  // A node counts as seen at a time only if a sample that was fresh then, and was not
  // backfilled, arrived: clearing a backlog never brings an offline node back.
  ghost predicate SeenFresh(nodes: map<string, Live>, ops: seq<Op>) {
    forall n :: n in nodes && nodes[n].receivedAt != 0 ==>
      exists op :: op in ops && FreshFor(op, n, nodes[n].receivedAt)
  }

  ghost predicate FreshFor(op: Op, n: string, at: int) {
    op.Upload? && op.s.node == n && !op.backfill && op.now == at && op.now - op.s.at <= op.s.interval * 2000
  }

  lemma StepReceives(st: State, op: Op, n: string)
    requires n in Step(st, op).nodes
    ensures || (n in st.nodes && Step(st, op).nodes[n].receivedAt == st.nodes[n].receivedAt)
            || Step(st, op).nodes[n].receivedAt == 0
            || FreshFor(op, n, Step(st, op).nodes[n].receivedAt)
  {
    hide Acceptable, AllGpus, StoreGpus, NewlyMissing, Uuids, Lost;
  }

  lemma {:induction false} OnlyFreshReportsCount(ops: seq<Op>)
    ensures SeenFresh(Run(ops).nodes, ops)
  {
    hide Step, FreshFor;
    if ops != [] {
      var before, op := ops[..|ops| - 1], ops[|ops| - 1];
      OnlyFreshReportsCount(before);
      forall n | n in Run(ops).nodes && Run(ops).nodes[n].receivedAt != 0
        ensures exists b :: b in ops && FreshFor(b, n, Run(ops).nodes[n].receivedAt)
      {
        StepReceives(Run(before), op, n);
        if !FreshFor(op, n, Run(ops).nodes[n].receivedAt) {
          var b :| b in before && FreshFor(b, n, Run(before).nodes[n].receivedAt);
          assert b in ops;
        }
      }
    }
  }

  /******* Every committed sample is integrated *******/

  // The use of a card is known only if the card and its processes could be queried.
  predicate UseKnown(g: Gpu) {
    g.status == "ok" && g.processStatus == "ok"
  }

  // A point says of a card what the sample said of it.
  ghost predicate Says(p: Point, s: Snapshot, g: Gpu) {
    && p.at == s.at && p.interval == s.interval && p.number == s.number && p.status == g.status
    && (p.occupied <==> g.processes != [])
    && (p.processValid <==> UseKnown(g))
    && (p.userValid <==> UseKnown(g) && forall q :: q in g.processes ==> q.uid != "")
    && (forall u :: u in p.users <==> u != "" && exists q :: q in g.processes && q.uid == u)
    && (g.status == "ok" ==> p.util == g.util && p.memory == g.memoryUsed)
    && (g.status != "ok" ==> p.util == None && p.memory == None)
  }

  lemma MakePointSays(s: Snapshot, g: Gpu)
    requires 0 <= s.at
    ensures Says(MakePoint(s, g), s, g)
  {
    var p := MakePoint(s, g);
    forall u
      ensures u in p.users <==> u != "" && exists q :: q in g.processes && q.uid == u
    {
      if q :| q in g.processes && q.uid == u {
        var j :| 0 <= j < |g.processes| && g.processes[j] == q;
      }
    }
  }

  // Each card that the sample lists has its point, as the sample says.
  ghost predicate Integrated(points: map<PointId, Point>, s: Snapshot) {
    0 <= s.at && forall g :: g in s.gpus ==>
      var i := PointId(s.node, g.uuid, s.boot, s.number);
      i in points && Says(points[i], s, g)
  }

  // A sample of the node that is sent again is the same sample.
  ghost predicate VerbatimFrom(ops: seq<Op>, node: string) {
    forall a, b :: a in ops && b in ops && a.Upload? && b.Upload? && a.s.node == node && IdOf(a.s) == IdOf(b.s) ==> a.s == b.s
  }

  lemma NewPoints(points: map<PointId, Point>, later: map<PointId, Point>, s: Snapshot, gpus: seq<Gpu>, g: Gpu)
    requires 0 <= s.at && DistinctUuids(gpus) && PointsAdded(points, later, s, gpus, |gpus|) && g in gpus
    requires PointId(s.node, g.uuid, s.boot, s.number) !in points
    ensures PointId(s.node, g.uuid, s.boot, s.number) in later
    ensures later[PointId(s.node, g.uuid, s.boot, s.number)] == MakePoint(s, g)
  {
    hide MakePoint;
    var k :| 0 <= k < |gpus| && gpus[k] == g;
    var i := PointId(s.node, g.uuid, s.boot, s.number);
    assert i in later;
    var j :| 0 <= j < |gpus| && gpus[j].uuid == i.uuid && later[i] == MakePoint(s, gpus[j]);
    assert j == k;
  }

  lemma InsertIntegrates(st: State, s: Snapshot, backfill: bool, now: int)
    requires Sound(st) && s.node in st.nodes && 0 <= s.at && DistinctUuids(s.gpus)
    requires IdOf(s) !in st.samples && Consistent(st.samples, s)
    ensures Insert(st, s, backfill, now).Ok?
    ensures Integrated(Insert(st, s, backfill, now).value.points, s)
    ensures forall i :: i in st.points ==>
              i in Insert(st, s, backfill, now).value.points && Insert(st, s, backfill, now).value.points[i] == st.points[i]
  {
    hide MakePoint, Says, StoreGpus, Finish, DistinctUuids, Inventory, SamplesKnown, Consistent, Links, Balanced, PointsAdded, NodesAdvance,
         Uuids;
    InsertKeeps(st, s, backfill, now);
    AllGpusKnown(st, s);
    var gpus, recorded := AllGpus(st, s).value, RecordSample(st, s);
    var stored := StoreGpus(recorded, s, gpus, |gpus|).value;
    StoreGpusPoints(recorded, s, gpus, |gpus|);
    FinishNode(stored, s, gpus, backfill, now);
    PointsStay(st.points, stored.points, s, gpus);
    forall g | g in s.gpus
      ensures var i := PointId(s.node, g.uuid, s.boot, s.number);
              i in stored.points && Says(stored.points[i], s, g)
    {
      assert g in gpus;
      MakePointSays(s, g);
      NewPoints(st.points, stored.points, s, gpus, g);
    }
  }

  lemma PointsStay(points: map<PointId, Point>, later: map<PointId, Point>, s: Snapshot, gpus: seq<Gpu>)
    requires 0 <= s.at && PointsAdded(points, later, s, gpus, |gpus|)
    ensures forall i :: i in points ==> i in later && later[i] == points[i]
  {
  }

  lemma StillIntegrated(points: map<PointId, Point>, later: map<PointId, Point>, s: Snapshot)
    requires Integrated(points, s) && forall i :: i in points ==> i in later && later[i] == points[i]
    ensures Integrated(later, s)
  {
    hide Says;
  }

  // Every sample of a node that the hub has taken in has left its points, so it is part of
  // the batch integral.
  lemma {:induction false} CommittedIsIntegrated(ops: seq<Op>, node: string)
    requires Coherent(ops) && NoCleans(ops) && VerbatimFrom(ops, node)
    ensures forall op :: op in ops && op.Upload? && op.s.node == node && IdOf(op.s) in Run(ops).samples ==>
              Integrated(Run(ops).points, op.s)
  {
    hide Insert, Integrated, Sound, Exact, Consistent, Agree, Acceptable;
    if ops != [] {
      var before, op := ops[..|ops| - 1], ops[|ops| - 1];
      var st := Run(before);
      CommittedIsIntegrated(before, node);
      RunKeeps(before);
      var inserts := op.Upload? && Acceptable(op.s, op.now) && op.s.node in st.nodes && IdOf(op.s) !in st.samples;
      if inserts {
        CoherentConsistent(ops, op, st.samples);
        AcceptedShape(op.s, op.now);
        InsertIntegrates(st, op.s, op.backfill, op.now);
        InsertKeeps(st, op.s, op.backfill, op.now);
      } else {
        assert Run(ops).points == st.points && Run(ops).samples == st.samples;
      }
      forall a | a in ops && a.Upload? && a.s.node == node && IdOf(a.s) in Run(ops).samples
        ensures Integrated(Run(ops).points, a.s)
      {
        if IdOf(a.s) in st.samples {
          var b :| b in before && b.Upload? && IdOf(b.s) == IdOf(a.s) && b.s.at == st.samples[IdOf(a.s)];
          assert a.s == b.s;
          StillIntegrated(st.points, Run(ops).points, a.s);
        } else {
          assert a.s == op.s;
        }
      }
    }
  }

  lemma AcceptedShape(s: Snapshot, now: HubTime)
    requires Acceptable(s, now)
    ensures 0 <= s.at && DistinctUuids(s.gpus)
  {
  }
}
