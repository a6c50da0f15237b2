/**
 Pruning is invisible (internal/hub/prune.go): a hub that discards old points, edges and
 samples keeps every unexpired cell equal to that of a hub that never discards anything.
 It rests on two ages: a sample is accepted for 25 hours, raw rows are kept for 48, and
 no accepted edge spans the 23 hours in between.
 */
module Retention {
  import opened Wrappers
  import opened Amounts
  import opened Model
  import opened Rollups
  import opened Tables
  import opened Ingestion
  import opened Linking
  import opened Ledger
  import opened Validation
  import Batch

  ghost predicate ShortIntervals(points: map<PointId, Point>) {
    forall i :: i in points ==> 2 <= points[i].interval <= 60
  }

  ghost predicate EdgesMirror(full: map<PointId, Edge>, kept: map<PointId, Edge>, points: map<PointId, Point>) {
    && (forall i :: i in kept ==> i in full && full[i] == kept[i] && i in points)
    && (forall i :: i in full && i in points && i !in kept ==> full[i].data == Cells([]))
  }

  // What a pruned hub keeps of one that was never pruned; pruned is the time of the last
  // prune. Events are not compared.
  ghost predicate Mirrors(full: State, st: State, pruned: int) {
    && st.samples == RecentSamples(full.samples, pruned - RAW_AGE)
    && st.points == RecentPoints(full.points, pruned - RAW_AGE)
    && st.gpus == full.gpus && st.nodes == full.nodes
    && EdgesMirror(full.edges, st.edges, st.points)
    && (forall k: CellKey :: !Expired(k, pruned) ==> Read(st.rollups, k) == Read(full.rollups, k))
  }

  /******* Storing one point on both sides *******/

  lemma BeforeMirrors(full: map<PointId, Point>, cutoff: int, c: Chain, at: int)
    ensures var b, kept := Before(full, c, at), RecentPoints(full, cutoff);
            Before(kept, c, at) == if b.Some? && full[b.value].at >= cutoff then b else None
  {
    var kept, b := RecentPoints(full, cutoff), Before(full, c, at);
    assert forall j :: j in Earlier(kept, c, at) ==> j in Earlier(full, c, at);
    if b.Some? && full[b.value].at >= cutoff {
      BeforeIs(kept, c, at, b.value);
    } else {
      assert Earlier(kept, c, at) == {};
    }
  }

  lemma AfterMirrors(full: map<PointId, Point>, cutoff: int, c: Chain, at: int)
    requires cutoff <= at
    ensures After(RecentPoints(full, cutoff), c, at) == After(full, c, at)
  {
    assert Later(RecentPoints(full, cutoff), c, at) == Later(full, c, at);
    var a := After(full, c, at);
    if a.Some? {
      AfterIs(RecentPoints(full, cutoff), c, at, a.value);
    }
  }

  lemma OldCellMirrors(full: State, st: State, pruned: int, id: PointId, k: CellKey)
    requires EdgesMirror(full.edges, st.edges, st.points) && id in st.points
    ensures OldCell(st.edges, id, k) == OldCell(full.edges, id, k)
  {
    assert Cells([])[k] == ZERO;
  }

  // Both sides replace the same edge.
  lemma SetEdgeMirrors(full: State, st: State, pruned: int, id: PointId, e: Edge)
    requires Mirrors(full, st, pruned) && id in st.points
    ensures Mirrors(SetEdge(full, id, e), SetEdge(st, id, e), pruned)
  {
    hide Add, Sub, OldCell, Read, Cells;
    forall k: CellKey | !Expired(k, pruned)
      ensures Read(SetEdge(full, id, e).rollups, k) == Read(SetEdge(st, id, e).rollups, k)
    {
      OldCellMirrors(full, st, pruned, id, k);
      SetEdgeRead(full, id, e, k);
      SetEdgeRead(st, id, e, k);
    }
  }

  lemma SetEdgeRead(st: State, id: PointId, e: Edge, k: CellKey)
    ensures Read(SetEdge(st, id, e).rollups, k) == Add(Sub(Read(st.rollups, k), OldCell(st.edges, id, k)), Read(e.data, k))
  {
  }

  lemma EmptyEdgeRead(st: State, id: PointId, e: Edge, k: CellKey)
    requires id !in st.edges && e.data == Cells([])
    ensures Read(SetEdge(st, id, e).rollups, k) == Read(st.rollups, k)
  {
    hide Cells;
    NothingAdded(k);
    NothingWithdrawn(Read(st.rollups, k));
    SetEdgeRead(st, id, e, k);
  }

  lemma NothingAdded(k: CellKey)
    ensures Read(Cells([]), k) == ZERO
  {
    assert Cells([])[k] == ZERO;
  }

  lemma NothingWithdrawn(a: Amounts)
    ensures Add(Sub(a, ZERO), ZERO) == a
  {
  }

  // Only the unpruned side writes the edge, and the edge adds nothing.
  lemma EmptyEdgeMirrors(full: State, st: State, pruned: int, id: PointId, e: Edge)
    requires Mirrors(full, st, pruned)
    requires id !in full.edges && id !in st.edges && e.data == Cells([])
    ensures Mirrors(SetEdge(full, id, e), st, pruned)
  {
    hide Add, Sub, OldCell, Read, Cells;
    forall k: CellKey
      ensures Read(SetEdge(full, id, e).rollups, k) == Read(full.rollups, k)
    {
      EmptyEdgeRead(full, id, e, k);
    }
  }

  lemma FarApart(c: Chain, a: Point, b: Point)
    requires a.interval <= 60 && b.at - a.at > 120_000
    ensures MakeEdge(c, a, b).data == Cells([])
  {
    NotJoinable(c.node, c.uuid, a, b);
  }

  lemma StoredMirrors(full: State, st: State, pruned: int, id: PointId, p: Point)
    requires Mirrors(full, st, pruned) && p.at >= pruned - RAW_AGE
    requires id !in full.points && id !in full.edges
    ensures Mirrors(full.(points := full.points[id := p]), st.(points := st.points[id := p]), pruned)
  {
  }

  // The edge from the earlier neighbour: a neighbour that was pruned is too far away to be joined.
  lemma LeftMirrors(full: State, st: State, pruned: int, c: Chain, p: Point, b: Option<Point>, id: PointId)
    requires Mirrors(full, st, pruned) && id in st.points && id !in full.edges && id == PointId(c.node, c.uuid, c.boot, p.number)
    requires b.Some? ==> b.value.interval <= 60
    requires p.at >= pruned - MAX_AGE
    ensures Mirrors(if b.Some? then Relink(full, c, b.value, p) else full,
                    if b.Some? && b.value.at >= pruned - RAW_AGE then Relink(st, c, b.value, p) else st,
                    pruned)
  {
    hide MakeEdge, SetEdge;
    if b.Some? {
      if b.value.at >= pruned - RAW_AGE {
        SetEdgeMirrors(full, st, pruned, id, MakeEdge(c, b.value, p));
      } else {
        FarApart(c, b.value, p);
        EmptyEdgeMirrors(full, st, pruned, id, MakeEdge(c, b.value, p));
      }
    }
  }

  lemma LinkMirrors(full: State, st: State, pruned: int, c: Chain, p: Point)
    requires Mirrors(full, st, pruned) && p.at >= pruned - MAX_AGE
    requires Numbered(full.points) && ShortIntervals(full.points) && full.edges.Keys <= full.points.Keys
    requires PointId(c.node, c.uuid, c.boot, p.number) !in full.points
    ensures Mirrors(Link(full, c, p), Link(st, c, p), pruned)
  {
    hide EdgesMirror, MakeEdge, SetEdge, Read, Expired;
    var cutoff, id := pruned - RAW_AGE, PointId(c.node, c.uuid, c.boot, p.number);
    BeforeMirrors(full.points, cutoff, c, p.at);
    AfterMirrors(full.points, cutoff, c, p.at);
    StoredMirrors(full, st, pruned, id, p);
    var b, a := PreviousPoint(full.points, c, p.at), NextPoint(full.points, c, p.at);
    assert a == NextPoint(st.points, c, p.at);
    assert PreviousPoint(st.points, c, p.at) == if b.Some? && b.value.at >= cutoff then b else None;
    var full0, st0 := full.(points := full.points[id := p]), st.(points := st.points[id := p]);
    LeftMirrors(full0, st0, pruned, c, p, b, id);
    var full1 := if b.Some? then Relink(full0, c, b.value, p) else full0;
    var st1 := if b.Some? && b.value.at >= cutoff then Relink(st0, c, b.value, p) else st0;
    if a.Some? {
      var next := PointId(c.node, c.uuid, c.boot, a.value.number);
      assert next == After(full.points, c, p.at).value;
      SetEdgeMirrors(full1, st1, pruned, next, MakeEdge(c, p, a.value));
    }
  }

  lemma StorePointMirrors(full: State, st: State, pruned: int, c: Chain, p: Point)
    requires Mirrors(full, st, pruned) && p.at >= pruned - MAX_AGE
    requires Numbered(full.points) && ShortIntervals(full.points) && full.edges.Keys <= full.points.Keys
    requires PointId(c.node, c.uuid, c.boot, p.number) !in full.points
    ensures Mirrors(StorePoint(full, c, p), StorePoint(st, c, p), pruned)
  {
    hide Link, Note, EdgesMirror, Expired, Read;
    LinkMirrors(full, st, pruned, c, p);
  }

  /******* One snapshot on both sides *******/

  lemma StoreGpuMirrors(full: State, st: State, pruned: int, s: Snapshot, g: Gpu)
    requires 0 <= s.at && 2 <= s.interval <= 60 && s.at >= pruned - MAX_AGE
    requires Mirrors(full, st, pruned) && ShortIntervals(full.points) && Chained(full) && Exact(full)
    requires StoreGpu(full, s, g).Ok?
    ensures StoreGpu(st, s, g).Ok? && Mirrors(StoreGpu(full, s, g).value, StoreGpu(st, s, g).value, pruned)
    ensures ShortIntervals(StoreGpu(full, s, g).value.points)
  {
    hide Link, Note, MakePoint, Balanced, EdgesMirror, Expired, Read, LinkOf, BeforeOf;
    StorePointMirrors(full, st, pruned, Chain(s.node, g.uuid, s.boot), MakePoint(s, g));
  }

  lemma {:induction false} StoreGpusMirrors(full: State, st: State, pruned: int, s: Snapshot, gpus: seq<Gpu>, n: nat)
    requires 0 <= s.at && n <= |gpus| && DistinctUuids(gpus) && 2 <= s.interval <= 60 && s.at >= pruned - MAX_AGE
    requires Mirrors(full, st, pruned) && ShortIntervals(full.points)
    requires Chained(full) && Exact(full) && IdOf(s) in full.samples && full.samples[IdOf(s)] == s.at
    requires NoPointYet(full.points, s, gpus, 0)
    ensures var f, r := StoreGpus(full, s, gpus, n), StoreGpus(st, s, gpus, n);
            f.Ok? && r.Ok? && Mirrors(f.value, r.value, pruned) && ShortIntervals(f.value.points)
  {
    hide StoreGpu, Chained, Exact, Mirrors, ShortIntervals, DistinctUuids, NoPointYet;
    StoreGpusKeep(full, s, gpus, n);
    if n != 0 {
      StoreGpusMirrors(full, st, pruned, s, gpus, n - 1);
      StoreGpusKeep(full, s, gpus, n - 1);
      StoreGpuMirrors(StoreGpus(full, s, gpus, n - 1).value, StoreGpus(st, s, gpus, n - 1).value, pruned, s, gpus[n - 1]);
    }
  }

  lemma InsertMirrors(full: State, st: State, pruned: int, s: Snapshot, backfill: bool, now: int)
    requires Mirrors(full, st, pruned) && ShortIntervals(full.points) && Sound(full) && Exact(full)
    requires s.node in full.nodes && 0 <= s.at && DistinctUuids(s.gpus) && 2 <= s.interval <= 60 && s.at >= pruned - MAX_AGE
    requires IdOf(s) !in full.samples && Consistent(full.samples, s)
    ensures var f, r := Insert(full, s, backfill, now), Insert(st, s, backfill, now);
            f.Ok? && r.Ok? && Mirrors(f.value, r.value, pruned) && ShortIntervals(f.value.points)
  {
    hide StoreGpus, MakePoint, Balanced, EdgesMirror, Expired, Read, Links, KnownCards, Finish, ShortIntervals, DistinctUuids,
         Consistent, SamplesKnown, Inherit, Uuids;
    var full0, st0 := RecordSample(full, s), RecordSample(st, s);
    RecordChained(full, s);
    SameLedger(full, full0);
    assert Mirrors(full0, st0, pruned);
    AllGpusKnown(full, s);
    var gpus := AllGpus(full, s).value;
    assert AllGpus(st, s) == AllGpus(full, s);
    assert NoPointYet(full0.points, s, gpus, 0);
    StoreGpusMirrors(full0, st0, pruned, s, gpus, |gpus|);
    var full1, st1 := StoreGpus(full0, s, gpus, |gpus|).value, StoreGpus(st0, s, gpus, |gpus|).value;
    FinishMirrors(full1, st1, pruned, s, gpus, backfill, now);
  }

  lemma FinishMirrors(full: State, st: State, pruned: int, s: Snapshot, gpus: seq<Gpu>, backfill: bool, now: int)
    requires Mirrors(full, st, pruned) && s.node in full.nodes
    ensures Mirrors(Finish(full, s, gpus, backfill, now), Finish(st, s, gpus, backfill, now), pruned)
    ensures Finish(full, s, gpus, backfill, now).points == full.points
  {
    hide EdgesMirror, Expired, Read, NewLive, NewlyMissing;
  }

  /******* Runs *******/

  // The same run on a hub that never prunes.
  ghost function Unpruned(ops: seq<Op>): seq<Op> {
    if ops == [] then []
    else
      var last := ops[|ops| - 1];
      Unpruned(ops[..|ops| - 1]) + (if last.Clean? then [] else [last])
  }

  // The hub's clock at the end of a run does not run backwards over its steps.
  ghost function Clock(ops: seq<Op>): int {
    if ops == [] then 0
    else
      var last := ops[|ops| - 1];
      if last.AddNode? then Clock(ops[..|ops| - 1]) else last.now
  }

  ghost predicate Clocked(ops: seq<Op>) {
    ops != [] ==>
      var last := ops[|ops| - 1];
      Clocked(ops[..|ops| - 1]) && (last.AddNode? || Clock(ops[..|ops| - 1]) <= last.now)
  }

  ghost function LastPrune(ops: seq<Op>): int {
    if ops == [] then 0
    else
      var last := ops[|ops| - 1];
      if last.Clean? then last.now else LastPrune(ops[..|ops| - 1])
  }

  lemma {:induction false} PruneBeforeClock(ops: seq<Op>)
    requires Clocked(ops)
    ensures 0 <= LastPrune(ops) <= Clock(ops)
  {
    if ops != [] {
      PruneBeforeClock(ops[..|ops| - 1]);
    }
  }

  lemma {:induction false} UnprunedSubset(ops: seq<Op>)
    ensures forall op :: op in Unpruned(ops) ==> op in ops && !op.Clean?
  {
    if ops != [] {
      UnprunedSubset(ops[..|ops| - 1]);
    }
  }

  lemma UploadMirrors(full: State, st: State, pruned: int, op: Op)
    requires op.Upload? && pruned <= op.now && Consistent(full.samples, op.s)
    requires Mirrors(full, st, pruned) && ShortIntervals(full.points) && Sound(full) && Exact(full)
    ensures Mirrors(Step(full, op), Step(st, op), pruned) && ShortIntervals(Step(full, op).points)
    ensures IdOf(op.s) in full.samples ==> Step(st, op) == st
  {
    hide Insert, EdgesMirror, ShortIntervals, Links, Balanced, Expired, Read, KnownCards;
    var s := op.s;
    if Acceptable(s, op.now) {
      if IdOf(s) in full.samples {
        assert full.samples[IdOf(s)] == s.at;
        assert IdOf(s) in st.samples;
      } else if s.node in full.nodes {
        InsertMirrors(full, st, pruned, s, op.backfill, op.now);
      }
    }
  }

  lemma CleanMirrors(full: State, st: State, pruned: int, now: int)
    requires Mirrors(full, st, pruned) && pruned <= now
    ensures Mirrors(full, Prune(st, now), now)
  {
  }

  lemma AddNodeMirrors(full: State, st: State, pruned: int, node: string)
    requires Mirrors(full, st, pruned)
    ensures Mirrors(Step(full, AddNode(node)), Step(st, AddNode(node)), pruned)
  {
    hide EdgesMirror, Expired, Read;
  }

  lemma {:induction false} RunMirrors(ops: seq<Op>)
    requires Coherent(ops) && Clocked(ops)
    ensures Mirrors(Run(Unpruned(ops)), Run(ops), LastPrune(ops))
    ensures ShortIntervals(Run(Unpruned(ops)).points)
    decreases |ops|
  {
    hide Step, Mirrors, ShortIntervals, Sound, Exact, Consistent, Agree;
    if ops == [] {
      EmptyMirrors();
    } else {
      var before, op := ops[..|ops| - 1], ops[|ops| - 1];
      RunMirrors(before);
      PruneBeforeClock(before);
      var full, st := Run(Unpruned(before)), Run(before);
      UnprunedSubset(before);
      RunKeeps(Unpruned(before));
      assert op.Clean? ==> Unpruned(ops) == Unpruned(before);
      assert !op.Clean? ==> Unpruned(ops)[..|Unpruned(before)|] == Unpruned(before);
      match op
      case Upload(s, backfill, now) =>
        CoherentConsistent(ops, op, full.samples);
        UploadMirrors(full, st, LastPrune(before), op);
      case Clean(now) =>
        CleanMirrors(full, st, LastPrune(before), now);
        CleanStep(st, now);
      case AddNode(node) =>
        AddNodeMirrors(full, st, LastPrune(before), node);
        AddNodePoints(full, node);
    }
  }

  lemma EmptyMirrors()
    ensures Mirrors(Empty(), Empty(), 0) && ShortIntervals(Empty().points)
  {
  }

  lemma CleanStep(st: State, now: HubTime)
    ensures Step(st, Clean(now)) == Prune(st, now)
  {
  }

  lemma AddNodePoints(st: State, node: string)
    ensures Step(st, AddNode(node)).points == st.points
  {
  }

  // Pruning is invisible: in any interleaving of snapshots and prunes under a clock that
  // does not run backwards, an unexpired cell is the batch integral of every point that
  // was ever stored, including the ones long discarded.
  lemma {:induction false} PruningIsInvisible(ops: seq<Op>, k: CellKey)
    requires Coherent(ops) && Clocked(ops) && !Expired(k, LastPrune(ops))
    ensures Read(Run(ops).rollups, k) == Read(Run(Unpruned(ops)).rollups, k)
    ensures Read(Run(ops).rollups, k) == Batch.BatchTotal(Run(Unpruned(ops)).points, k)
  {
    hide Run, Expired, Batch.BatchTotal, EdgesMirror, Agree;
    RunMirrors(ops);
    UnprunedSubset(ops);
    Batch.IncrementalEqualsBatch(Unpruned(ops), k);
  }

  /******* Expired cells *******/

  // Nothing is left, or can be withdrawn any more, in a cell that a prune has discarded.
  ghost predicate Emptied(st: State, pruned: int) {
    forall k: CellKey :: Expired(k, pruned) ==>
      Read(st.rollups, k) == ZERO && forall i :: i in st.edges ==> Read(st.edges[i].data, k) == ZERO
  }

  // An edge that a pruned hub can still write or withdraw ends long after every expired bucket.
  lemma RecentEdgeEmpty(c: Chain, a: Point, b: Point, k: CellKey, pruned: int)
    requires a.interval <= 60 && b.at >= pruned - RAW_AGE && Expired(k, pruned)
    ensures Read(MakeEdge(c, a, b).data, k) == ZERO
  {
    hide StateShare, Aligned;
    if Joinable(a, b) {
      assert Overlap(a.at, b.at, k.bucket, k.bucket + k.res) == 0;
      StateShareZero(a, k.user);
      assert Seconds(0) == 0.0;
    }
    assert MakeEdge(c, a, b).data[k] == EdgeCell(c.node, c.uuid, a, b, k);
  }

  lemma RelinkEmptied(st: State, pruned: int, c: Chain, a: Point, b: Point)
    requires Emptied(st, pruned) && a.interval <= 60 && b.at >= pruned - RAW_AGE
    ensures Emptied(Relink(st, c, a, b), pruned)
  {
    hide Read, MakeEdge, Expired, Add, Sub;
    var id, e, after := PointId(c.node, c.uuid, c.boot, b.number), MakeEdge(c, a, b), Relink(st, c, a, b);
    forall k: CellKey | Expired(k, pruned)
      ensures Read(after.rollups, k) == ZERO && forall i :: i in after.edges ==> Read(after.edges[i].data, k) == ZERO
    {
      RecentEdgeEmpty(c, a, b, k, pruned);
      SetEdgeRead(st, id, e, k);
      NothingWithdrawn(ZERO);
      assert OldCell(st.edges, id, k) == ZERO;
    }
  }

  lemma LinkEmptied(st: State, pruned: int, c: Chain, p: Point)
    requires Emptied(st, pruned) && ShortIntervals(st.points) && p.interval <= 60 && p.at >= pruned - RAW_AGE
    ensures Emptied(Link(st, c, p), pruned)
  {
    hide Relink, Read, Expired;
    var before, after := PreviousPoint(st.points, c, p.at), NextPoint(st.points, c, p.at);
    var stored := st.(points := st.points[PointId(c.node, c.uuid, c.boot, p.number) := p]);
    var left := if before.Some? then Relink(stored, c, before.value, p) else stored;
    assert Emptied(stored, pruned);
    if before.Some? {
      RelinkEmptied(stored, pruned, c, before.value, p);
    }
    if after.Some? {
      RelinkEmptied(left, pruned, c, p, after.value);
    }
  }

  lemma SameEmptied(st: State, after: State, pruned: int)
    requires Emptied(st, pruned) && after.edges == st.edges && after.rollups == st.rollups
    ensures Emptied(after, pruned)
  {
  }

  lemma StoreGpuEmptied(st: State, pruned: int, s: Snapshot, g: Gpu)
    requires 0 <= s.at && 2 <= s.interval <= 60 && s.at >= pruned - RAW_AGE
    requires Emptied(st, pruned) && ShortIntervals(st.points) && StoreGpu(st, s, g).Ok?
    ensures Emptied(StoreGpu(st, s, g).value, pruned) && ShortIntervals(StoreGpu(st, s, g).value.points)
  {
    hide Link, Note, MakePoint, Emptied, SeeGpu;
    var c, p := Chain(s.node, g.uuid, s.boot), MakePoint(s, g);
    LinkEmptied(st, pruned, c, p);
    SameEmptied(Link(st, c, p), StorePoint(st, c, p), pruned);
  }

  lemma {:induction false} StoreGpusEmptied(st: State, pruned: int, s: Snapshot, gpus: seq<Gpu>, n: nat)
    requires n <= |gpus| && 0 <= s.at && StoreGpus(st, s, gpus, n).Ok?
    requires Emptied(st, pruned) && ShortIntervals(st.points) && 2 <= s.interval <= 60 && s.at >= pruned - RAW_AGE
    ensures Emptied(StoreGpus(st, s, gpus, n).value, pruned) && ShortIntervals(StoreGpus(st, s, gpus, n).value.points)
  {
    hide StoreGpu, Emptied, ShortIntervals;
    if n != 0 {
      StoreGpusEmptied(st, pruned, s, gpus, n - 1);
      StoreGpuEmptied(StoreGpus(st, s, gpus, n - 1).value, pruned, s, gpus[n - 1]);
    }
  }

  lemma UploadEmptied(st: State, pruned: int, op: Op)
    requires op.Upload? && pruned <= op.now && Emptied(st, pruned) && ShortIntervals(st.points)
    ensures Emptied(Step(st, op), pruned)
  {
    hide Emptied, ShortIntervals, StoreGpus, Finish, Inherit;
    var s := op.s;
    if Acceptable(s, op.now) && IdOf(s) !in st.samples && s.node in st.nodes && Insert(st, s, op.backfill, op.now).Ok? {
      var gpus, recorded := AllGpus(st, s).value, RecordSample(st, s);
      var stored := StoreGpus(recorded, s, gpus, |gpus|).value;
      SameEmptied(st, recorded, pruned);
      StoreGpusEmptied(recorded, pruned, s, gpus, |gpus|);
      FinishNode(stored, s, gpus, op.backfill, op.now);
      SameEmptied(stored, Finish(stored, s, gpus, op.backfill, op.now), pruned);
    }
  }

  // The edges that survive a prune are edges of the unpruned hub, and recent.
  lemma CleanEmptied(full: State, st: State, pruned: int, now: int)
    requires Mirrors(full, st, pruned) && full.edges == Links(full.points) && ShortIntervals(full.points)
    ensures Emptied(Prune(st, now), now)
  {
    hide Expired, EdgeCells;
    var after := Prune(st, now);
    forall k: CellKey, i | Expired(k, now) && i in after.edges
      ensures Read(after.edges[i].data, k) == ZERO
    {
      assert i in full.edges && full.edges[i] == after.edges[i] && full.points[i] == st.points[i];
      RecentEdgeEmpty(ChainOf(i), full.points[BeforeOf(full.points, i).value], full.points[i], k, now);
    }
  }

  lemma {:induction false} RunEmptied(ops: seq<Op>)
    requires Coherent(ops) && Clocked(ops)
    ensures Emptied(Run(ops), LastPrune(ops))
    decreases |ops|
  {
    hide Step, Mirrors, ShortIntervals, Sound, Balanced, Agree, Emptied, Links;
    if ops == [] {
      EmptyEmptied();
    } else {
      var before, op := ops[..|ops| - 1], ops[|ops| - 1];
      RunEmptied(before);
      RunMirrors(before);
      PruneBeforeClock(before);
      UnprunedSubset(before);
      RunKeeps(Unpruned(before));
      var full, st, pruned := Run(Unpruned(before)), Run(before), LastPrune(before);
      match op
      case Upload(s, backfill, now) =>
        MirrorsShort(full, st, pruned);
        UploadEmptied(st, pruned, op);
      case Clean(now) =>
        CleanEmptied(full, st, pruned, now);
        CleanStep(st, now);
      case AddNode(node) =>
        AddNodeEmptied(st, pruned, node);
    }
  }

  lemma EmptyEmptied()
    ensures Emptied(Empty(), 0)
  {
    forall k: CellKey
      ensures Read(Empty().rollups, k) == ZERO
    {
      NothingAdded(k);
    }
  }

  lemma AddNodeEmptied(st: State, pruned: int, node: string)
    requires Emptied(st, pruned)
    ensures Emptied(Step(st, AddNode(node)), pruned)
  {
    hide Emptied;
    SameEmptied(st, Step(st, AddNode(node)), pruned);
  }

  lemma MirrorsShort(full: State, st: State, pruned: int)
    requires Mirrors(full, st, pruned) && ShortIntervals(full.points)
    ensures ShortIntervals(st.points)
  {
  }

  // Every cell of every run, with any interleaving of prunes: an expired one is empty and
  // stays empty, any other is the batch integral of every point that was ever stored.
  lemma {:induction false} EveryCell(ops: seq<Op>, k: CellKey)
    requires Coherent(ops) && Clocked(ops)
    ensures Read(Run(ops).rollups, k)
         == if Expired(k, LastPrune(ops)) then ZERO else Batch.BatchTotal(Run(Unpruned(ops)).points, k)
  {
    hide Run, Expired, Batch.BatchTotal, Agree;
    if Expired(k, LastPrune(ops)) {
      RunEmptied(ops);
    } else {
      PruningIsInvisible(ops, k);
    }
  }

  // A sample identity that was once counted is never counted again, not even after its
  // row is gone: sending it again changes nothing at all.
  lemma {:induction false} CountedOnce(ops: seq<Op>, again: Op)
    requires again.Upload? && Coherent(ops + [again]) && Clocked(ops + [again])
    requires IdOf(again.s) in Run(Unpruned(ops)).samples
    ensures Run(ops + [again]) == Run(ops)
  {
    hide Step, Mirrors, ShortIntervals, Sound, Exact, Consistent, Agree, Run;
    assert (ops + [again])[..|ops|] == ops;
    assert forall op :: op in ops ==> op in ops + [again];
    RunMirrors(ops);
    PruneBeforeClock(ops);
    UnprunedSubset(ops);
    RunKeeps(Unpruned(ops));
    CoherentConsistent(ops + [again], again, Run(Unpruned(ops)).samples);
    UploadMirrors(Run(Unpruned(ops)), Run(ops), LastPrune(ops), again);
    RunSnoc(ops, again);
  }

  lemma RunSnoc(ops: seq<Op>, op: Op)
    ensures Run(ops + [op]) == Step(Run(ops), op)
  {
    hide Step;
    assert (ops + [op])[..|ops|] == ops;
  }
}
