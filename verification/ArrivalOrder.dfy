/**
 Arrival order and replay do not matter. For snapshots with a complete inventory every
 table that ingest derives is a function of the set of snapshots taken in, so two runs
 that take in the same set, in any order, with any repeats, and pruned at any times, end
 in the same tables, but for what one of them has discarded.
 */
module ArrivalOrder {
  import opened Wrappers
  import opened Amounts
  import opened Model
  import opened Rollups
  import opened Tables
  import opened Ingestion
  import opened Linking
  import opened Ledger
  import opened Validation
  import opened Retention
  import Batch

  // The snapshots of a run that passed the gate, the first time or again.
  ghost function Taken(ops: seq<Op>): set<Snapshot> {
    if ops == [] then {}
    else
      var before, op := ops[..|ops| - 1], ops[|ops| - 1];
      if op.Upload? && Acceptable(op.s, op.now) && op.s.node in Run(before).nodes then Taken(before) + {op.s} else Taken(before)
  }

  // A sample that is sent again is the same sample.
  ghost predicate Verbatim(taken: set<Snapshot>) {
    forall s, t :: s in taken && t in taken && IdOf(s) == IdOf(t) ==> s == t
  }

  // Every snapshot lists a complete inventory.
  ghost predicate Complete(taken: set<Snapshot>) {
    forall s :: s in taken ==> s.gpuStatus == "ok"
  }

  ghost predicate WellFormed(taken: set<Snapshot>) {
    forall s :: s in taken ==> 0 <= s.at && DistinctUuids(s.gpus)
  }

  lemma {:induction false} TakenWellFormed(ops: seq<Op>)
    ensures WellFormed(Taken(ops))
  {
    hide DistinctUuids, Run;
    if ops != [] {
      TakenWellFormed(ops[..|ops| - 1]);
    }
  }

  /******* The tables as a description of the set taken in *******/

  ghost predicate SamplesMatch(samples: map<SampleId, int>, taken: set<Snapshot>) {
    && (forall i :: i in samples ==> exists s :: s in taken && IdOf(s) == i && s.at == samples[i])
    && (forall s :: s in taken ==> IdOf(s) in samples)
  }

  ghost predicate IsPointOf(i: PointId, p: Point, s: Snapshot, g: Gpu) {
    0 <= s.at && g in s.gpus && i == PointId(s.node, g.uuid, s.boot, s.number) && p == MakePoint(s, g)
  }

  ghost predicate PointsMatch(points: map<PointId, Point>, taken: set<Snapshot>) {
    && (forall i :: i in points ==> exists s, g :: s in taken && IsPointOf(i, points[i], s, g))
    && (forall s, g :: s in taken && g in s.gpus ==> PointId(s.node, g.uuid, s.boot, s.number) in points)
  }

  ghost predicate Lists(s: Snapshot, i: GpuId) {
    s.node == i.node && i.uuid in Uuids(s.gpus)
  }

  // A card was first seen by its earliest sample, whenever that one arrived, and last by
  // its latest.
  ghost predicate GpusMatch(gpus: map<GpuId, Seen>, taken: set<Snapshot>) {
    && (forall i :: i in gpus ==>
          && (exists s :: s in taken && Lists(s, i) && s.at == gpus[i].first)
          && (exists s :: s in taken && Lists(s, i) && s.at == gpus[i].last))
    && (forall i, s :: s in taken && Lists(s, i) ==> i in gpus && gpus[i].first <= s.at <= gpus[i].last)
  }

  ghost predicate SampleTimesMatch(nodes: map<string, Live>, taken: set<Snapshot>) {
    && (forall s :: s in taken ==> s.node in nodes && s.at <= nodes[s.node].sampleAt)
    && (forall n :: n in nodes ==>
          nodes[n].sampleAt == 0 || exists s :: s in taken && s.node == n && s.at == nodes[n].sampleAt)
    && (forall n :: n in nodes ==> 0 <= nodes[n].sampleAt)
  }

  ghost predicate Matches(st: State, taken: set<Snapshot>) {
    && SamplesMatch(st.samples, taken)
    && PointsMatch(st.points, taken)
    && GpusMatch(st.gpus, taken)
    && SampleTimesMatch(st.nodes, taken)
  }

  /******* One snapshot *******/

  ghost function SeenBy(gpus: map<GpuId, Seen>, i: GpuId, at: int): Seen {
    if i in gpus then Seen(Min(gpus[i].first, at), Max(gpus[i].last, at)) else Seen(at, at)
  }

  ghost predicate GpusAdded(gpus: map<GpuId, Seen>, later: map<GpuId, Seen>, s: Snapshot, uuids: set<string>) {
    forall i: GpuId :: if i.node == s.node && i.uuid in uuids then i in later && later[i] == SeenBy(gpus, i, s.at)
                else (i in later <==> i in gpus) && (i in later ==> later[i] == gpus[i])
  }

  lemma {:induction false} StoreGpusAdds(st: State, s: Snapshot, gpus: seq<Gpu>, n: nat)
    requires 0 <= s.at && n <= |gpus| && DistinctUuids(gpus) && StoreGpus(st, s, gpus, n).Ok?
    ensures GpusAdded(st.gpus, StoreGpus(st, s, gpus, n).value.gpus, s, Uuids(gpus[..n]))
  {
    hide Link, Note, MakePoint, SeeGpu, GpusAdded, Uuids;
    if n == 0 {
      NoGpusAdded(st.gpus, s);
    } else {
      StoreGpusAdds(st, s, gpus, n - 1);
      var before := StoreGpus(st, s, gpus, n - 1).value;
      assert StoreGpus(st, s, gpus, n).value.gpus == SeeGpu(before.gpus, GpuId(s.node, gpus[n - 1].uuid), s.at);
      UuidsAppend(gpus[..n - 1], gpus[n - 1]);
      assert gpus[..n] == gpus[..n - 1] + [gpus[n - 1]];
      NewUuid(gpus, n - 1);
      GpuAdded(st.gpus, before.gpus, s, Uuids(gpus[..n - 1]), gpus[n - 1].uuid);
    }
  }

  lemma NoGpusAdded(gpus: map<GpuId, Seen>, s: Snapshot)
    ensures GpusAdded(gpus, gpus, s, Uuids([]))
  {
  }

  lemma NewUuid(gpus: seq<Gpu>, n: nat)
    requires n < |gpus| && DistinctUuids(gpus)
    ensures gpus[n].uuid !in Uuids(gpus[..n])
  {
  }

  lemma GpuAdded(gpus: map<GpuId, Seen>, before: map<GpuId, Seen>, s: Snapshot, uuids: set<string>, uuid: string)
    requires GpusAdded(gpus, before, s, uuids) && uuid !in uuids
    ensures GpusAdded(gpus, SeeGpu(before, GpuId(s.node, uuid), s.at), s, uuids + {uuid})
  {
  }

  lemma GpusStep(gpus: map<GpuId, Seen>, later: map<GpuId, Seen>, s: Snapshot, taken: set<Snapshot>)
    requires GpusMatch(gpus, taken) && GpusAdded(gpus, later, s, Uuids(s.gpus))
    ensures GpusMatch(later, taken + {s})
  {
    hide GpusAdded, Uuids;
    forall i | i in later
      ensures exists t :: t in taken + {s} && Lists(t, i) && t.at == later[i].first
      ensures exists t :: t in taken + {s} && Lists(t, i) && t.at == later[i].last
    {
      GpuStep(gpus, later, s, taken, i);
    }
    forall i, t | t in taken + {s} && Lists(t, i)
      ensures i in later && later[i].first <= t.at <= later[i].last
    {
      GpuBounds(gpus, later, s, taken, i, t);
    }
  }

  lemma GpuBounds(gpus: map<GpuId, Seen>, later: map<GpuId, Seen>, s: Snapshot, taken: set<Snapshot>, i: GpuId, t: Snapshot)
    requires GpusMatch(gpus, taken) && GpusAdded(gpus, later, s, Uuids(s.gpus)) && t in taken + {s} && Lists(t, i)
    ensures i in later && later[i].first <= t.at <= later[i].last
  {
    hide Uuids;
  }

  lemma GpuStep(gpus: map<GpuId, Seen>, later: map<GpuId, Seen>, s: Snapshot, taken: set<Snapshot>, i: GpuId)
    requires GpusMatch(gpus, taken) && GpusAdded(gpus, later, s, Uuids(s.gpus)) && i in later
    ensures exists t :: t in taken + {s} && Lists(t, i) && t.at == later[i].first
    ensures exists t :: t in taken + {s} && Lists(t, i) && t.at == later[i].last
  {
    hide Uuids;
    if i in gpus {
      var a :| a in taken && Lists(a, i) && a.at == gpus[i].first;
      var b :| b in taken && Lists(b, i) && b.at == gpus[i].last;
      assert a in taken + {s} && b in taken + {s};
    }
    assert s in taken + {s};
  }

  lemma PointsStep(points: map<PointId, Point>, later: map<PointId, Point>, s: Snapshot, taken: set<Snapshot>)
    requires 0 <= s.at && PointsMatch(points, taken) && PointsAdded(points, later, s, s.gpus, |s.gpus|)
    ensures PointsMatch(later, taken + {s})
  {
    hide MakePoint;
    forall i | i in later
      ensures exists t, g :: t in taken + {s} && IsPointOf(i, later[i], t, g)
    {
      if i in points {
        var t, g :| t in taken && IsPointOf(i, points[i], t, g);
        assert t in taken + {s} && IsPointOf(i, later[i], t, g);
      } else {
        var j :| 0 <= j < |s.gpus| && s.gpus[j].uuid == i.uuid && later[i] == MakePoint(s, s.gpus[j]);
        assert s in taken + {s} && IsPointOf(i, later[i], s, s.gpus[j]);
      }
    }
  }

  lemma SamplesStep(samples: map<SampleId, int>, s: Snapshot, taken: set<Snapshot>)
    requires SamplesMatch(samples, taken) && IdOf(s) !in samples
    ensures SamplesMatch(samples[IdOf(s) := s.at], taken + {s})
  {
    var later := samples[IdOf(s) := s.at];
    forall i | i in later
      ensures exists t :: t in taken + {s} && IdOf(t) == i && t.at == later[i]
    {
      if i != IdOf(s) {
        var t :| t in taken && IdOf(t) == i && t.at == samples[i];
        assert t in taken + {s};
      } else {
        assert s in taken + {s};
      }
    }
  }

  lemma SampleTimesStep(nodes: map<string, Live>, later: map<string, Live>, s: Snapshot, taken: set<Snapshot>)
    requires SampleTimesMatch(nodes, taken) && NodesAdvance(nodes, later, s) && 0 <= s.at
    ensures SampleTimesMatch(later, taken + {s})
  {
    hide Uuids;
    forall n | n in later
      ensures later[n].sampleAt == 0 || exists t :: t in taken + {s} && t.node == n && t.at == later[n].sampleAt
    {
      if nodes[n].sampleAt != 0 {
        var t :| t in taken && t.node == n && t.at == nodes[n].sampleAt;
        assert t in taken + {s};
      }
      assert s in taken + {s};
    }
  }

  lemma InsertMatches(st: State, s: Snapshot, backfill: bool, now: int, taken: set<Snapshot>)
    requires Sound(st) && s.node in st.nodes && 0 <= s.at && DistinctUuids(s.gpus) && s.gpuStatus == "ok"
    requires IdOf(s) !in st.samples && Consistent(st.samples, s) && Matches(st, taken)
    ensures Insert(st, s, backfill, now).Ok? && Matches(Insert(st, s, backfill, now).value, taken + {s})
  {
    hide Link, MakePoint, Note, Links, Balanced, SamplesMatch, PointsMatch, GpusMatch, SampleTimesMatch, PointsAdded, GpusAdded,
         Consistent, NodesAdvance, Inventory, SamplesKnown, NewLive, NewlyMissing, DistinctUuids, StoreGpus, Finish;
    InsertKeeps(st, s, backfill, now);
    var recorded := RecordSample(st, s);
    var stored := StoreGpus(recorded, s, s.gpus, |s.gpus|).value;
    FinishNode(stored, s, s.gpus, backfill, now);
    StoreGpusPoints(recorded, s, s.gpus, |s.gpus|);
    StoreGpusAdds(recorded, s, s.gpus, |s.gpus|);
    assert s.gpus[..|s.gpus|] == s.gpus;
    PointsStep(st.points, stored.points, s, taken);
    GpusStep(st.gpus, stored.gpus, s, taken);
    SamplesStep(st.samples, s, taken);
    SampleTimesStep(st.nodes, Insert(st, s, backfill, now).value.nodes, s, taken);
  }

  /******* Runs *******/

  lemma AgainMatches(st: State, s: Snapshot, taken: set<Snapshot>, all: set<Snapshot>)
    requires Matches(st, taken) && IdOf(s) in st.samples
    requires s in all && taken <= all && Verbatim(all)
    ensures s in taken
  {
    hide PointsMatch, GpusMatch, SampleTimesMatch;
    var t :| t in taken && IdOf(t) == IdOf(s) && t.at == st.samples[IdOf(s)];
  }

  lemma {:induction false} RunMatches(ops: seq<Op>)
    requires Coherent(ops) && NoCleans(ops) && Complete(Taken(ops)) && Verbatim(Taken(ops))
    ensures Matches(Run(ops), Taken(ops))
  {
    hide Insert, Matches, Sound, Exact, Consistent, Agree, Acceptable;
    if ops == [] {
      EmptyMatches();
    } else {
      var before, op := ops[..|ops| - 1], ops[|ops| - 1];
      RunMatches(before);
      RunKeeps(before);
      var st := Run(before);
      TakenWellFormed(ops);
      match op
      case Upload(s, backfill, now) =>
        if Acceptable(s, now) && s.node in st.nodes {
          CoherentConsistent(ops, op, st.samples);
          if IdOf(s) in st.samples {
            AgainMatches(st, s, Taken(before), Taken(ops));
            assert Taken(ops) == Taken(before);
          } else {
            InsertMatches(st, s, backfill, now, Taken(before));
          }
        } else {
          assert Step(st, op) == st;
        }
      case AddNode(node) =>
        AddNodeMatches(st, node, Taken(before));
    }
  }

  lemma EmptyMatches()
    ensures Matches(Empty(), {})
  {
  }

  lemma AddNodeMatches(st: State, node: string, taken: set<Snapshot>)
    requires Matches(st, taken)
    ensures Matches(Step(st, AddNode(node)), taken)
  {
    hide SamplesMatch, PointsMatch, GpusMatch;
  }

  /******* The description determines the tables *******/

  lemma PointsDetermined(points: map<PointId, Point>, others: map<PointId, Point>, taken: set<Snapshot>)
    requires PointsMatch(points, taken) && PointsMatch(others, taken) && Verbatim(taken) && WellFormed(taken)
    ensures points == others
  {
    hide MakePoint;
    forall i | i in points
      ensures i in others && others[i] == points[i]
    {
      PointDetermined(points, others, taken, i);
    }
    forall i | i in others
      ensures i in points
    {
      PointDetermined(others, points, taken, i);
    }
  }

  lemma PointDetermined(points: map<PointId, Point>, others: map<PointId, Point>, taken: set<Snapshot>, i: PointId)
    requires PointsMatch(points, taken) && PointsMatch(others, taken) && Verbatim(taken) && WellFormed(taken) && i in points
    ensures i in others && others[i] == points[i]
  {
    hide MakePoint;
    var s, g :| s in taken && IsPointOf(i, points[i], s, g);
    var t, h :| t in taken && IsPointOf(i, others[i], t, h);
    assert IdOf(s) == IdOf(t);
    assert g == h;
  }

  lemma GpusDetermined(gpus: map<GpuId, Seen>, others: map<GpuId, Seen>, taken: set<Snapshot>)
    requires GpusMatch(gpus, taken) && GpusMatch(others, taken)
    ensures gpus == others
  {
    hide Uuids;
    forall i | i in gpus || i in others
      ensures i in gpus && i in others && gpus[i] == others[i]
    {
    }
  }

  lemma SamplesDetermined(samples: map<SampleId, int>, others: map<SampleId, int>, taken: set<Snapshot>)
    requires SamplesMatch(samples, taken) && SamplesMatch(others, taken) && Verbatim(taken)
    ensures samples == others
  {
  }

  lemma RollupsDetermined(st: State, other: State)
    requires Balanced(st) && Balanced(other) && st.edges == other.edges
    requires forall k: CellKey :: k in st.rollups && k in other.rollups
    ensures st.rollups == other.rollups
  {
    hide Total;
  }

  lemma SampleTimesDetermined(nodes: map<string, Live>, others: map<string, Live>, taken: set<Snapshot>, n: string)
    requires SampleTimesMatch(nodes, taken) && SampleTimesMatch(others, taken) && n in nodes && n in others
    ensures nodes[n].sampleAt == others[n].sampleAt
  {
  }

  // Two runs without prunes that take in the same snapshots, in any order and with any
  // repeats.
  lemma {:induction false} OrderWithoutPrunes(ops: seq<Op>, others: seq<Op>)
    requires Coherent(ops) && Coherent(others) && NoCleans(ops) && NoCleans(others)
    requires Taken(ops) == Taken(others) && Complete(Taken(ops)) && Verbatim(Taken(ops))
    ensures var a, b := Run(ops), Run(others);
            && a.samples == b.samples
            && a.points == b.points
            && a.edges == b.edges
            && a.rollups == b.rollups
            && a.gpus == b.gpus
            && (forall n :: n in a.nodes && n in b.nodes ==> a.nodes[n].sampleAt == b.nodes[n].sampleAt)
  {
    hide Run, SamplesMatch, PointsMatch, GpusMatch, SampleTimesMatch, Complete, Verbatim, WellFormed, Links, Agree, Sound, Total, Taken;
    var a, b, taken := Run(ops), Run(others), Taken(ops);
    TakenWellFormed(ops);
    RunMatches(ops);
    RunMatches(others);
    RunKeeps(ops);
    RunKeeps(others);
    SamplesDetermined(a.samples, b.samples, taken);
    PointsDetermined(a.points, b.points, taken);
    GpusDetermined(a.gpus, b.gpus, taken);
    RollupsDetermined(a, b);
    forall n | n in a.nodes && n in b.nodes
      ensures a.nodes[n].sampleAt == b.nodes[n].sampleAt
    {
      SampleTimesDetermined(a.nodes, b.nodes, taken, n);
    }
  }
  /******* Next to prunes *******/

  lemma MirrorsRows(full: State, st: State, pruned: int)
    requires Mirrors(full, st, pruned)
    ensures st.samples == RecentSamples(full.samples, pruned - RAW_AGE)
    ensures st.points == RecentPoints(full.points, pruned - RAW_AGE)
    ensures st.gpus == full.gpus && st.nodes == full.nodes
  {
  }

  // A hub that prunes takes in the same snapshots as one that does not.
  lemma {:induction false} TakenUnpruned(ops: seq<Op>)
    requires Coherent(ops) && Clocked(ops)
    ensures Taken(Unpruned(ops)) == Taken(ops)
    decreases |ops|
  {
    hide Run, Mirrors, Agree, Acceptable;
    if ops != [] {
      var before, op := ops[..|ops| - 1], ops[|ops| - 1];
      TakenUnpruned(before);
      RunMirrors(before);
      MirrorsRows(Run(Unpruned(before)), Run(before), LastPrune(before));
      if op.Clean? {
        assert Unpruned(ops) == Unpruned(before);
      } else {
        assert Unpruned(ops)[..|Unpruned(before)|] == Unpruned(before);
      }
    }
  }

  // What a stored edge is worth in a cell, on a hub that prunes.
  lemma EdgeWorth(full: State, st: State, pruned: int, id: PointId, k: CellKey)
    requires Mirrors(full, st, pruned)
    ensures OldCell(st.edges, id, k) == if id in st.points then OldCell(full.edges, id, k) else ZERO
  {
    if id in st.points {
      OldCellMirrors(full, st, pruned, id, k);
    }
  }

  lemma RecentAgain(full: map<PointId, Point>, samples: map<SampleId, int>, cutoff: int, later: int)
    requires cutoff <= later
    ensures RecentPoints(RecentPoints(full, cutoff), later) == RecentPoints(full, later)
    ensures RecentSamples(RecentSamples(samples, cutoff), later) == RecentSamples(samples, later)
  {
  }

  // The rows that are recent enough for either hub to keep.
  ghost predicate SameRecent(a: State, b: State, cutoff: int) {
    && RecentSamples(a.samples, cutoff) == RecentSamples(b.samples, cutoff)
    && RecentPoints(a.points, cutoff) == RecentPoints(b.points, cutoff)
  }

  // The same rows, and edges worth the same.
  ghost predicate SameRows(a: State, b: State) {
    && a.samples == b.samples
    && a.points == b.points
    && forall id, k :: OldCell(a.edges, id, k) == OldCell(b.edges, id, k)
  }

  // Two runs that take in the same snapshots, in any order, with any repeats and any prunes,
  // agree on when each card was seen first and last, on the latest sample of each node, on
  // every cell that neither has expired, and on the rows that both keep. If their last prunes
  // were at the same time, they agree on all rows and on every cell.
  lemma {:induction false} OrderDoesNotMatter(ops: seq<Op>, others: seq<Op>)
    requires Coherent(ops) && Coherent(others) && Clocked(ops) && Clocked(others)
    requires Taken(ops) == Taken(others) && Complete(Taken(ops)) && Verbatim(Taken(ops))
    ensures var a, b, p, q := Run(ops), Run(others), LastPrune(ops), LastPrune(others);
            && a.gpus == b.gpus
            && (forall n :: n in a.nodes && n in b.nodes ==> a.nodes[n].sampleAt == b.nodes[n].sampleAt)
            && (forall k: CellKey :: !Expired(k, p) && !Expired(k, q) ==> Read(a.rollups, k) == Read(b.rollups, k))
            && SameRecent(a, b, Max(p, q) - RAW_AGE)
            && (p == q ==> SameRows(a, b) && forall k: CellKey :: Read(a.rollups, k) == Read(b.rollups, k))
  {
    hide Run, Taken, Complete, Verbatim, Agree, Mirrors, Expired, Batch.BatchTotal, RecentPoints, RecentSamples, Read;
    var a, b, p, q := Run(ops), Run(others), LastPrune(ops), LastPrune(others);
    var full, twin := Run(Unpruned(ops)), Run(Unpruned(others));
    SidesOf(ops);
    SidesOf(others);
    OrderWithoutPrunes(Unpruned(ops), Unpruned(others));
    RecentAgain(full.points, full.samples, p - RAW_AGE, Max(p, q) - RAW_AGE);
    RecentAgain(full.points, full.samples, q - RAW_AGE, Max(p, q) - RAW_AGE);
    forall k: CellKey | (!Expired(k, p) && !Expired(k, q)) || p == q
      ensures Read(a.rollups, k) == Read(b.rollups, k)
    {
      EveryCell(ops, k);
      EveryCell(others, k);
    }
    if p == q {
      forall id, k
        ensures OldCell(a.edges, id, k) == OldCell(b.edges, id, k)
      {
        EdgeWorth(full, a, p, id, k);
        EdgeWorth(twin, b, q, id, k);
      }
    }
  }

  lemma SidesOf(ops: seq<Op>)
    requires Coherent(ops) && Clocked(ops)
    ensures Coherent(Unpruned(ops)) && NoCleans(Unpruned(ops)) && Taken(Unpruned(ops)) == Taken(ops)
    ensures var full, st, pruned := Run(Unpruned(ops)), Run(ops), LastPrune(ops);
            && Mirrors(full, st, pruned)
            && st.samples == RecentSamples(full.samples, pruned - RAW_AGE)
            && st.points == RecentPoints(full.points, pruned - RAW_AGE)
            && st.gpus == full.gpus && st.nodes == full.nodes
  {
    hide Run, Mirrors, Agree, Taken;
    UnprunedSubset(ops);
    TakenUnpruned(ops);
    RunMirrors(ops);
    MirrorsRows(Run(Unpruned(ops)), Run(ops), LastPrune(ops));
  }
}
