/**
 The event history matches the points (internal/hub/ingest.go): between prunes there is
 one start per card and run of the agent, at the time of its earliest point in whatever
 order the points arrived; and when samples arrive in order, there is one failure event
 for each maximal run of failed observations.
 */
module EventHistory {
  import opened Wrappers
  import opened Model
  import opened Rollups
  import opened Tables
  import opened Ingestion
  import opened Linking
  import opened Ledger
  import opened Validation
  import opened Batch

  /******* Starts *******/

  predicate IsStart(e: Event, c: Chain) {
    e.Started? && Chain(e.node, e.uuid, e.boot) == c
  }

  function StartsOf(events: seq<Event>, c: Chain): seq<Event> {
    if events == [] then []
    else
      var last := events[|events| - 1];
      if IsStart(last, c) then StartsOf(events[..|events| - 1], c) + [last] else StartsOf(events[..|events| - 1], c)
  }

  lemma StartsAppend(events: seq<Event>, e: Event, c: Chain)
    ensures StartsOf(events + [e], c) == if IsStart(e, c) then StartsOf(events, c) + [e] else StartsOf(events, c)
  {
    assert (events + [e])[..|events|] == events;
  }

  lemma {:induction false} StartsConcat(events: seq<Event>, more: seq<Event>, c: Chain)
    requires forall e :: e in more ==> !e.Started?
    ensures StartsOf(events + more, c) == StartsOf(events, c)
    decreases |more|
  {
    if more == [] {
      assert events + more == events;
    } else {
      var rest, last := more[..|more| - 1], more[|more| - 1];
      assert last in more;
      assert events + more == (events + rest) + [last];
      StartsAppend(events + rest, last, c);
      StartsConcat(events, rest, c);
    }
  }

  ghost function MovedEarlier(events: seq<Event>, c: Chain, at: int): seq<Event> {
    seq(|events|, i requires 0 <= i < |events| => EarlierStart(events[i], c, at))
  }

  lemma {:induction false} StartsMoved(events: seq<Event>, c: Chain, at: int, d: Chain)
    ensures StartsOf(MovedEarlier(events, c, at), d)
         == if c == d then MovedEarlier(StartsOf(events, d), c, at) else StartsOf(events, d)
  {
    var moved := MovedEarlier(events, c, at);
    if events != [] {
      var rest, last := events[..|events| - 1], events[|events| - 1];
      assert moved == MovedEarlier(rest, c, at) + [EarlierStart(last, c, at)];
      StartsMoved(rest, c, at, d);
      StartsAppend(MovedEarlier(rest, c, at), EarlierStart(last, c, at), d);
    }
  }

  // What the starts of a chain should be: none, or one at the time of its first point.
  ghost function ExpectedStarts(points: map<PointId, Point>, c: Chain): seq<Event> {
    var ids := ChainIds(points, c);
    if ids == {} then [] else [Started(c.node, c.uuid, c.boot, points[First(points, ids)].at)]
  }

  ghost predicate StartsMatch(st: State) {
    forall c :: StartsOf(st.events, c) == ExpectedStarts(st.points, c)
  }

  lemma ExpectedOther(points: map<PointId, Point>, id: PointId, p: Point, d: Chain)
    requires id !in points && ChainOf(id) != d
    ensures ExpectedStarts(points[id := p], d) == ExpectedStarts(points, d)
  {
    var larger, ids := points[id := p], ChainIds(points, d);
    assert ChainIds(larger, d) == ids;
    if ids != {} {
      assert NotAfter(larger, First(points, ids), First(larger, ids));
      assert NotAfter(points, First(larger, ids), First(points, ids));
    }
  }

  lemma ExpectedNew(points: map<PointId, Point>, id: PointId, p: Point)
    requires id !in points && DistinctTimes(points[id := p])
    ensures var c, ids := ChainOf(id), ChainIds(points, ChainOf(id));
            && ExpectedStarts(points[id := p], c)
               == [Started(c.node, c.uuid, c.boot, if ids == {} then p.at else Min(points[First(points, ids)].at, p.at))]
  {
    var c, larger, ids := ChainOf(id), points[id := p], ChainIds(points, ChainOf(id));
    assert ChainIds(larger, c) == ids + {id};
    var f := First(larger, ids + {id});
    assert NotAfter(larger, f, id);
    if ids != {} {
      var g := First(points, ids);
      assert NotAfter(larger, f, g);
      assert f != id ==> NotAfter(points, g, f);
    }
  }

  // A point has no neighbour on either side only if it is the first of its chain.
  lemma Neighbours(points: map<PointId, Point>, id: PointId, p: Point)
    requires id !in points && DistinctTimes(points[id := p])
    ensures var c := ChainOf(id);
            && (ChainIds(points, c) == {} <==> Before(points, c, p.at).None? && After(points, c, p.at).None?)
            && (ChainIds(points, c) != {} ==>
                  (Before(points, c, p.at).None? <==> p.at < points[First(points, ChainIds(points, c))].at))
  {
    var c, larger := ChainOf(id), points[id := p];
    forall i | i in ChainIds(points, c)
      ensures i in Earlier(points, c, p.at) || i in Later(points, c, p.at)
    {
      assert larger[i] == points[i] && larger[id] == p;
    }
    if ChainIds(points, c) != {} {
      var f := First(points, ChainIds(points, c));
      assert forall i :: i in Earlier(points, c, p.at) ==> NotAfter(points, f, i);
    }
  }

  lemma StorePointStarts(st: State, c: Chain, p: Point)
    requires StartsMatch(st) && PointId(c.node, c.uuid, c.boot, p.number) !in st.points
    requires DistinctTimes(st.points[PointId(c.node, c.uuid, c.boot, p.number) := p])
    ensures StartsMatch(StorePoint(st, c, p))
  {
    hide Link, SeeGpu, ExpectedStarts, DistinctTimes, Before, After;
    var id := PointId(c.node, c.uuid, c.boot, p.number);
    var before, after := PreviousPoint(st.points, c, p.at), NextPoint(st.points, c, p.at);
    var recorded := RecordStart(st.events, c, p.at, before.Some?, after.Some?);
    forall d
      ensures StartsOf(Note(st, c, p), d) == ExpectedStarts(st.points[id := p], d)
    {
      if Note(st, c, p) != recorded {
        StartsAppend(recorded, Failed(c.node, c.uuid, p.at, p.status), d);
      }
      RecordStartStarts(st, c, p, d);
    }
  }

  lemma RecordStartStarts(st: State, c: Chain, p: Point, d: Chain)
    requires StartsMatch(st) && PointId(c.node, c.uuid, c.boot, p.number) !in st.points
    requires DistinctTimes(st.points[PointId(c.node, c.uuid, c.boot, p.number) := p])
    ensures var recorded := RecordStart(st.events, c, p.at, Before(st.points, c, p.at).Some?, After(st.points, c, p.at).Some?);
            StartsOf(recorded, d) == ExpectedStarts(st.points[PointId(c.node, c.uuid, c.boot, p.number) := p], d)
  {
    hide DistinctTimes, Before, After;
    var id := PointId(c.node, c.uuid, c.boot, p.number);
    Neighbours(st.points, id, p);
    StartsAppend(st.events, Started(c.node, c.uuid, c.boot, p.at), d);
    StartsMoved(st.events, c, p.at, d);
    if c == d {
      ExpectedNew(st.points, id, p);
    } else {
      ExpectedOther(st.points, id, p, d);
    }
  }

  /******* Failures *******/

  predicate IsFailure(e: Event, card: GpuId) {
    e.Failed? && GpuId(e.node, e.uuid) == card
  }

  function FailureCount(events: seq<Event>, card: GpuId): nat {
    if events == [] then 0
    else FailureCount(events[..|events| - 1], card) + (if IsFailure(events[|events| - 1], card) then 1 else 0)
  }

  // A failed observation that does not follow another one: each maximal run has one.
  ghost predicate StartsFailing(points: map<PointId, Point>, i: PointId)
    requires i in points
  {
    var before := BeforeOf(points, i);
    points[i].status != "ok" && (before.None? || points[before.value].status == "ok")
  }

  ghost function FailingRuns(points: map<PointId, Point>, card: GpuId): set<PointId> {
    set i | i in points && GpuId(i.node, i.uuid) == card && StartsFailing(points, i)
  }

  lemma FailuresAppend(events: seq<Event>, e: Event, card: GpuId)
    ensures FailureCount(events + [e], card) == FailureCount(events, card) + (if IsFailure(e, card) then 1 else 0)
  {
    assert (events + [e])[..|events|] == events;
  }

  lemma {:induction false} FailuresConcat(events: seq<Event>, more: seq<Event>, card: GpuId)
    requires forall e :: e in more ==> !e.Failed?
    ensures FailureCount(events + more, card) == FailureCount(events, card)
    decreases |more|
  {
    if more == [] {
      assert events + more == events;
    } else {
      var rest, last := more[..|more| - 1], more[|more| - 1];
      assert last in more;
      assert events + more == (events + rest) + [last];
      FailuresAppend(events + rest, last, card);
      FailuresConcat(events, rest, card);
    }
  }

  lemma {:induction false} FailuresMoved(events: seq<Event>, c: Chain, at: int, card: GpuId)
    ensures FailureCount(MovedEarlier(events, c, at), card) == FailureCount(events, card)
  {
    if events != [] {
      var rest, last := events[..|events| - 1], events[|events| - 1];
      assert MovedEarlier(events, c, at) == MovedEarlier(rest, c, at) + [EarlierStart(last, c, at)];
      FailuresMoved(rest, c, at, card);
      FailuresAppend(MovedEarlier(rest, c, at), EarlierStart(last, c, at), card);
    }
  }

  ghost predicate FailuresMatch(st: State) {
    forall card :: FailureCount(st.events, card) == |FailingRuns(st.points, card)|
  }

  ghost predicate FailsAfter(p: Point, before: Option<Point>) {
    p.status != "ok" && (before.None? || before.value.status == "ok")
  }

  // Inserting a point changes whether it, and the point after it, begin a run; no other.
  lemma RunsInsert(points: map<PointId, Point>, id: PointId, p: Point, i: PointId)
    requires id !in points && DistinctTimes(points[id := p]) && (i in points || i == id)
    ensures var larger, c := points[id := p], ChainOf(id);
            StartsFailing(larger, i)
            == if i == id then FailsAfter(p, PreviousPoint(points, c, p.at))
               else if After(points, c, p.at) == Some(i) then FailsAfter(points[i], Some(p))
               else StartsFailing(points, i)
  {
    hide DistinctTimes, Before, After;
    NewPointBefore(points, id, p);
    if i in points {
      OldPointBefore(points, id, p, i);
    }
  }

  function Count(b: bool): int {
    if b then 1 else 0
  }

  ghost function Only<T>(b: bool, x: T): set<T> {
    if b then {x} else {}
  }

  // The points that begin a run, after the insertion.
  lemma RunsSet(points: map<PointId, Point>, id: PointId, p: Point, card: GpuId)
    requires id !in points && DistinctTimes(points[id := p])
    ensures var before, after := PreviousPoint(points, ChainOf(id), p.at), After(points, ChainOf(id), p.at);
            var runs, mine := FailingRuns(points, card), Only(GpuId(id.node, id.uuid) == card && FailsAfter(p, before), id);
            && FailingRuns(points[id := p], card)
               == if after.None? || GpuId(id.node, id.uuid) != card then runs + mine
                  else (runs - {after.value}) + mine + Only(FailsAfter(points[after.value], Some(p)), after.value)
  {
    hide DistinctTimes, Before, After, StartsFailing, FailsAfter, PreviousPoint;
    var larger, after := points[id := p], After(points, ChainOf(id), p.at);
    RunsInsert(points, id, p, id);
    forall i | i in points
      ensures StartsFailing(larger, i) == if after == Some(i) then FailsAfter(points[i], Some(p)) else StartsFailing(points, i)
    {
      RunsInsert(points, id, p, i);
    }
  }

  lemma NotInRuns(points: map<PointId, Point>, id: PointId, card: GpuId)
    requires id !in points
    ensures id !in FailingRuns(points, card)
  {
  }

  lemma InRuns(points: map<PointId, Point>, i: PointId)
    requires i in points
    ensures i in FailingRuns(points, GpuId(i.node, i.uuid)) <==> StartsFailing(points, i)
  {
  }

  lemma SwapCount<T>(s: set<T>, a: T, b: T, withA: bool, withB: bool)
    requires b !in s && a != b
    ensures |(s - {a}) + Only(withB, b) + Only(withA, a)| == |s| - Count(a in s) + Count(withB) + Count(withA)
  {
    var rest := s - {a};
    assert |rest| == |s| - Count(a in s);
    assert rest + {} == rest;
    var more := rest + Only(withB, b);
    assert |more| == |rest| + Count(withB);
    assert more + {} == more;
  }

  // How the number of runs of the card changes.
  lemma RunsCount(points: map<PointId, Point>, id: PointId, p: Point, card: GpuId)
    requires id !in points && DistinctTimes(points[id := p])
    ensures var before, after := PreviousPoint(points, ChainOf(id), p.at), After(points, ChainOf(id), p.at);
            && (GpuId(id.node, id.uuid) != card ==> FailingRuns(points[id := p], card) == FailingRuns(points, card))
            && (GpuId(id.node, id.uuid) == card ==>
                  |FailingRuns(points[id := p], card)|
                  == |FailingRuns(points, card)| + Count(FailsAfter(p, before))
                     + (if after.None? then 0
                        else Count(FailsAfter(points[after.value], Some(p))) - Count(StartsFailing(points, after.value))))
  {
    hide DistinctTimes, Before, StartsFailing, FailsAfter, FailingRuns, PreviousPoint;
    var before, after := PreviousPoint(points, ChainOf(id), p.at), After(points, ChainOf(id), p.at);
    RunsSet(points, id, p, card);
    NotInRuns(points, id, card);
    if GpuId(id.node, id.uuid) == card && after.Some? {
      InRuns(points, after.value);
      SwapCount(FailingRuns(points, card), after.value, id, FailsAfter(points[after.value], Some(p)), FailsAfter(p, before));
    }
  }

  lemma RecordedFailures(st: State, c: Chain, p: Point, card: GpuId)
    ensures FailureCount(Note(st, c, p), card)
         == FailureCount(st.events, card)
            + Count(GpuId(c.node, c.uuid) == card && FailsAfter(p, PreviousPoint(st.points, c, p.at)))
  {
    hide PreviousPoint, NextPoint;
    var before, after := PreviousPoint(st.points, c, p.at), NextPoint(st.points, c, p.at);
    var recorded := RecordStart(st.events, c, p.at, before.Some?, after.Some?);
    FailuresAppend(st.events, Started(c.node, c.uuid, c.boot, p.at), card);
    FailuresMoved(st.events, c, p.at, card);
    FailuresAppend(recorded, Failed(c.node, c.uuid, p.at, p.status), card);
  }

  // The condition under which a point may arrive out of order: the point after it was ok,
  // or begins a run of failures after it exactly as before.
  ghost predicate FitsBefore(points: map<PointId, Point>, c: Chain, p: Point) {
    var before, after := PreviousPoint(points, c, p.at), NextPoint(points, c, p.at);
    after.None? || after.value.status == "ok" || ((before.None? || before.value.status == "ok") <==> p.status == "ok")
  }

  // The failure events keep matching the runs if and only if the point fits.
  lemma StorePointFailuresIff(st: State, c: Chain, p: Point)
    requires FailuresMatch(st) && PointId(c.node, c.uuid, c.boot, p.number) !in st.points
    requires DistinctTimes(st.points[PointId(c.node, c.uuid, c.boot, p.number) := p])
    ensures FailuresMatch(StorePoint(st, c, p)) <==> FitsBefore(st.points, c, p)
  {
    hide Link, SeeGpu, DistinctTimes, Before, After, FailingRuns, Note;
    var id, card := PointId(c.node, c.uuid, c.boot, p.number), GpuId(c.node, c.uuid);
    var after := After(st.points, c, p.at);
    forall other: GpuId
      ensures other != card ==> FailureCount(Note(st, c, p), other) == |FailingRuns(st.points[id := p], other)|
    {
      RecordedFailures(st, c, p, other);
      RunsCount(st.points, id, p, other);
    }
    RecordedFailures(st, c, p, card);
    RunsCount(st.points, id, p, card);
    assert FailureCount(Note(st, c, p), card) == |FailingRuns(st.points[id := p], card)| <==> FitsBefore(st.points, c, p) by {
      if after.Some? {
        NextStartsFailing(st.points, id, p, after.value);
      }
    }
  }

  lemma NextStartsFailing(points: map<PointId, Point>, id: PointId, p: Point, a: PointId)
    requires id !in points && DistinctTimes(points[id := p]) && After(points, ChainOf(id), p.at) == Some(a)
    ensures StartsFailing(points, a) == FailsAfter(points[a], PreviousPoint(points, ChainOf(id), p.at))
  {
    NextComesRightAfter(points, id, p, a);
    var larger := points[id := p];
    assert Earlier(points, ChainOf(id), points[a].at) == Earlier(points, ChainOf(id), p.at) by {
      forall i | i in Earlier(points, ChainOf(id), points[a].at)
        ensures points[i].at < p.at
      {
        assert i in Earlier(larger, ChainOf(id), points[a].at) && NotAfter(larger, i, id);
        assert larger[i] == points[i] && larger[id] == p;
      }
    }
  }

  lemma StorePointFailures(st: State, c: Chain, p: Point)
    requires FailuresMatch(st) && PointId(c.node, c.uuid, c.boot, p.number) !in st.points
    requires DistinctTimes(st.points[PointId(c.node, c.uuid, c.boot, p.number) := p]) && After(st.points, c, p.at).None?
    ensures FailuresMatch(StorePoint(st, c, p))
  {
    hide StorePoint, FailuresMatch, DistinctTimes, Before, After;
    StorePointFailuresIff(st, c, p);
  }

  /******* One snapshot *******/

  // No point of this run of the agent is later than the sample.
  ghost predicate Newest(points: map<PointId, Point>, s: Snapshot) {
    forall i :: i in points && i.node == s.node && i.boot == s.boot ==> points[i].at <= s.at
  }

  lemma StoreGpuEvents(st: State, s: Snapshot, g: Gpu)
    requires 0 <= s.at && Chained(st) && StoreGpu(st, s, g).Ok? && Chained(StoreGpu(st, s, g).value)
    ensures StartsMatch(st) ==> StartsMatch(StoreGpu(st, s, g).value)
    ensures FailuresMatch(st) && Newest(st.points, s) ==> FailuresMatch(StoreGpu(st, s, g).value)
    ensures Newest(st.points, s) ==> Newest(StoreGpu(st, s, g).value.points, s)
  {
    hide StartsMatch, FailuresMatch, Link, Note, SeeGpu, MakePoint;
    var c, p, after := Chain(s.node, g.uuid, s.boot), MakePoint(s, g), StoreGpu(st, s, g).value;
    ChainedDistinct(after);
    if StartsMatch(st) {
      StorePointStarts(st, c, p);
    }
    if FailuresMatch(st) && Newest(st.points, s) {
      assert Later(st.points, c, p.at) == {};
      StorePointFailures(st, c, p);
    }
  }

  lemma {:induction false} StoreGpusEvents(st: State, s: Snapshot, gpus: seq<Gpu>, n: nat)
    requires 0 <= s.at && n <= |gpus| && DistinctUuids(gpus)
    requires Chained(st) && IdOf(s) in st.samples && st.samples[IdOf(s)] == s.at && NoPointYet(st.points, s, gpus, 0)
    ensures StoreGpus(st, s, gpus, n).Ok?
    ensures StartsMatch(st) ==> StartsMatch(StoreGpus(st, s, gpus, n).value)
    ensures FailuresMatch(st) && Newest(st.points, s) ==>
              FailuresMatch(StoreGpus(st, s, gpus, n).value) && Newest(StoreGpus(st, s, gpus, n).value.points, s)
  {
    hide StartsMatch, FailuresMatch, StoreGpu, Chained, Newest, DistinctUuids, NoPointYet, Exact;
    StoreGpusKeep(st, s, gpus, n);
    if n != 0 {
      StoreGpusEvents(st, s, gpus, n - 1);
      StoreGpusKeep(st, s, gpus, n - 1);
      StoreGpuEvents(StoreGpus(st, s, gpus, n - 1).value, s, gpus[n - 1]);
    }
  }

  lemma {:induction false} OnlyMissing(node: string, at: int, known: seq<Gpu>, present: set<string>, n: nat)
    requires n <= |known|
    ensures forall e :: e in LostEvents(node, at, known, present, n) ==> e.Missing?
  {
    if n != 0 {
      OnlyMissing(node, at, known, present, n - 1);
    }
  }

  lemma FinishEvents(stored: State, s: Snapshot, gpus: seq<Gpu>, backfill: bool, now: int)
    requires s.node in stored.nodes
    ensures StartsMatch(stored) ==> StartsMatch(Finish(stored, s, gpus, backfill, now))
    ensures FailuresMatch(stored) ==> FailuresMatch(Finish(stored, s, gpus, backfill, now))
  {
    hide ExpectedStarts, FailingRuns, NewLive, Uuids;
    var known, r := stored.nodes[s.node], Finish(stored, s, gpus, backfill, now);
    OnlyMissing(s.node, s.at, known.gpus, Uuids(gpus), |known.gpus|);
    var more := if s.at > known.sampleAt then NewlyMissing(s, gpus, known) else [];
    assert stored.events + [] == stored.events;
    assert r.events == stored.events + more && r.points == stored.points;
    forall c { StartsConcat(stored.events, more, c); }
    forall card { FailuresConcat(stored.events, more, card); }
  }

  lemma InsertEvents(st: State, s: Snapshot, backfill: bool, now: int)
    requires Sound(st) && s.node in st.nodes && 0 <= s.at && DistinctUuids(s.gpus)
    requires IdOf(s) !in st.samples && Consistent(st.samples, s)
    ensures Insert(st, s, backfill, now).Ok?
    ensures StartsMatch(st) ==> StartsMatch(Insert(st, s, backfill, now).value)
    ensures FailuresMatch(st) && Newest(st.points, s) ==> FailuresMatch(Insert(st, s, backfill, now).value)
  {
    hide StartsMatch, FailuresMatch, StoreGpus, Finish, Newest, DistinctUuids, KnownCards, SamplesKnown, Links, Balanced;
    InsertKeeps(st, s, backfill, now);
    RecordChained(st, s);
    AllGpusKnown(st, s);
    var gpus, recorded := AllGpus(st, s).value, RecordSample(st, s);
    assert NoPointYet(recorded.points, s, gpus, 0);
    StoreGpusEvents(recorded, s, gpus, |gpus|);
    RecordedEvents(st, recorded);
    FinishEvents(StoreGpus(recorded, s, gpus, |gpus|).value, s, gpus, backfill, now);
  }

  lemma RecordedEvents(st: State, after: State)
    requires after.points == st.points && after.events == st.events
    ensures StartsMatch(st) ==> StartsMatch(after)
    ensures FailuresMatch(st) ==> FailuresMatch(after)
  {
  }

  /******* Runs *******/

  // Samples of one run of an agent arrive in the order of their times.
  ghost predicate InOrder(ops: seq<Op>) {
    ops != [] ==>
      var before, op := ops[..|ops| - 1], ops[|ops| - 1];
      && InOrder(before)
      && (op.Upload? ==>
            forall b :: b in before && b.Upload? && b.s.node == op.s.node && b.s.boot == op.s.boot ==> b.s.at <= op.s.at)
  }

  lemma InOrderNewest(before: seq<Op>, op: Op, st: State)
    requires op.Upload? && Chained(st) && From(st.samples, before)
    requires forall b :: b in before && b.Upload? && b.s.node == op.s.node && b.s.boot == op.s.boot ==> b.s.at <= op.s.at
    ensures Newest(st.points, op.s)
  {
    forall i | i in st.points && i.node == op.s.node && i.boot == op.s.boot
      ensures st.points[i].at <= op.s.at
    {
      var b :| b in before && b.Upload? && IdOf(b.s) == SampleOf(i) && b.s.at == st.samples[SampleOf(i)];
    }
  }

  lemma StepEvents(st: State, op: Op)
    requires Sound(st) && !op.Clean? && (op.Upload? ==> Consistent(st.samples, op.s))
    ensures StartsMatch(st) ==> StartsMatch(Step(st, op))
    ensures FailuresMatch(st) && (op.Upload? ==> Newest(st.points, op.s)) ==> FailuresMatch(Step(st, op))
  {
    hide StartsMatch, FailuresMatch, Insert, Newest, Sound, DistinctUuids;
    if op.AddNode? {
      RecordedEvents(st, Step(st, op));
    } else if Acceptable(op.s, op.now) && IdOf(op.s) !in st.samples && op.s.node in st.nodes {
      InsertEvents(st, op.s, op.backfill, op.now);
    }
  }

  // Exactly one start for each card and run of the agent that has a point, at the time of
  // the earliest point, for any order of arrival.
  lemma {:induction false} OneStartEach(ops: seq<Op>)
    requires Coherent(ops) && NoCleans(ops)
    ensures StartsMatch(Run(ops))
  {
    hide Step, StartsMatch, Sound, Exact, Agree, Consistent;
    if ops == [] {
      EmptyEvents();
    } else {
      var before, op := ops[..|ops| - 1], ops[|ops| - 1];
      OneStartEach(before);
      RunKeeps(before);
      if op.Upload? {
        CoherentConsistent(ops, op, Run(before).samples);
      }
      StepEvents(Run(before), op);
    }
  }

  // As many failure events of a card as maximal runs of failed observations.
  lemma {:induction false} OneFailurePerRun(ops: seq<Op>)
    requires Coherent(ops) && NoCleans(ops) && InOrder(ops)
    ensures FailuresMatch(Run(ops))
  {
    hide Step, FailuresMatch, Exact, Agree, Consistent, Newest, Inventory, SamplesKnown, Chained;
    if ops == [] {
      EmptyEvents();
    } else {
      var before, op := ops[..|ops| - 1], ops[|ops| - 1];
      OneFailurePerRun(before);
      RunKeeps(before);
      if op.Upload? {
        CoherentConsistent(ops, op, Run(before).samples);
        InOrderNewest(before, op, Run(before));
      }
      StepEvents(Run(before), op);
    }
  }

  lemma EmptyEvents()
    ensures StartsMatch(Empty()) && FailuresMatch(Empty())
  {
    forall card: GpuId
      ensures FailingRuns(Empty().points, card) == {}
    {
    }
  }
}
