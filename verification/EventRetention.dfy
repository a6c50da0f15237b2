/**
 The event history next to prunes (internal/hub/ingest.go and prune.go). Events are kept for
 30 days, points for 48 hours, so the hub can forget a point that would have told it that a
 run of an agent has started, or that a card has been failing. Exactly then it records an
 event that a hub with a full memory would not.
 */
module EventRetention {
  import opened Wrappers
  import opened Model
  import opened Rollups
  import opened Tables
  import opened Ingestion
  import opened Linking
  import opened Ledger
  import opened Validation
  import opened Batch
  import opened Retention
  import opened EventHistory

  /******* What one snapshot adds *******/

  // The starts of a chain once a point of it is stored at a time.
  ghost function NextStarts(points: map<PointId, Point>, starts: seq<Event>, d: Chain, at: int): seq<Event> {
    RecordStart(starts, d, at, Earlier(points, d, at) != {}, Later(points, d, at) != {})
  }

  lemma RecordStartsOf(events: seq<Event>, c: Chain, at: int, hasBefore: bool, hasAfter: bool, d: Chain)
    ensures StartsOf(RecordStart(events, c, at, hasBefore, hasAfter), d)
         == if c == d then RecordStart(StartsOf(events, d), d, at, hasBefore, hasAfter) else StartsOf(events, d)
  {
    StartsAppend(events, Started(c.node, c.uuid, c.boot, at), d);
    StartsMoved(events, c, at, d);
  }

  lemma StorePointStartsOf(st: State, c: Chain, p: Point, d: Chain)
    ensures StartsOf(StorePoint(st, c, p).events, d)
         == if c == d then NextStarts(st.points, StartsOf(st.events, d), d, p.at) else StartsOf(st.events, d)
  {
    hide Link, SeeGpu, RecordStart, StartsOf, Earlier, Later;
    var before, after := PreviousPoint(st.points, c, p.at), NextPoint(st.points, c, p.at);
    var recorded := RecordStart(st.events, c, p.at, before.Some?, after.Some?);
    RecordStartsOf(st.events, c, p.at, before.Some?, after.Some?, d);
    StartsAppend(recorded, Failed(c.node, c.uuid, p.at, p.status), d);
  }

  function FailuresOf(events: seq<Event>, card: GpuId): seq<Event> {
    if events == [] then []
    else
      var last := events[|events| - 1];
      if IsFailure(last, card) then FailuresOf(events[..|events| - 1], card) + [last] else FailuresOf(events[..|events| - 1], card)
  }

  lemma {:induction false} FailuresAreCounted(events: seq<Event>, card: GpuId)
    ensures |FailuresOf(events, card)| == FailureCount(events, card)
  {
    if events != [] {
      FailuresAreCounted(events[..|events| - 1], card);
    }
  }

  lemma FailuresOfAppend(events: seq<Event>, e: Event, card: GpuId)
    ensures FailuresOf(events + [e], card) == if IsFailure(e, card) then FailuresOf(events, card) + [e] else FailuresOf(events, card)
  {
    assert (events + [e])[..|events|] == events;
  }

  lemma {:induction false} FailuresOfConcat(events: seq<Event>, more: seq<Event>, card: GpuId)
    requires forall e :: e in more ==> !e.Failed?
    ensures FailuresOf(events + more, card) == FailuresOf(events, card)
    decreases |more|
  {
    if more == [] {
      assert events + more == events;
    } else {
      var rest, last := more[..|more| - 1], more[|more| - 1];
      assert last in more;
      assert events + more == (events + rest) + [last];
      FailuresOfAppend(events + rest, last, card);
      FailuresOfConcat(events, rest, card);
    }
  }

  lemma {:induction false} FailuresOfMoved(events: seq<Event>, c: Chain, at: int, card: GpuId)
    ensures FailuresOf(MovedEarlier(events, c, at), card) == FailuresOf(events, card)
  {
    if events != [] {
      var rest, last := events[..|events| - 1], events[|events| - 1];
      assert MovedEarlier(events, c, at) == MovedEarlier(rest, c, at) + [EarlierStart(last, c, at)];
      FailuresOfMoved(rest, c, at, card);
      FailuresOfAppend(MovedEarlier(rest, c, at), EarlierStart(last, c, at), card);
    }
  }

  // The failure that storing a point records, if it does.
  ghost function NewFailure(points: map<PointId, Point>, c: Chain, p: Point): seq<Event> {
    if FailsAfter(p, PreviousPoint(points, c, p.at)) then [Failed(c.node, c.uuid, p.at, p.status)] else []
  }

  lemma StorePointFailuresOf(st: State, c: Chain, p: Point, card: GpuId)
    ensures FailuresOf(StorePoint(st, c, p).events, card)
         == FailuresOf(st.events, card) + (if GpuId(c.node, c.uuid) == card then NewFailure(st.points, c, p) else [])
  {
    hide Link, SeeGpu, PreviousPoint, NextPoint;
    var before, after := PreviousPoint(st.points, c, p.at), NextPoint(st.points, c, p.at);
    var recorded := RecordStart(st.events, c, p.at, before.Some?, after.Some?);
    FailuresOfAppend(st.events, Started(c.node, c.uuid, c.boot, p.at), card);
    FailuresOfMoved(st.events, c, p.at, card);
    FailuresOfAppend(recorded, Failed(c.node, c.uuid, p.at, p.status), card);
  }

  // A chain in the run of the agent that a snapshot belongs to, of one of some cards.
  ghost predicate Concerns(s: Snapshot, uuids: set<string>, d: Chain) {
    d.node == s.node && d.boot == s.boot && d.uuid in uuids
  }

  // The failure that the first n cards of a snapshot record for a card, if they do.
  ghost function NewFailures(points: map<PointId, Point>, s: Snapshot, gpus: seq<Gpu>, n: nat, card: GpuId): seq<Event>
    requires 0 <= s.at && n <= |gpus|
  {
    if n == 0 then []
    else
      var before, g := NewFailures(points, s, gpus, n - 1, card), gpus[n - 1];
      if GpuId(s.node, g.uuid) == card then before + NewFailure(points, Chain(s.node, g.uuid, s.boot), MakePoint(s, g)) else before
  }

  // The cards before it leave the chain of the next card alone.
  lemma ChainUntouched(points: map<PointId, Point>, later: map<PointId, Point>, s: Snapshot, gpus: seq<Gpu>, n: nat)
    requires 0 <= s.at && n < |gpus| && DistinctUuids(gpus) && PointsAdded(points, later, s, gpus, n)
    ensures var c := Chain(s.node, gpus[n].uuid, s.boot);
            && Earlier(later, c, s.at) == Earlier(points, c, s.at)
            && Later(later, c, s.at) == Later(points, c, s.at)
            && PreviousPoint(later, c, s.at) == PreviousPoint(points, c, s.at)
    ensures gpus[n].uuid !in Uuids(gpus[..n])
  {
    hide MakePoint;
    var c := Chain(s.node, gpus[n].uuid, s.boot);
    assert forall i :: i in later && ChainOf(i) == c ==> i in points;
    BeforeSame(points, later, c, s.at);
  }

  lemma {:induction false} StoreGpusEventsOf(st: State, s: Snapshot, gpus: seq<Gpu>, n: nat, d: Chain, card: GpuId)
    requires 0 <= s.at && n <= |gpus| && DistinctUuids(gpus) && StoreGpus(st, s, gpus, n).Ok?
    ensures var after := StoreGpus(st, s, gpus, n).value;
            && StartsOf(after.events, d)
               == (if Concerns(s, Uuids(gpus[..n]), d) then NextStarts(st.points, StartsOf(st.events, d), d, s.at) else StartsOf(st.events, d))
            && FailuresOf(after.events, card) == FailuresOf(st.events, card) + NewFailures(st.points, s, gpus, n, card)
  {
    hide StorePoint, StartsOf, FailuresOf, MakePoint, DistinctUuids, PointsAdded, Uuids, PreviousPoint, RecordStart;
    if n == 0 {
      NoUuids();
      assert gpus[..0] == [];
      assert FailuresOf(st.events, card) + [] == FailuresOf(st.events, card);
    } else {
      StoreGpusEventsOf(st, s, gpus, n - 1, d, card);
      StoreGpusPoints(st, s, gpus, n - 1);
      var before, g := StoreGpus(st, s, gpus, n - 1).value, gpus[n - 1];
      var c := Chain(s.node, g.uuid, s.boot);
      StorePointStartsOf(before, c, MakePoint(s, g), d);
      StorePointFailuresOf(before, c, MakePoint(s, g), card);
      ChainUntouched(st.points, before.points, s, gpus, n - 1);
      assert gpus[..n] == gpus[..n - 1] + [g];
      UuidsAppend(gpus[..n - 1], g);
    }
  }

  lemma FinishEventsOf(stored: State, s: Snapshot, gpus: seq<Gpu>, backfill: bool, now: int, d: Chain, card: GpuId)
    requires s.node in stored.nodes
    ensures StartsOf(Finish(stored, s, gpus, backfill, now).events, d) == StartsOf(stored.events, d)
    ensures FailuresOf(Finish(stored, s, gpus, backfill, now).events, card) == FailuresOf(stored.events, card)
  {
    hide StartsOf, FailuresOf, NewLive, Uuids;
    var known := stored.nodes[s.node];
    OnlyMissing(s.node, s.at, known.gpus, Uuids(gpus), |known.gpus|);
    var more := if s.at > known.sampleAt then NewlyMissing(s, gpus, known) else [];
    StartsConcat(stored.events, more, d);
    FailuresOfConcat(stored.events, more, card);
    assert stored.events + [] == stored.events;
  }

  lemma InsertEventsOf(st: State, s: Snapshot, backfill: bool, now: int, d: Chain, card: GpuId)
    requires 0 <= s.at && s.node in st.nodes && AllGpus(st, s).Ok? && Insert(st, s, backfill, now).Ok?
    requires DistinctUuids(AllGpus(st, s).value)
    ensures var gpus, after := AllGpus(st, s).value, Insert(st, s, backfill, now).value;
            && StartsOf(after.events, d)
               == (if Concerns(s, Uuids(gpus), d) then NextStarts(st.points, StartsOf(st.events, d), d, s.at) else StartsOf(st.events, d))
            && FailuresOf(after.events, card) == FailuresOf(st.events, card) + NewFailures(st.points, s, gpus, |gpus|, card)
  {
    hide StoreGpus, Finish, DistinctUuids, StartsOf, FailuresOf, Uuids, RecordStart, NewFailures, AllGpus;
    var gpus, recorded := AllGpus(st, s).value, RecordSample(st, s);
    StoreGpusEventsOf(recorded, s, gpus, |gpus|, d, card);
    assert gpus[..|gpus|] == gpus;
    FinishEventsOf(StoreGpus(recorded, s, gpus, |gpus|).value, s, gpus, backfill, now, d, card);
  }

  /******* The same snapshot on a hub that never prunes *******/

  // The snapshot is new to the hub, whether or not its row would still be there.
  ghost predicate Inserts(ops: seq<Op>, op: Op) {
    && op.Upload? && Acceptable(op.s, op.now)
    && IdOf(op.s) !in Run(Unpruned(ops)).samples && op.s.node in Run(ops).nodes
  }

  ghost function CardsOf(ops: seq<Op>, op: Op): Result<seq<Gpu>, Refusal>
    requires Inserts(ops, op)
  {
    AllGpus(Run(ops), op.s)
  }

  lemma RunSides(ops: seq<Op>, op: Op)
    requires Coherent(ops + [op]) && Clocked(ops + [op])
    ensures Mirrors(Run(Unpruned(ops)), Run(ops), LastPrune(ops))
    ensures Sound(Run(Unpruned(ops))) && Sound(Run(ops)) && Exact(Run(Unpruned(ops))) && ShortIntervals(Run(Unpruned(ops)).points)
    ensures op.Upload? ==> Consistent(Run(Unpruned(ops)).samples, op.s) && Consistent(Run(ops).samples, op.s)
    ensures !op.AddNode? ==> LastPrune(ops) <= op.now
    ensures Run(ops + [op]) == Step(Run(ops), op)
    ensures Run(Unpruned(ops + [op])) == if op.Clean? then Run(Unpruned(ops)) else Step(Run(Unpruned(ops)), op)
    ensures LastPrune(ops + [op]) == if op.Clean? then op.now else LastPrune(ops)
    ensures Coherent(ops) && Clocked(ops) && Coherent(Unpruned(ops)) && NoCleans(Unpruned(ops))
  {
    hide Run, Mirrors, ShortIntervals, Exact, Agree, Sound, Consistent, Step;
    assert (ops + [op])[..|ops|] == ops;
    RunMirrors(ops);
    PruneBeforeClock(ops);
    UnprunedSubset(ops);
    RunKeeps(Unpruned(ops));
    RunKeeps(ops);
    RunSnoc(ops, op);
    if op.Clean? {
      assert Unpruned(ops + [op]) == Unpruned(ops);
    } else {
      assert Unpruned(ops + [op]) == Unpruned(ops) + [op];
      RunSnoc(Unpruned(ops), op);
    }
    if op.Upload? {
      CoherentConsistent(ops + [op], op, Run(Unpruned(ops)).samples);
      CoherentConsistent(ops + [op], op, Run(ops).samples);
    }
  }

  // Both sides take the snapshot in, with the same cards.
  lemma BothInsert(ops: seq<Op>, op: Op)
    requires Coherent(ops + [op]) && Clocked(ops + [op]) && Inserts(ops, op)
    ensures var full, st, s := Run(Unpruned(ops)), Run(ops), op.s;
            && 0 <= s.at && s.node in full.nodes && CardsOf(ops, op).Ok? && AllGpus(full, s) == CardsOf(ops, op)
            && DistinctUuids(CardsOf(ops, op).value)
            && Insert(st, s, op.backfill, op.now).Ok? && Insert(full, s, op.backfill, op.now).Ok?
            && Run(ops + [op]) == Insert(st, s, op.backfill, op.now).value
            && Run(Unpruned(ops + [op])) == Insert(full, s, op.backfill, op.now).value
            && s.at >= LastPrune(ops) - MAX_AGE
  {
    hide Run, Exact, Chained, EdgesMirror, Insert, DistinctUuids, KnownCards, SamplesKnown, Consistent, ShortIntervals, Read, Expired, Inherit;
    RunSides(ops, op);
    var full, st, s := Run(Unpruned(ops)), Run(ops), op.s;
    AcceptedShape(s, op.now);
    assert s.at >= op.now - MAX_AGE;
    InsertKeeps(full, s, op.backfill, op.now);
    InsertKeeps(st, s, op.backfill, op.now);
    AllGpusKnown(st, s);
  }

  // A snapshot that is refused or known, or a registration, stores nothing.
  lemma IdleStep(st: State, op: Op)
    requires !op.Clean?
    requires op.Upload? ==> !Acceptable(op.s, op.now) || IdOf(op.s) in st.samples || op.s.node !in st.nodes
    ensures Step(st, op).events == st.events && Step(st, op).points == st.points
  {
    hide Insert, Acceptable;
  }

  // Otherwise neither side changes what the history is about.
  lemma NeitherInserts(ops: seq<Op>, op: Op)
    requires Coherent(ops + [op]) && Clocked(ops + [op]) && !Inserts(ops, op) && !op.Clean?
    ensures Run(ops + [op]).events == Run(ops).events && Run(Unpruned(ops + [op])).events == Run(Unpruned(ops)).events
  {
    hide Run, Exact, Mirrors, Insert, Sound, Consistent, ShortIntervals, Acceptable;
    RunSides(ops, op);
    var full, st := Run(Unpruned(ops)), Run(ops);
    MirrorsNodes(full, st, LastPrune(ops));
    if op.Upload? {
      UploadMirrors(full, st, LastPrune(ops), op);
    }
  }

  lemma MirrorsNodes(full: State, st: State, pruned: int)
    requires Mirrors(full, st, pruned)
    ensures st.nodes == full.nodes && st.points == RecentPoints(full.points, pruned - RAW_AGE)
  {
  }

  /******* Recent events *******/

  lemma RecentAppend(events: seq<Event>, e: Event, cutoff: int)
    ensures RecentEvents(events + [e], cutoff) == if e.at < cutoff then RecentEvents(events, cutoff) else RecentEvents(events, cutoff) + [e]
  {
    assert (events + [e])[..|events|] == events;
    assert RecentEvents(events, cutoff) + [] == RecentEvents(events, cutoff);
  }

  lemma {:induction false} RecentStarts(events: seq<Event>, cutoff: int, d: Chain)
    ensures StartsOf(RecentEvents(events, cutoff), d) == RecentEvents(StartsOf(events, d), cutoff)
  {
    if events != [] {
      var init, last := events[..|events| - 1], events[|events| - 1];
      assert events == init + [last];
      RecentStarts(init, cutoff, d);
      RecentAppend(init, last, cutoff);
      StartsAppend(RecentEvents(init, cutoff), last, d);
      RecentAppend(StartsOf(init, d), last, cutoff);
    }
  }

  lemma {:induction false} RecentFailures(events: seq<Event>, cutoff: int, card: GpuId)
    ensures FailuresOf(RecentEvents(events, cutoff), card) == RecentEvents(FailuresOf(events, card), cutoff)
  {
    if events != [] {
      var init, last := events[..|events| - 1], events[|events| - 1];
      assert events == init + [last];
      RecentFailures(init, cutoff, card);
      RecentAppend(init, last, cutoff);
      FailuresOfAppend(RecentEvents(init, cutoff), last, card);
      RecentAppend(FailuresOf(init, card), last, cutoff);
    }
  }

  lemma {:induction false} RecentTwice(events: seq<Event>, cutoff: int, later: int)
    requires cutoff <= later
    ensures RecentEvents(RecentEvents(events, cutoff), later) == RecentEvents(events, later)
  {
    if events != [] {
      var init, last := events[..|events| - 1], events[|events| - 1];
      assert events == init + [last];
      RecentTwice(init, cutoff, later);
      RecentAppend(init, last, cutoff);
      RecentAppend(init, last, later);
      RecentAppend(RecentEvents(init, cutoff), last, later);
    }
  }

  /******* Starts *******/

  // Every point that the run of the agent ever left for the card was discarded by the last
  // prune.
  ghost predicate Forgotten(ops: seq<Op>, d: Chain) {
    AllOld(Run(Unpruned(ops)).points, d, LastPrune(ops) - RAW_AGE)
  }

  // A new snapshot lists the card, whose run has started and been forgotten.
  ghost predicate StartsAgain(ops: seq<Op>, op: Op, d: Chain) {
    && Inserts(ops, op) && CardsOf(ops, op).Ok? && Concerns(op.s, Uuids(CardsOf(ops, op).value), d)
    && ChainIds(Run(Unpruned(ops)).points, d) != {} && Forgotten(ops, d)
  }

  // The starts of a chain are those that a hub with a full memory has, but for old ones.
  ghost predicate StartsKept(ops: seq<Op>, d: Chain) {
    StartsOf(Run(ops).events, d)
    == RecentEvents(ExpectedStarts(Run(Unpruned(ops)).points, d), LastPrune(ops) - EVENT_AGE)
  }

  lemma RecentOne(e: Event, cutoff: int)
    ensures RecentEvents([e], cutoff) == if e.at < cutoff then [] else [e]
    ensures RecentEvents([], cutoff) == []
  {
    RecentAppend([], e, cutoff);
    assert [] + [e] == [e];
  }

  lemma EarlierAndLater(full: map<PointId, Point>, cutoff: int, d: Chain, at: int)
    requires cutoff <= at
    ensures Later(RecentPoints(full, cutoff), d, at) == Later(full, d, at)
    ensures Earlier(RecentPoints(full, cutoff), d, at) <= Earlier(full, d, at)
    ensures Earlier(full, d, at) != {} ==> full[First(full, ChainIds(full, d))].at < at
  {
    if Earlier(full, d, at) != {} {
      var i :| i in Earlier(full, d, at);
      assert i in ChainIds(full, d);
      assert NotAfter(full, First(full, ChainIds(full, d)), i);
    }
  }

  // The first point of the chain, on both sides.
  lemma FirstStart(full: map<PointId, Point>, pruned: int, d: Chain, at: int)
    requires ChainIds(full, d) == {} && at >= pruned - MAX_AGE
    ensures var e, next := Started(d.node, d.uuid, d.boot, at), NextStarts(full, [], d, at);
            && NextStarts(RecentPoints(full, pruned - RAW_AGE), [], d, at) == [e] && next == [e]
            && RecentEvents(next, pruned - EVENT_AGE) == [e] && RecentEvents([], pruned - EVENT_AGE) == []
  {
    assert Earlier(full, d, at) == {} && Later(full, d, at) == {};
    EarlierAndLater(full, pruned - RAW_AGE, d, at);
    RecentOne(Started(d.node, d.uuid, d.boot, at), pruned - EVENT_AGE);
    assert [] + [Started(d.node, d.uuid, d.boot, at)] == [Started(d.node, d.uuid, d.boot, at)];
  }

  // The one start that there should be, moved to an earlier time or not, recent or not.
  lemma OneStartMoves(d: Chain, first: int, at: int, cutoff: int)
    requires cutoff <= at
    ensures var e := Started(d.node, d.uuid, d.boot, first);
            && RecordStart([e], d, at, true, false) == [e] && RecordStart([e], d, at, true, true) == [e]
            && RecordStart([e], d, at, false, true) == [EarlierStart(e, d, at)]
            && RecordStart(RecentEvents([e], cutoff), d, at, false, true) == RecentEvents([EarlierStart(e, d, at)], cutoff)
            && (first <= at ==> EarlierStart(e, d, at) == e)
  {
    var e := Started(d.node, d.uuid, d.boot, first);
    RecentOne(e, cutoff);
    RecentOne(EarlierStart(e, d, at), cutoff);
  }

  ghost predicate AllOld(full: map<PointId, Point>, d: Chain, cutoff: int) {
    forall i :: i in ChainIds(full, d) ==> full[i].at < cutoff
  }

  // The neighbours that each side finds for a new point of the chain.
  lemma NeighboursSides(full: map<PointId, Point>, cutoff: int, d: Chain, at: int)
    requires cutoff <= at && ChainIds(full, d) != {}
    requires forall i :: i in full && ChainOf(i) == d ==> full[i].at != at
    ensures var kept := RecentPoints(full, cutoff);
            && Later(kept, d, at) == Later(full, d, at)
            && (Earlier(full, d, at) == {} ==> Later(full, d, at) != {} && Earlier(kept, d, at) == {} && !AllOld(full, d, cutoff))
            && (Earlier(full, d, at) != {} ==> full[First(full, ChainIds(full, d))].at < at)
            && (Earlier(kept, d, at) == {} && Later(kept, d, at) == {} <==> AllOld(full, d, cutoff))
  {
    var kept, f := RecentPoints(full, cutoff), First(full, ChainIds(full, d));
    EarlierAndLater(full, cutoff, d, at);
    assert f in Earlier(full, d, at) || f in Later(full, d, at);
    if Earlier(kept, d, at) == {} && Later(kept, d, at) == {} {
      forall i | i in ChainIds(full, d)
        ensures full[i].at < cutoff
      {
        assert i !in Later(full, d, at) && i !in Earlier(kept, d, at);
      }
    } else {
      OneIsRecent(full, cutoff, d, at);
    }
  }

  // A point of the chain is stored on both sides.
  lemma StartsSides(full: map<PointId, Point>, pruned: int, d: Chain, at: int)
    requires at >= pruned - MAX_AGE
    requires forall i :: i in full && ChainOf(i) == d ==> full[i].at != at
    ensures var kept, starts := RecentPoints(full, pruned - RAW_AGE), ExpectedStarts(full, d);
            var next := RecentEvents(NextStarts(full, starts, d, at), pruned - EVENT_AGE);
            NextStarts(kept, RecentEvents(starts, pruned - EVENT_AGE), d, at)
            == if ChainIds(full, d) != {} && AllOld(full, d, pruned - RAW_AGE)
               then next + [Started(d.node, d.uuid, d.boot, at)] else next
  {
    if ChainIds(full, d) == {} {
      FirstStart(full, pruned, d, at);
    } else {
      hide RecordStart, AllOld, Earlier, Later, ChainIds, RecentEvents, EarlierStart, RecentPoints;
      var first := full[First(full, ChainIds(full, d))].at;
      NeighboursSides(full, pruned - RAW_AGE, d, at);
      OneStartMoves(d, first, at, pruned - EVENT_AGE);
      NoNeighbour(RecentEvents([Started(d.node, d.uuid, d.boot, first)], pruned - EVENT_AGE), d, at);
    }
  }

  lemma NoNeighbour(starts: seq<Event>, d: Chain, at: int)
    ensures RecordStart(starts, d, at, false, false) == starts + [Started(d.node, d.uuid, d.boot, at)]
    ensures RecordStart(starts, d, at, true, false) == starts && RecordStart(starts, d, at, true, true) == starts
  {
  }

  lemma OneIsRecent(full: map<PointId, Point>, cutoff: int, d: Chain, at: int)
    requires cutoff <= at && (Later(full, d, at) != {} || Earlier(RecentPoints(full, cutoff), d, at) != {})
    ensures exists i :: i in ChainIds(full, d) && full[i].at >= cutoff
  {
    if Later(full, d, at) != {} {
      var i :| i in Later(full, d, at);
      assert i in ChainIds(full, d);
    } else {
      var i :| i in Earlier(RecentPoints(full, cutoff), d, at);
      assert i in ChainIds(full, d);
    }
  }

  // The time of a new snapshot is new to its chains.
  lemma NewTime(ops: seq<Op>, op: Op, d: Chain)
    requires Coherent(ops + [op]) && Clocked(ops + [op]) && Inserts(ops, op) && d.node == op.s.node && d.boot == op.s.boot
    ensures var full := Run(Unpruned(ops)).points;
            forall i :: i in full && ChainOf(i) == d ==> full[i].at != op.s.at
  {
    hide Run, Exact, Mirrors, Acceptable, Inventory, SamplesKnown, ShortIntervals;
    RunSides(ops, op);
    var full := Run(Unpruned(ops));
    forall i | i in full.points && ChainOf(i) == d
      ensures full.points[i].at != op.s.at
    {
      assert SampleOf(i) in full.samples && full.samples[SampleOf(i)] == full.points[i].at;
    }
  }

  lemma StartsMatchAt(st: State, d: Chain)
    requires StartsMatch(st)
    ensures StartsOf(st.events, d) == ExpectedStarts(st.points, d)
  {
  }

  lemma FullStarts(ops: seq<Op>, d: Chain)
    requires Coherent(ops) && Clocked(ops)
    ensures StartsOf(Run(Unpruned(ops)).events, d) == ExpectedStarts(Run(Unpruned(ops)).points, d)
  {
    hide StartsMatch, Run, Agree;
    UnprunedSubset(ops);
    OneStartEach(Unpruned(ops));
    StartsMatchAt(Run(Unpruned(ops)), d);
  }

  lemma UploadStarts(ops: seq<Op>, op: Op, d: Chain)
    requires Coherent(ops + [op]) && Clocked(ops + [op]) && Inserts(ops, op) && StartsKept(ops, d)
    ensures StartsKept(ops + [op], d) <==> !StartsAgain(ops, op, d)
  {
    hide Run, Exact, Mirrors, Acceptable, Insert, StartsOf, ExpectedStarts, NextStarts, Uuids, Agree, RecentEvents, FailuresOf,
         NewFailures, RecentPoints, AllGpus, Sound, Consistent, ShortIntervals;
    RunSides(ops, op);
    BothInsert(ops, op);
    FullStarts(ops, d);
    FullStarts(ops + [op], d);
    var full, st, s, pruned := Run(Unpruned(ops)), Run(ops), op.s, LastPrune(ops);
    MirrorsNodes(full, st, pruned);
    InsertEventsOf(full, s, op.backfill, op.now, d, GpuId(s.node, d.uuid));
    InsertEventsOf(st, s, op.backfill, op.now, d, GpuId(s.node, d.uuid));
    if Concerns(s, Uuids(CardsOf(ops, op).value), d) {
      NewTime(ops, op, d);
      StartsSides(full.points, pruned, d, s.at);
    }
  }

  lemma CleanStarts(ops: seq<Op>, now: HubTime, d: Chain)
    requires Coherent(ops + [Clean(now)]) && Clocked(ops + [Clean(now)]) && StartsKept(ops, d)
    ensures StartsKept(ops + [Clean(now)], d)
  {
    hide Run, StartsOf, RecentEvents, Exact, Mirrors, Sound, ShortIntervals, ExpectedStarts;
    RunSides(ops, Clean(now));
    CleanStep(Run(ops), now);
    RecentStarts(Run(ops).events, now - EVENT_AGE, d);
    RecentTwice(ExpectedStarts(Run(Unpruned(ops)).points, d), LastPrune(ops) - EVENT_AGE, now - EVENT_AGE);
  }

  lemma StartsStep(ops: seq<Op>, op: Op, d: Chain)
    requires Coherent(ops + [op]) && Clocked(ops + [op]) && StartsKept(ops, d)
    ensures StartsKept(ops + [op], d) <==> !StartsAgain(ops, op, d)
  {
    hide Run, Inserts, StartsOf, ExpectedStarts, Agree, RecentEvents, CardsOf, Concerns, Forgotten, Exact, Mirrors, Sound, ShortIntervals, Consistent;
    if Inserts(ops, op) {
      UploadStarts(ops, op, d);
    } else if op.Clean? {
      CleanStarts(ops, op.now, d);
    } else {
      NeitherInserts(ops, op);
      RunSides(ops, op);
      FullStarts(ops, d);
      FullStarts(ops + [op], d);
    }
  }

  lemma PrefixOf(ops: seq<Op>, n: nat)
    requires Coherent(ops) && Clocked(ops) && n < |ops|
    ensures ops[..n + 1] == ops[..n] + [ops[n]]
    ensures Coherent(ops[..n + 1]) && Clocked(ops[..n + 1])
  {
    hide Agree, Clocked;
    ClockedPrefix(ops, n + 1);
  }

  lemma {:induction false} ClockedPrefix(ops: seq<Op>, n: nat)
    requires Clocked(ops) && n <= |ops|
    ensures Clocked(ops[..n])
    decreases |ops| - n
  {
    if n == |ops| {
      assert ops[..n] == ops;
    } else {
      ClockedPrefix(ops, n + 1);
      assert ops[..n + 1][..n] == ops[..n];
    }
  }

  // For a card and a run of the agent, with any interleaving of prunes: at every moment there
  // is one start, at the time of the earliest point ever, as long as the event is kept at all,
  // if and only if no snapshot ever came when all earlier points had been discarded.
  lemma {:induction false} OneStartIff(ops: seq<Op>, d: Chain, n: nat)
    requires Coherent(ops) && Clocked(ops) && n <= |ops|
    ensures (forall m: nat :: m <= n ==> StartsKept(ops[..m], d)) <==> (forall m: nat :: m < n ==> !StartsAgain(ops[..m], ops[m], d))
  {
    hide StartsKept, StartsAgain, Coherent, Clocked;
    if n == 0 {
      NoStartsYet(d);
      assert ops[..0] == [];
    } else {
      OneStartIff(ops, d, n - 1);
      PrefixOf(ops, n - 1);
      if StartsKept(ops[..n - 1], d) {
        StartsStep(ops[..n - 1], ops[n - 1], d);
      }
    }
  }

  lemma NoStartsYet(d: Chain)
    ensures StartsKept([], d)
  {
  }

  /******* Failures *******/

  // A card of a new snapshot is failing, as it was at the point before, which is forgotten.
  ghost predicate FailsAgain(ops: seq<Op>, op: Op, card: GpuId) {
    && Inserts(ops, op) && CardsOf(ops, op).Ok? && op.s.node == card.node && 0 <= op.s.at
    && (exists g :: g in CardsOf(ops, op).value && g.uuid == card.uuid && g.status != "ok")
    && var before := PreviousPoint(Run(Unpruned(ops)).points, Chain(card.node, card.uuid, op.s.boot), op.s.at);
       before.Some? && before.value.status != "ok" && before.value.at < LastPrune(ops) - RAW_AGE
  }

  // The failures of a card are those of a hub that never prunes, but for old ones.
  ghost predicate FailuresKept(ops: seq<Op>, card: GpuId) {
    FailuresOf(Run(ops).events, card) == RecentEvents(FailuresOf(Run(Unpruned(ops)).events, card), LastPrune(ops) - EVENT_AGE)
  }

  lemma NewFailureSides(full: map<PointId, Point>, pruned: int, c: Chain, p: Point)
    ensures var before := PreviousPoint(full, c, p.at);
            var again := p.status != "ok" && before.Some? && before.value.status != "ok" && before.value.at < pruned - RAW_AGE;
            && (again ==> |NewFailure(RecentPoints(full, pruned - RAW_AGE), c, p)| == 1 && NewFailure(full, c, p) == [])
            && (!again ==> NewFailure(RecentPoints(full, pruned - RAW_AGE), c, p) == NewFailure(full, c, p))
  {
    hide RecentPoints, Before;
    BeforeMirrors(full, pruned - RAW_AGE, c, p.at);
    RecentValue(full, pruned - RAW_AGE);
  }

  lemma RecentValue(full: map<PointId, Point>, cutoff: int)
    ensures forall i :: i in RecentPoints(full, cutoff) ==> i in full && RecentPoints(full, cutoff)[i] == full[i]
  {
  }

  lemma {:induction false} NoneListed(points: map<PointId, Point>, s: Snapshot, gpus: seq<Gpu>, n: nat, card: GpuId)
    requires 0 <= s.at && n <= |gpus| && (s.node != card.node || card.uuid !in Uuids(gpus[..n]))
    ensures NewFailures(points, s, gpus, n, card) == []
  {
    hide MakePoint, Uuids;
    if n != 0 {
      assert gpus[..n] == gpus[..n - 1] + [gpus[n - 1]];
      UuidsAppend(gpus[..n - 1], gpus[n - 1]);
      NoneListed(points, s, gpus, n - 1, card);
    }
  }

  // A card that is listed at place j.
  lemma {:induction false} OneListed(points: map<PointId, Point>, s: Snapshot, gpus: seq<Gpu>, n: nat, j: nat)
    requires 0 <= s.at && j < n <= |gpus| && DistinctUuids(gpus)
    ensures NewFailures(points, s, gpus, n, GpuId(s.node, gpus[j].uuid))
         == NewFailure(points, Chain(s.node, gpus[j].uuid, s.boot), MakePoint(s, gpus[j]))
  {
    hide MakePoint, NewFailure;
    if j == n - 1 {
      assert gpus[j].uuid !in Uuids(gpus[..j]);
      NoneListed(points, s, gpus, j, GpuId(s.node, gpus[j].uuid));
    } else {
      OneListed(points, s, gpus, n - 1, j);
    }
  }

  lemma FailuresSides(full: map<PointId, Point>, pruned: int, s: Snapshot, gpus: seq<Gpu>, card: GpuId)
    requires 0 <= s.at && DistinctUuids(gpus)
    ensures var kept := RecentPoints(full, pruned - RAW_AGE);
            var before := PreviousPoint(full, Chain(card.node, card.uuid, s.boot), s.at);
            var again := s.node == card.node && (exists g :: g in gpus && g.uuid == card.uuid && g.status != "ok")
                         && before.Some? && before.value.status != "ok" && before.value.at < pruned - RAW_AGE;
            && (again ==> |NewFailures(kept, s, gpus, |gpus|, card)| == 1 && NewFailures(full, s, gpus, |gpus|, card) == [])
            && (!again ==> NewFailures(kept, s, gpus, |gpus|, card) == NewFailures(full, s, gpus, |gpus|, card))
  {
    hide NewFailure, NewFailures, RecentPoints, PreviousPoint;
    var kept := RecentPoints(full, pruned - RAW_AGE);
    assert gpus[..|gpus|] == gpus;
    if s.node == card.node && card.uuid in Uuids(gpus) {
      var j :| 0 <= j < |gpus| && gpus[j].uuid == card.uuid;
      OneListed(full, s, gpus, |gpus|, j);
      OneListed(kept, s, gpus, |gpus|, j);
      NewFailureSides(full, pruned, Chain(s.node, card.uuid, s.boot), MakePoint(s, gpus[j]));
      assert forall g :: g in gpus && g.uuid == card.uuid ==> g == gpus[j];
    } else {
      NoneListed(full, s, gpus, |gpus|, card);
      NoneListed(kept, s, gpus, |gpus|, card);
      assert forall g :: g in gpus ==> g.uuid in Uuids(gpus);
    }
  }

  lemma {:induction false} NewFailuresAt(points: map<PointId, Point>, s: Snapshot, gpus: seq<Gpu>, n: nat, card: GpuId)
    requires 0 <= s.at && n <= |gpus|
    ensures forall e :: e in NewFailures(points, s, gpus, n, card) ==> e.at == s.at
  {
    hide PreviousPoint;
    if n != 0 {
      NewFailuresAt(points, s, gpus, n - 1, card);
    }
  }

  lemma {:induction false} RecentConcat(events: seq<Event>, more: seq<Event>, cutoff: int)
    requires forall e :: e in more ==> cutoff <= e.at
    ensures RecentEvents(events + more, cutoff) == RecentEvents(events, cutoff) + more
    decreases |more|
  {
    if more == [] {
      assert events + more == events && RecentEvents(events, cutoff) + more == RecentEvents(events, cutoff);
    } else {
      var rest, last := more[..|more| - 1], more[|more| - 1];
      assert last in more && more == rest + [last];
      assert events + more == (events + rest) + [last];
      RecentAppend(events + rest, last, cutoff);
      RecentConcat(events, rest, cutoff);
      assert RecentEvents(events, cutoff) + rest + [last] == RecentEvents(events, cutoff) + more;
    }
  }

  lemma UploadFailures(ops: seq<Op>, op: Op, card: GpuId)
    requires Coherent(ops + [op]) && Clocked(ops + [op]) && Inserts(ops, op) && FailuresKept(ops, card)
    ensures FailuresKept(ops + [op], card) <==> !FailsAgain(ops, op, card)
  {
    hide Run, Exact, Mirrors, Acceptable, Insert, StartsOf, NextStarts, Uuids, Agree, RecentEvents, FailuresOf, NewFailures,
         RecentPoints, AllGpus, Sound, Consistent, ShortIntervals, PreviousPoint, DistinctUuids;
    RunSides(ops, op);
    BothInsert(ops, op);
    var full, st, s, pruned := Run(Unpruned(ops)), Run(ops), op.s, LastPrune(ops);
    var gpus, d := CardsOf(ops, op).value, Chain(card.node, card.uuid, s.boot);
    MirrorsNodes(full, st, pruned);
    InsertEventsOf(full, s, op.backfill, op.now, d, card);
    InsertEventsOf(st, s, op.backfill, op.now, d, card);
    FailuresSides(full.points, pruned, s, gpus, card);
    NewFailuresAt(full.points, s, gpus, |gpus|, card);
    RecentConcat(FailuresOf(full.events, card), NewFailures(full.points, s, gpus, |gpus|, card), pruned - EVENT_AGE);
  }

  lemma CleanFailures(ops: seq<Op>, now: HubTime, card: GpuId)
    requires Coherent(ops + [Clean(now)]) && Clocked(ops + [Clean(now)]) && FailuresKept(ops, card)
    ensures FailuresKept(ops + [Clean(now)], card)
  {
    hide Run, FailuresOf, RecentEvents, Exact, Mirrors, Sound, ShortIntervals;
    RunSides(ops, Clean(now));
    CleanStep(Run(ops), now);
    RecentFailures(Run(ops).events, now - EVENT_AGE, card);
    RecentTwice(FailuresOf(Run(Unpruned(ops)).events, card), LastPrune(ops) - EVENT_AGE, now - EVENT_AGE);
  }

  lemma FailuresStep(ops: seq<Op>, op: Op, card: GpuId)
    requires Coherent(ops + [op]) && Clocked(ops + [op]) && FailuresKept(ops, card)
    ensures FailuresKept(ops + [op], card) <==> !FailsAgain(ops, op, card)
  {
    hide Run, Inserts, FailuresOf, Agree, RecentEvents, CardsOf, Exact, Mirrors, Sound, ShortIntervals, Consistent, PreviousPoint;
    if Inserts(ops, op) {
      UploadFailures(ops, op, card);
    } else if op.Clean? {
      CleanFailures(ops, op.now, card);
    } else {
      NeitherInserts(ops, op);
      RunSides(ops, op);
    }
  }

  // The failure events of a card, with any interleaving of prunes and any order of arrival:
  // at every moment they are those of a hub that never prunes, as long as they are kept at
  // all, if and only if no failed observation ever came when the failed one before it had
  // been discarded.
  lemma {:induction false} FailuresIff(ops: seq<Op>, card: GpuId, n: nat)
    requires Coherent(ops) && Clocked(ops) && n <= |ops|
    ensures (forall m: nat :: m <= n ==> FailuresKept(ops[..m], card)) <==> (forall m: nat :: m < n ==> !FailsAgain(ops[..m], ops[m], card))
  {
    hide FailuresKept, FailsAgain, Coherent, Clocked;
    if n == 0 {
      NoFailuresYet(card);
      assert ops[..0] == [];
    } else {
      FailuresIff(ops, card, n - 1);
      PrefixOf(ops, n - 1);
      if FailuresKept(ops[..n - 1], card) {
        FailuresStep(ops[..n - 1], ops[n - 1], card);
      }
    }
  }

  lemma NoFailuresYet(card: GpuId)
    ensures FailuresKept([], card)
  {
  }

  lemma {:induction false} InOrderUnpruned(ops: seq<Op>)
    requires EventHistory.InOrder(ops)
    ensures EventHistory.InOrder(Unpruned(ops))
  {
    if ops != [] {
      var before, op := ops[..|ops| - 1], ops[|ops| - 1];
      InOrderUnpruned(before);
      UnprunedSubset(before);
      if !op.Clean? {
        assert Unpruned(ops) == Unpruned(before) + [op];
        assert Unpruned(ops)[..|Unpruned(before)|] == Unpruned(before);
      } else {
        assert Unpruned(ops) == Unpruned(before);
      }
    }
  }

  // For samples in order, that is one failure for each maximal run of failed observations.
  lemma {:induction false} FailuresAreRuns(ops: seq<Op>, card: GpuId)
    requires Coherent(ops) && Clocked(ops) && EventHistory.InOrder(ops)
    requires forall m: nat :: m < |ops| ==> !FailsAgain(ops[..m], ops[m], card)
    ensures exists all: seq<Event> ::
              && FailuresOf(Run(ops).events, card) == RecentEvents(all, LastPrune(ops) - EVENT_AGE)
              && |all| == |FailingRuns(Run(Unpruned(ops)).points, card)|
  {
    hide Run, FailsAgain, FailuresOf, RecentEvents, FailingRuns, Agree;
    FailuresIff(ops, card, |ops|);
    assert ops[..|ops|] == ops;
    assert FailuresKept(ops, card);
    InOrderUnpruned(ops);
    UnprunedSubset(ops);
    OneFailurePerRun(Unpruned(ops));
    var all := FailuresOf(Run(Unpruned(ops)).events, card);
    FailuresAreCounted(Run(Unpruned(ops)).events, card);
  }
  /******* Failures out of order *******/

  // As many failure events of the card as maximal runs of failed observations.
  ghost predicate CardFailuresMatch(st: State, card: GpuId) {
    FailureCount(st.events, card) == |FailingRuns(st.points, card)|
  }

  lemma StorePointCard(st: State, c: Chain, p: Point, card: GpuId)
    requires PointId(c.node, c.uuid, c.boot, p.number) !in st.points
    requires DistinctTimes(st.points[PointId(c.node, c.uuid, c.boot, p.number) := p])
    ensures card != GpuId(c.node, c.uuid) ==> (CardFailuresMatch(StorePoint(st, c, p), card) <==> CardFailuresMatch(st, card))
    ensures card == GpuId(c.node, c.uuid) && CardFailuresMatch(st, card) ==>
              (CardFailuresMatch(StorePoint(st, c, p), card) <==> FitsBefore(st.points, c, p))
  {
    hide Link, SeeGpu, DistinctTimes, Before, After, FailingRuns, Note, FailureCount;
    var id := PointId(c.node, c.uuid, c.boot, p.number);
    RecordedFailures(st, c, p, card);
    RunsCount(st.points, id, p, card);
    var after := After(st.points, c, p.at);
    if after.Some? {
      NextStartsFailing(st.points, id, p, after.value);
    }
  }

  // The points of a snapshot for the card, if it has one, leave the runs as they are.
  ghost predicate CardFits(points: map<PointId, Point>, s: Snapshot, gpus: seq<Gpu>, n: nat, card: GpuId)
    requires 0 <= s.at && n <= |gpus|
  {
    forall j :: 0 <= j < n && GpuId(s.node, gpus[j].uuid) == card ==>
      FitsBefore(points, Chain(s.node, gpus[j].uuid, s.boot), MakePoint(s, gpus[j]))
  }

  lemma NextUntouched(points: map<PointId, Point>, later: map<PointId, Point>, s: Snapshot, gpus: seq<Gpu>, n: nat)
    requires 0 <= s.at && n < |gpus| && DistinctUuids(gpus) && PointsAdded(points, later, s, gpus, n)
    ensures NextPoint(later, Chain(s.node, gpus[n].uuid, s.boot), s.at) == NextPoint(points, Chain(s.node, gpus[n].uuid, s.boot), s.at)
  {
    hide MakePoint;
    var c := Chain(s.node, gpus[n].uuid, s.boot);
    assert forall i :: i in later && ChainOf(i) == c ==> i in points;
    assert Later(later, c, s.at) == Later(points, c, s.at);
    if Later(points, c, s.at) != {} {
      AfterIs(later, c, s.at, After(points, c, s.at).value);
    }
  }

  lemma NothingFits(points: map<PointId, Point>, s: Snapshot, gpus: seq<Gpu>, card: GpuId)
    requires 0 <= s.at
    ensures CardFits(points, s, gpus, 0, card)
  {
  }

  lemma CardFitsStep(points: map<PointId, Point>, s: Snapshot, gpus: seq<Gpu>, n: nat, card: GpuId)
    requires 0 <= s.at && n < |gpus| && DistinctUuids(gpus)
    ensures if GpuId(s.node, gpus[n].uuid) == card
            then CardFits(points, s, gpus, n, card)
                 && (CardFits(points, s, gpus, n + 1, card) <==> FitsBefore(points, Chain(s.node, gpus[n].uuid, s.boot), MakePoint(s, gpus[n])))
            else CardFits(points, s, gpus, n + 1, card) <==> CardFits(points, s, gpus, n, card)
  {
    hide FitsBefore, MakePoint;
  }

  lemma {:induction false} StoreGpusCard(st: State, s: Snapshot, gpus: seq<Gpu>, n: nat, card: GpuId)
    requires 0 <= s.at && n <= |gpus| && DistinctUuids(gpus)
    requires Chained(st) && IdOf(s) in st.samples && st.samples[IdOf(s)] == s.at && NoPointYet(st.points, s, gpus, 0)
    requires CardFailuresMatch(st, card)
    ensures StoreGpus(st, s, gpus, n).Ok?
    ensures CardFailuresMatch(StoreGpus(st, s, gpus, n).value, card) <==> CardFits(st.points, s, gpus, n, card)
  {
    hide StoreGpu, MakePoint, Chained, NoPointYet, Exact, CardFailuresMatch, PointsAdded, CardFits, DistinctUuids;
    StoreGpusKeep(st, s, gpus, n);
    if n == 0 {
      NothingFits(st.points, s, gpus, card);
    } else {
      StoreGpusCard(st, s, gpus, n - 1, card);
      StoreGpusKeep(st, s, gpus, n - 1);
      StoreGpusPoints(st, s, gpus, n - 1);
      NextCard(st, StoreGpus(st, s, gpus, n - 1).value, s, gpus, n - 1, card);
    }
  }

  // The next card of a snapshot, when some cards of it are stored.
  lemma NextCard(st: State, before: State, s: Snapshot, gpus: seq<Gpu>, n: nat, card: GpuId)
    requires 0 <= s.at && n < |gpus| && DistinctUuids(gpus) && PointsAdded(st.points, before.points, s, gpus, n)
    requires StoreGpu(before, s, gpus[n]).Ok? && Chained(StoreGpu(before, s, gpus[n]).value)
    requires CardFailuresMatch(before, card) <==> CardFits(st.points, s, gpus, n, card)
    ensures CardFailuresMatch(StoreGpu(before, s, gpus[n]).value, card) <==> CardFits(st.points, s, gpus, n + 1, card)
  {
    hide StorePoint, MakePoint, Chained, CardFailuresMatch, PointsAdded, PreviousPoint, NextPoint, CardFits, DistinctUuids, DistinctTimes;
    var c, p := Chain(s.node, gpus[n].uuid, s.boot), MakePoint(s, gpus[n]);
    ChainedDistinct(StoreGpu(before, s, gpus[n]).value);
    StorePointCard(before, c, p, card);
    ChainUntouched(st.points, before.points, s, gpus, n);
    NextUntouched(st.points, before.points, s, gpus, n);
    CardFitsStep(st.points, s, gpus, n, card);
  }

  lemma InsertCard(st: State, s: Snapshot, backfill: bool, now: int, card: GpuId)
    requires Sound(st) && s.node in st.nodes && 0 <= s.at && DistinctUuids(s.gpus)
    requires IdOf(s) !in st.samples && Consistent(st.samples, s) && CardFailuresMatch(st, card)
    ensures AllGpus(st, s).Ok? && Insert(st, s, backfill, now).Ok?
    ensures var gpus := AllGpus(st, s).value;
            CardFailuresMatch(Insert(st, s, backfill, now).value, card) <==> CardFits(st.points, s, gpus, |gpus|, card)
  {
    hide StoreGpus, Finish, DistinctUuids, KnownCards, SamplesKnown, Links, Balanced, FailingRuns, FailureCount, FailuresOf, CardFits, Uuids,
         StartsOf;
    InsertKeeps(st, s, backfill, now);
    RecordChained(st, s);
    AllGpusKnown(st, s);
    var gpus, recorded := AllGpus(st, s).value, RecordSample(st, s);
    assert NoPointYet(recorded.points, s, gpus, 0);
    StoreGpusCard(recorded, s, gpus, |gpus|, card);
    var stored := StoreGpus(recorded, s, gpus, |gpus|).value;
    FinishNode(stored, s, gpus, backfill, now);
    FinishEventsOf(stored, s, gpus, backfill, now, Chain("", "", ""), card);
    FailuresAreCounted(stored.events, card);
    FailuresAreCounted(Finish(stored, s, gpus, backfill, now).events, card);
  }

  // A new snapshot has a point for the card before a failed one, and changes whether a run
  // begins there.
  ghost predicate Misfits(ops: seq<Op>, op: Op, card: GpuId) {
    && Inserts(ops, op) && CardsOf(ops, op).Ok? && 0 <= op.s.at
    && var gpus := CardsOf(ops, op).value;
       !CardFits(Run(Unpruned(ops)).points, op.s, gpus, |gpus|, card)
  }

  // The match on a hub that never prunes.
  ghost predicate RunsMatch(ops: seq<Op>, card: GpuId) {
    CardFailuresMatch(Run(Unpruned(ops)), card)
  }

  lemma RunsStep(ops: seq<Op>, op: Op, card: GpuId)
    requires Coherent(ops + [op]) && Clocked(ops + [op]) && RunsMatch(ops, card)
    ensures RunsMatch(ops + [op], card) <==> !Misfits(ops, op, card)
  {
    hide Run, CardFits, FailingRuns, FailureCount, Agree, Exact, Mirrors, Sound, ShortIntervals, Consistent, Insert, Acceptable, Step;
    RunSides(ops, op);
    var full := Run(Unpruned(ops));
    if Inserts(ops, op) {
      BothInsert(ops, op);
      AcceptedShape(op.s, op.now);
      InsertCard(full, op.s, op.backfill, op.now, card);
    } else if !op.Clean? {
      NeitherInserts(ops, op);
      NoNewPoints(ops, op);
    }
  }

  lemma NoNewPoints(ops: seq<Op>, op: Op)
    requires Coherent(ops + [op]) && Clocked(ops + [op]) && !Inserts(ops, op) && !op.Clean?
    ensures Run(Unpruned(ops + [op])).points == Run(Unpruned(ops)).points
  {
    hide Run, Exact, Mirrors, Step, Sound, Consistent, ShortIntervals, Acceptable;
    RunSides(ops, op);
    MirrorsNodes(Run(Unpruned(ops)), Run(ops), LastPrune(ops));
    IdleStep(Run(Unpruned(ops)), op);
  }

  // For any order of arrival, on a hub that never prunes: at every moment there are as many
  // failure events of a card as maximal runs of failed observations, if and only if each
  // point that ever came before a failed one left it as it was, beginning a run or not.
  // FailuresIff carries this to a hub that prunes.
  lemma {:induction false} FailureRunsIff(ops: seq<Op>, card: GpuId, n: nat)
    requires Coherent(ops) && Clocked(ops) && n <= |ops|
    ensures (forall m: nat :: m <= n ==> RunsMatch(ops[..m], card))
       <==> (forall m: nat :: m < n ==> !Misfits(ops[..m], ops[m], card))
  {
    hide RunsMatch, Misfits, Coherent, Clocked;
    if n == 0 {
      NoRunsYet(card);
      assert ops[..0] == [];
    } else {
      FailureRunsIff(ops, card, n - 1);
      PrefixOf(ops, n - 1);
      if RunsMatch(ops[..n - 1], card) {
        RunsStep(ops[..n - 1], ops[n - 1], card);
      }
    }
  }

  lemma NoRunsYet(card: GpuId)
    ensures RunsMatch([], card)
  {
    EmptyEvents();
  }
}
