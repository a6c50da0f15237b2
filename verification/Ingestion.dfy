/**
 What one accepted snapshot does to the tables (internal/hub/ingest.go), as a function
 of the tables: the specification that the method Hub.Ingest is proved against.
 */
module Ingestion {
  import opened Wrappers
  import opened Amounts
  import opened Model
  import opened Rollups
  import opened Tables
  import Validation

  // Why a snapshot is turned away. Nothing is written in any of these cases.
  datatype Refusal = Rejected | UnknownNode | FirstSeenMissing | PointExists

  function MakePoint(s: Snapshot, g: Gpu): (p: Point)
    requires 0 <= s.at
    ensures p.at == s.at && p.number == s.number && p.interval == s.interval && p.status == g.status
  {
    var valid := g.status == "ok" && g.processStatus == "ok";
    Point(
      s.at, s.interval, s.number, g.status,
      |g.processes| > 0,
      valid,
      valid && forall p :: p in g.processes ==> p.uid != "",
      set i | 0 <= i < |g.processes| && g.processes[i].uid != "" :: g.processes[i].uid,
      if g.status == "ok" then g.util else None,
      if g.status == "ok" then g.memoryUsed else None)
  }

  /******* Known cards in a failed inventory *******/

  function QueryFailed(g: Gpu, gpuStatus: string): Gpu {
    g.(status := "query_failed", processStatus := "unknown", processes := [],
       util := None, memoryUsed := None, memoryTotal := None, temperature := None, power := None, ecc := None,
       fields := map["inventory" := gpuStatus])
  }

  // The first n cards of the live snapshot, added as invalid observations unless the
  // failed inventory lists them or they were first seen later than this sample.
  ghost function Inherit(gpus: map<GpuId, Seen>, known: seq<Gpu>, s: Snapshot, n: nat): Result<seq<Gpu>, Refusal>
    requires n <= |known|
  {
    if n == 0 then Ok(s.gpus)
    else
      var before :- Inherit(gpus, known, s, n - 1);
      var g := known[n - 1];
      var id := GpuId(s.node, g.uuid);
      if g.uuid in Uuids(s.gpus) then Ok(before)
      else if id !in gpus then Err(FirstSeenMissing)
      else if gpus[id].first > s.at then Ok(before)
      else Ok(before + [QueryFailed(g, s.gpuStatus)])
  }

  /******* One card of a snapshot *******/

  function EarlierStart(e: Event, c: Chain, at: int): Event {
    if e.Started? && Chain(e.node, e.uuid, e.boot) == c then Started(e.node, e.uuid, e.boot, Min(e.at, at)) else e
  }

  function RecordStart(events: seq<Event>, c: Chain, at: int, hasBefore: bool, hasAfter: bool): seq<Event> {
    if !hasBefore && !hasAfter then events + [Started(c.node, c.uuid, c.boot, at)]
    else if !hasBefore then seq(|events|, i requires 0 <= i < |events| => EarlierStart(events[i], c, at))
    else events
  }

  // Only the first of consecutive failures is recorded.
  function RecordFailure(events: seq<Event>, c: Chain, p: Point, before: Option<Point>): seq<Event> {
    if p.status != "ok" && (before.None? || before.value.status == "ok")
    then events + [Failed(c.node, c.uuid, p.at, p.status)]
    else events
  }

  function SeeGpu(gpus: map<GpuId, Seen>, id: GpuId, at: int): map<GpuId, Seen> {
    gpus[id := if id in gpus then Seen(Min(gpus[id].first, at), Max(gpus[id].last, at)) else Seen(at, at)]
  }

  ghost function PointAt(points: map<PointId, Point>, i: Option<PointId>): Option<Point>
    requires i.Some? ==> i.value in points
  {
    if i.Some? then Some(points[i.value]) else None
  }

  ghost function PreviousPoint(points: map<PointId, Point>, c: Chain, at: int): Option<Point> {
    PointAt(points, Before(points, c, at))
  }

  ghost function NextPoint(points: map<PointId, Point>, c: Chain, at: int): Option<Point> {
    PointAt(points, After(points, c, at))
  }

  // The point is stored and the edges on both of its sides are corrected.
  ghost function Link(st: State, c: Chain, p: Point): (r: State)
    ensures r.samples == st.samples && r.events == st.events && r.gpus == st.gpus && r.nodes == st.nodes
    ensures r.points == st.points[PointId(c.node, c.uuid, c.boot, p.number) := p]
  {
    var before, after := PreviousPoint(st.points, c, p.at), NextPoint(st.points, c, p.at);
    var stored := st.(points := st.points[PointId(c.node, c.uuid, c.boot, p.number) := p]);
    var left := if before.Some? then Relink(stored, c, before.value, p) else stored;
    if after.Some? then Relink(left, c, p, after.value) else left
  }

  ghost function Note(st: State, c: Chain, p: Point): seq<Event> {
    var before, after := PreviousPoint(st.points, c, p.at), NextPoint(st.points, c, p.at);
    RecordFailure(RecordStart(st.events, c, p.at, before.Some?, after.Some?), c, p, before)
  }

  ghost function StorePoint(st: State, c: Chain, p: Point): (r: State)
    ensures r.points == st.points[PointId(c.node, c.uuid, c.boot, p.number) := p]
    ensures r.samples == st.samples && r.nodes == st.nodes
  {
    Link(st, c, p).(events := Note(st, c, p), gpus := SeeGpu(st.gpus, GpuId(c.node, c.uuid), p.at))
  }

  ghost function StoreGpu(st: State, s: Snapshot, g: Gpu): Result<State, Refusal>
    requires 0 <= s.at
  {
    if PointId(s.node, g.uuid, s.boot, s.number) in st.points then Err(PointExists)
    else Ok(StorePoint(st, Chain(s.node, g.uuid, s.boot), MakePoint(s, g)))
  }

  ghost function StoreGpus(st: State, s: Snapshot, gpus: seq<Gpu>, n: nat): (r: Result<State, Refusal>)
    requires 0 <= s.at && n <= |gpus|
    ensures r.Ok? ==> r.value.samples == st.samples && r.value.nodes == st.nodes
  {
    if n == 0 then Ok(st)
    else
      var before :- StoreGpus(st, s, gpus, n - 1);
      StoreGpu(before, s, gpus[n - 1])
  }

  /******* The live snapshot of the node *******/

  function NotDetected(g: Gpu): Gpu {
    g.(status := "not_detected", processStatus := "unknown", processes := [])
  }

  // The first n known cards that a complete inventory does not list.
  function Lost(known: seq<Gpu>, present: set<string>, n: nat): seq<Gpu>
    requires n <= |known|
  {
    if n == 0 then []
    else if known[n - 1].uuid in present then Lost(known, present, n - 1)
    else Lost(known, present, n - 1) + [NotDetected(known[n - 1])]
  }

  function LostEvents(node: string, at: int, known: seq<Gpu>, present: set<string>, n: nat): seq<Event>
    requires n <= |known|
  {
    if n == 0 then []
    else if known[n - 1].uuid in present || known[n - 1].status == "not_detected" then
      LostEvents(node, at, known, present, n - 1)
    else LostEvents(node, at, known, present, n - 1) + [Missing(node, known[n - 1].uuid, at)]
  }

  ghost function NewLive(s: Snapshot, gpus: seq<Gpu>, known: Live): (live: Live)
    ensures live.sampleAt == s.at
  {
    known.(gpus := gpus + (if s.gpuStatus == "ok" then Lost(known.gpus, Uuids(gpus), |known.gpus|) else []), sampleAt := s.at)
  }

  ghost function NewlyMissing(s: Snapshot, gpus: seq<Gpu>, known: Live): seq<Event> {
    if s.gpuStatus == "ok" then LostEvents(s.node, s.at, known.gpus, Uuids(gpus), |known.gpus|) else []
  }

  // The tables with the row of the node rewritten if the sample is newer than the live one.
  ghost function UpdateLive(st: State, s: Snapshot, gpus: seq<Gpu>): (r: State)
    requires s.node in st.nodes
    ensures r == st.(nodes := r.nodes, events := r.events)
    ensures r.nodes == st.nodes[s.node := if s.at > st.nodes[s.node].sampleAt then NewLive(s, gpus, st.nodes[s.node]) else st.nodes[s.node]]
  {
    var known := st.nodes[s.node];
    if s.at > known.sampleAt
    then st.(nodes := st.nodes[s.node := NewLive(s, gpus, known)], events := st.events + NewlyMissing(s, gpus, known))
    else st
  }

  // Only a fresh report marks the node as online; a backfilled one does not.
  ghost function Receive(st: State, s: Snapshot, backfill: bool, lastAt: int, now: int): (r: State)
    requires s.node in st.nodes
    ensures r == st.(nodes := r.nodes) && r.nodes.Keys == st.nodes.Keys
    ensures r.nodes == st.nodes[s.node := st.nodes[s.node].(receivedAt := r.nodes[s.node].receivedAt)]
  {
    if !backfill && s.at >= lastAt && now - s.at <= s.interval * 2000
    then st.(nodes := st.nodes[s.node := st.nodes[s.node].(receivedAt := now)])
    else st
  }

  /******* One snapshot *******/

  ghost function AllGpus(st: State, s: Snapshot): Result<seq<Gpu>, Refusal>
    requires s.node in st.nodes
  {
    if s.gpuStatus == "ok" then Ok(s.gpus)
    else Inherit(st.gpus, st.nodes[s.node].gpus, s, |st.nodes[s.node].gpus|)
  }

  ghost function RecordSample(st: State, s: Snapshot): State {
    st.(samples := st.samples[IdOf(s) := s.at])
  }

  ghost function Finish(stored: State, s: Snapshot, gpus: seq<Gpu>, backfill: bool, now: int): State
    requires s.node in stored.nodes
  {
    Receive(UpdateLive(stored, s, gpus), s, backfill, stored.nodes[s.node].sampleAt, now)
  }

  // The tables after a snapshot whose identity is new.
  ghost function Insert(st: State, s: Snapshot, backfill: bool, now: int): Result<State, Refusal>
    requires 0 <= s.at && s.node in st.nodes
  {
    var gpus :- AllGpus(st, s);
    var stored :- StoreGpus(RecordSample(st, s), s, gpus, |gpus|);
    Ok(Finish(stored, s, gpus, backfill, now))
  }

  ghost function Ingest(st: State, s: Snapshot, backfill: bool, now: Validation.HubTime): Result<State, Refusal> {
    if !Validation.Acceptable(s, now) then Err(Rejected)
    else if IdOf(s) in st.samples then Ok(st)
    else if s.node !in st.nodes then Err(UnknownNode)
    else Insert(st, s, backfill, now)
  }
}
