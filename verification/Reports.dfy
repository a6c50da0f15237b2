/**
 What the stored points owe to the uploaded snapshots: every point was told by an upload,
 which said when, how often the agent samples, and how the card was. This module reads the
 uploads themselves, card by card, and says what a second of such a report is worth.
 */
module Reports {
  import opened Wrappers
  import opened Amounts
  import opened Model
  import opened Rollups
  import opened Tables
  import opened Ingestion
  import opened Linking
  import opened Ledger
  import opened Validation
  import opened Batch
  import opened Retention
  import FailedInventory

  /******* Every point was told by an upload *******/

  // Nothing is known of a card that a failed inventory does not list.
  predicate Blind(p: Point) {
    p.status != "ok" && !p.processValid && !p.userValid && p.users == {} && p.util == None && p.memory == None
  }

  // The point of a card is what a snapshot says.
  ghost predicate Describes(p: Point, s: Snapshot, i: PointId) {
    && IdOf(s) == SampleOf(i) && p.at == s.at && p.interval == s.interval && p.number == s.number
    && (if i.uuid in Uuids(s.gpus) then exists g :: g in s.gpus && g.uuid == i.uuid && Says(p, s, g)
        else s.gpuStatus != "ok" && Blind(p))
  }

  ghost predicate ToldBy(op: Op, p: Point, i: PointId) {
    op.Upload? && Describes(p, op.s, i)
  }

  lemma LeftIsTold(points: map<PointId, Point>, later: map<PointId, Point>, s: Snapshot, others: set<string>, i: PointId)
    requires FailedInventory.Leaves(points, later, s, others) && i in later && i !in points
    requires others != {} ==> s.gpuStatus != "ok"
    ensures Describes(later[i], s, i)
  {
    hide MakePoint, Says, Uuids;
    var u :| u in Uuids(s.gpus) + others && i == PointId(s.node, u, s.boot, s.number);
    if i.uuid in Uuids(s.gpus) {
      var g :| g in s.gpus && g.uuid == i.uuid && later[i] == MakePoint(s, g);
      MakePointSays(s, g);
      SaysWhen(later[i], s, g);
    }
  }

  lemma SaysWhen(p: Point, s: Snapshot, g: Gpu)
    requires Says(p, s, g)
    ensures p.at == s.at && p.interval == s.interval && p.number == s.number
  {
  }

  lemma {:induction false} RunTold(ops: seq<Op>)
    requires Coherent(ops) && NoCleans(ops)
    ensures forall i :: i in Run(ops).points ==> exists op :: op in ops && ToldBy(op, Run(ops).points[i], i)
  {
    hide Insert, Describes, Sound, Exact, Consistent, Agree, Acceptable, FailedInventory.Leaves, FailedInventory.Others, Uuids;
    if ops != [] {
      var before, op := ops[..|ops| - 1], ops[|ops| - 1];
      var st, after := Run(before), Run(ops);
      RunTold(before);
      RunKeeps(before);
      var inserts := op.Upload? && Acceptable(op.s, op.now) && op.s.node in st.nodes && IdOf(op.s) !in st.samples;
      if inserts {
        CoherentConsistent(ops, op, st.samples);
        AcceptedShape(op.s, op.now);
        FailedInventory.InsertLeaves(st, op.s, op.backfill, op.now);
        OthersAreFailed(st, op.s);
        LeavesKeeps(st.points, after.points, op.s, FailedInventory.Others(st, op.s));
      } else {
        assert after.points == st.points;
      }
      forall i | i in after.points
        ensures exists b :: b in ops && ToldBy(b, after.points[i], i)
      {
        if i in st.points {
          var b :| b in before && ToldBy(b, st.points[i], i);
          assert b in ops && ToldBy(b, after.points[i], i);
        } else {
          LeftIsTold(st.points, after.points, op.s, FailedInventory.Others(st, op.s), i);
          assert op in ops && ToldBy(op, after.points[i], i);
        }
      }
    }
  }

  lemma OthersAreFailed(st: State, s: Snapshot)
    requires s.node in st.nodes
    ensures FailedInventory.Others(st, s) != {} ==> s.gpuStatus != "ok"
  {
  }

  lemma LeavesKeeps(points: map<PointId, Point>, later: map<PointId, Point>, s: Snapshot, others: set<string>)
    requires FailedInventory.Leaves(points, later, s, others)
    ensures forall i :: i in points ==> i in later && later[i] == points[i]
  {
    hide MakePoint, Uuids;
  }

  /******* Sightings *******/

  // When a card was looked at, how soon the next look was due, and what was seen: None if
  // the inventory failed and did not list the card.
  datatype Sighting = Sighting(at: int, interval: int, card: Option<Gpu>)

  // An upload of the run of the agent that the point belongs to says so.
  ghost predicate SaidIn(op: Op, i: PointId, x: Sighting) {
    && op.Upload? && IdOf(op.s) == SampleOf(i) && x.at == op.s.at && x.interval == op.s.interval
    && (x.card.Some? ==> x.card.value in op.s.gpus && x.card.value.uuid == i.uuid)
    && (x.card.None? ==> op.s.gpuStatus != "ok" && i.uuid !in Uuids(op.s.gpus))
  }

  // What one second of such a look is worth: to the card, or to a user of it.
  function Worth(card: Option<Gpu>, user: string): Amounts {
    if card.None? then ZERO
    else
      var g := card.value;
      if user == "" then
        Amounts(
          OneIf(UseKnown(g) && g.processes != []),
          if g.status == "ok" && g.util.Some? then g.util.value / 100.0 else 0.0,
          OneIf(UseKnown(g)),
          OneIf(g.status == "ok" && g.util.Some?),
          if g.status == "ok" && g.memoryUsed.Some? then g.memoryUsed.value else 0.0,
          OneIf(g.status == "ok" && g.memoryUsed.Some?),
          OneIf(UseKnown(g) && forall q :: q in g.processes ==> q.uid != ""))
      else
        ZERO.(occupied := OneIf(UseKnown(g) && Runs(g, user)), occupancyValid := OneIf(UseKnown(g) && Runs(g, user)))
  }

  function OneIf(b: bool): real {
    if b then 1.0 else 0.0
  }

  predicate Runs(g: Gpu, user: string) {
    exists q :: q in g.processes && q.uid == user
  }

  // The state of a point adds to the rollups what the look is worth.
  ghost predicate WorthAs(p: Point, card: Option<Gpu>) {
    forall user, sec: real :: StateShare(p, user, sec) == Scale(sec, Worth(card, user))
  }

  lemma SaysWorth(p: Point, s: Snapshot, g: Gpu)
    requires Says(p, s, g)
    ensures WorthAs(p, Some(g))
  {
    forall user, sec: real
      ensures StateShare(p, user, sec) == Scale(sec, Worth(Some(g), user))
    {
      if user == "" {
        CardWorth(p, s, g, sec);
      } else {
        UserWorth(p, s, g, user, sec);
      }
    }
  }

  lemma TimesOne(sec: real)
    ensures Times(sec, 1.0) == sec && Times(sec, 0.0) == 0.0
    ensures forall v: real :: Times(sec, v / 100.0) == Times(sec, v) / 100.0
  {
  }

  lemma CardWorth(p: Point, s: Snapshot, g: Gpu, sec: real)
    requires Says(p, s, g)
    ensures StateShare(p, "", sec) == Scale(sec, Worth(Some(g), ""))
  {
    hide Times;
    TimesOne(sec);
    assert "" !in p.users;
    AddZero(CardShare(p, sec));
    assert CardShare(p, sec) == Scale(sec, Worth(Some(g), ""));
  }

  lemma UserWorth(p: Point, s: Snapshot, g: Gpu, user: string, sec: real)
    requires Says(p, s, g) && user != ""
    ensures StateShare(p, user, sec) == Scale(sec, Worth(Some(g), user))
  {
    hide Times, CardShare, UserShare, Scale;
    assert user in p.users <==> Runs(g, user);
    var one := ZERO.(occupied := 1.0, occupancyValid := 1.0);
    assert Worth(Some(g), user) == if p.processValid && user in p.users then one else ZERO;
    ScaleZero(sec);
    UserSecond(sec);
    AddCommutes(ZERO, UserShare(sec));
    AddZero(UserShare(sec));
    AddZero(ZERO);
  }

  lemma UserSecond(sec: real)
    ensures UserShare(sec) == Scale(sec, ZERO.(occupied := 1.0, occupancyValid := 1.0))
  {
    hide Times;
    TimesOne(sec);
  }

  lemma BlindWorth(p: Point)
    requires Blind(p)
    ensures WorthAs(p, None)
  {
    forall user, sec: real
      ensures StateShare(p, user, sec) == Scale(sec, Worth(None, user))
    {
      ScaleZero(sec);
    }
  }

  ghost predicate Sees(ops: seq<Op>, i: PointId, p: Point, x: Sighting) {
    && x.at == p.at && x.interval == p.interval && WorthAs(p, x.card)
    && exists op :: op in ops && SaidIn(op, i, x)
  }

  lemma ToldIsSeen(ops: seq<Op>, i: PointId, p: Point)
    requires exists op :: op in ops && ToldBy(op, p, i)
    ensures exists x :: Sees(ops, i, p, x)
  {
    hide Says, Blind, WorthAs, Uuids;
    var op :| op in ops && ToldBy(op, p, i);
    var s := op.s;
    var x: Sighting;
    if i.uuid in Uuids(s.gpus) {
      var g :| g in s.gpus && g.uuid == i.uuid && Says(p, s, g);
      SaysWorth(p, s, g);
      x := Sighting(s.at, s.interval, Some(g));
    } else {
      BlindWorth(p);
      x := Sighting(s.at, s.interval, None);
    }
    assert SaidIn(op, i, x);
    assert Sees(ops, i, p, x);
  }

  /******* The timeline of a card in one run of an agent *******/

  ghost function SightingOf(ops: seq<Op>, i: PointId, p: Point): (x: Sighting)
    requires exists op :: op in ops && ToldBy(op, p, i)
    ensures Sees(ops, i, p, x)
  {
    ToldIsSeen(ops, i, p);
    var x :| Sees(ops, i, p, x);
    x
  }

  ghost predicate AllTold(ops: seq<Op>, points: map<PointId, Point>) {
    forall i :: i in points ==> exists op :: op in ops && ToldBy(op, points[i], i)
  }

  ghost function LastSighting(ops: seq<Op>, points: map<PointId, Point>, ids: set<PointId>): (x: Sighting)
    requires ids != {} && ids <= points.Keys && AllTold(ops, points)
    ensures Sees(ops, Last(points, ids), points[Last(points, ids)], x)
  {
    SightingOf(ops, Last(points, ids), points[Last(points, ids)])
  }

  // The sightings behind some points, in the order of their times.
  ghost function Timeline(ops: seq<Op>, points: map<PointId, Point>, ids: set<PointId>): seq<Sighting>
    requires ids <= points.Keys && AllTold(ops, points)
  {
    if ids == {} then []
    else Timeline(ops, points, ids - {Last(points, ids)}) + [LastSighting(ops, points, ids)]
  }

  ghost predicate InTime(v: seq<Sighting>) {
    forall i, j :: 0 <= i < j < |v| ==> v[i].at < v[j].at
  }

  // Each sighting is that of the point at its place.
  ghost predicate Matches(s: seq<Point>, v: seq<Sighting>) {
    && |s| == |v|
    && forall j :: 0 <= j < |s| ==> v[j].at == s[j].at && v[j].interval == s[j].interval && WorthAs(s[j], v[j].card)
  }

  // The point behind a sighting.
  lemma {:induction false} PointOf(ops: seq<Op>, points: map<PointId, Point>, ids: set<PointId>, x: Sighting) returns (i: PointId)
    requires ids <= points.Keys && AllTold(ops, points) && x in Timeline(ops, points, ids)
    ensures i in ids && Sees(ops, i, points[i], x)
    decreases |ids|
  {
    hide Sees, AllTold;
    var last := Last(points, ids);
    if x == LastSighting(ops, points, ids) {
      i := last;
    } else {
      i := PointOf(ops, points, ids - {last}, x);
    }
  }

  // The sighting of a point.
  lemma {:induction false} PointSeen(ops: seq<Op>, points: map<PointId, Point>, ids: set<PointId>, i: PointId) returns (x: Sighting)
    requires ids <= points.Keys && AllTold(ops, points) && i in ids
    ensures x in Timeline(ops, points, ids) && Sees(ops, i, points[i], x)
    decreases |ids|
  {
    hide Sees, AllTold;
    var last := Last(points, ids);
    if i == last {
      x := LastSighting(ops, points, ids);
    } else {
      x := PointSeen(ops, points, ids - {last}, i);
    }
  }

  lemma {:induction false} TimelineInTime(ops: seq<Op>, points: map<PointId, Point>, c: Chain, ids: set<PointId>)
    requires ids <= ChainIds(points, c) && AllTold(ops, points) && DistinctOn(points, c)
    ensures InTime(Timeline(ops, points, ids))
    decreases |ids|
  {
    hide Sees, AllTold, DistinctOn;
    if ids != {} {
      var last, x := Last(points, ids), LastSighting(ops, points, ids);
      var v := Timeline(ops, points, ids - {last});
      TimelineInTime(ops, points, c, ids - {last});
      SeesWhen(ops, last, points[last], x);
      forall j | 0 <= j < |v|
        ensures v[j].at < x.at
      {
        var i := PointOf(ops, points, ids - {last}, v[j]);
        SeesWhen(ops, i, points[i], v[j]);
        StrictlyBefore(points, c, ids, i);
      }
    }
  }

  lemma StrictlyBefore(points: map<PointId, Point>, c: Chain, ids: set<PointId>, i: PointId)
    requires ids <= ChainIds(points, c) && DistinctOn(points, c) && i in ids && i != Last(points, ids)
    ensures points[i].at < points[Last(points, ids)].at
  {
    assert NotAfter(points, i, Last(points, ids));
  }

  lemma {:induction false} TimelineMatches(ops: seq<Op>, points: map<PointId, Point>, ids: set<PointId>)
    requires ids <= points.Keys && AllTold(ops, points)
    ensures Matches(Sorted(points, ids), Timeline(ops, points, ids))
    decreases |ids|
  {
    hide Sees, AllTold, WorthAs;
    if ids != {} {
      var last, x := Last(points, ids), LastSighting(ops, points, ids);
      TimelineMatches(ops, points, ids - {last});
      SeesWhen(ops, last, points[last], x);
    }
  }

  lemma SeesWhen(ops: seq<Op>, i: PointId, p: Point, x: Sighting)
    requires Sees(ops, i, p, x)
    ensures x.at == p.at && x.interval == p.interval && WorthAs(p, x.card)
  {
    hide WorthAs;
  }
}
