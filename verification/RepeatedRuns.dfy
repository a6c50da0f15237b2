/**
 Two runs of uploads in which a repeated sample time makes the rollups wrong: one counts ten
 seconds of use twice, the other loses them.
 */
module RepeatedRuns {
  import opened Wrappers
  import opened Amounts
  import opened Model
  import opened Rollups
  import opened Tables
  import opened Ingestion
  import opened Linking
  import opened Ledger
  import opened Validation
  import opened Batch
  import opened Retention
  import opened RepeatedTime
  import opened RepeatedSample
  import FailedInventory

  /******* Reports of one card *******/

  const NOW: HubTime := 100_000_000

  // The card in use, and when it could not be queried.
  const BUSY: Gpu :=
    Gpu("gpu", "card", "ok", "ok", [Process(1, "user", "user", "python", None)], None, None, None, None, None, None, map[])
  const BLIND: Gpu :=
    Gpu("gpu", "card", "query_failed", "unknown", [], None, None, None, None, None, None, map[])

  function Report(number: int, at: int, card: Gpu): Snapshot {
    Snapshot(1, "node", "boot", number, at, 10, "host", System(None, None, 0, 0, [], [], []), [card], "ok")
  }

  function Sent(s: Snapshot): Op {
    Upload(s, false, NOW)
  }

  const CHAIN := Chain("node", "gpu", "boot")

  // The hour in which all of it happens.
  const THE_HOUR := CellKey("node", "gpu", "", HOUR, 97_200_000)

  lemma ReportAcceptable(number: int, at: int, card: Gpu)
    requires 1 <= number && NOW - MAX_AGE <= at <= NOW && card in {BUSY, BLIND}
    ensures Acceptable(Report(number, at, card), NOW)
  {
    var s := Report(number, at, card);
    assert GpuOk(card);
    assert HeaderOk(s, NOW) && SystemOk(s.system);
  }

  function IdAt(number: int): PointId {
    PointId("node", "gpu", "boot", number)
  }

  // A report with a new number and a new time leaves its point.
  lemma OneMore(st: State, s: Snapshot)
    requires Sound(st) && "node" in st.nodes && s == Report(s.number, s.at, BUSY) && 1 <= s.number && NOW - MAX_AGE <= s.at <= NOW
    requires IdOf(s) !in st.samples && Consistent(st.samples, s)
    ensures var after := Step(st, Sent(s));
            && Sound(after) && "node" in after.nodes
            && after.samples == st.samples[IdOf(s) := s.at]
            && after.points == st.points[IdAt(s.number) := MakePoint(s, BUSY)]
  {
    hide Acceptable, StorePoint, MakePoint, Finish, Sound, Consistent, Uuids;
    ReportAcceptable(s.number, s.at, BUSY);
    InsertKeeps(st, s, false, NOW);
    var recorded := RecordSample(st, s);
    assert StoreGpus(recorded, s, s.gpus, 0) == Ok(recorded);
    assert StoreGpus(recorded, s, s.gpus, 1) == StoreGpu(recorded, s, BUSY);
    FinishNode(StoreGpus(recorded, s, s.gpus, 1).value, s, s.gpus, false, NOW);
  }

  // A node is registered and reports twice.
  ghost function Before2(x: Snapshot, y: Snapshot): seq<Op> {
    [AddNode("node"), Sent(x), Sent(y)]
  }

  ghost predicate InUse(s: Snapshot) {
    s == Report(s.number, s.at, BUSY) && 1 <= s.number && NOW - MAX_AGE <= s.at <= NOW
  }

  lemma AfterTwo(x: Snapshot, y: Snapshot)
    requires InUse(x) && InUse(y) && x.number != y.number && x.at != y.at
    ensures var st := Run(Before2(x, y));
            && "node" in st.nodes
            && st.samples == map[IdOf(x) := x.at, IdOf(y) := y.at]
            && st.points == map[IdAt(x.number) := MakePoint(x, BUSY), IdAt(y.number) := MakePoint(y, BUSY)]
  {
    hide Step, Sound, MakePoint;
    var add := AddNode("node");
    assert [add][..0] == [] && [add, Sent(x)][..1] == [add] && Before2(x, y)[..2] == [add, Sent(x)];
    var st := Step(Empty(), add);
    assert Run([add]) == st;
    assert Run([add, Sent(x)]) == Step(st, Sent(x));
    NewNode();
    FailedInventory.FreshSound("node");
    OneMore(st, x);
    OneMore(Step(st, Sent(x)), y);
  }

  lemma NewNode()
    ensures var st := Step(Empty(), AddNode("node"));
            "node" in st.nodes && st.samples == map[] && st.points == map[]
  {
  }

  // A third report repeats the time of one of the two.
  lemma ThirdComes(x: Snapshot, y: Snapshot, z: Snapshot, t: Snapshot, card: Gpu)
    requires InUse(x) && InUse(y) && x.number != y.number && x.at != y.at && (t == x || t == y)
    requires z == Report(z.number, z.at, card) && card in {BUSY, BLIND} && 1 <= z.number
    requires z.at == t.at && z.number != x.number && z.number != y.number
    ensures Comes(Before2(x, y), Sent(z), IdOf(t))
    ensures CardsIn(Run(Before2(x, y)), z) == Ok(z.gpus)
    ensures Unpruned(Before2(x, y) + [Sent(z)]) == Before2(x, y) + [Sent(z)]
    ensures LastPrune(Before2(x, y)) == 0
  {
    hide Run, Acceptable;
    var ops := Before2(x, y);
    AfterTwo(x, y);
    ReportAcceptable(z.number, z.at, card);
    RunShape(x, y, z);
  }

  lemma RunShape(x: Snapshot, y: Snapshot, z: Snapshot)
    ensures var ops := Before2(x, y);
            && Unpruned(ops) == ops && Unpruned(ops + [Sent(z)]) == ops + [Sent(z)]
            && LastPrune(ops) == 0 && Clocked(ops + [Sent(z)])
    ensures (x.number == y.number <==> x.at == y.at) ==> Coherent(Before2(x, y))
  {
    var one, two, ops := [AddNode("node")], [AddNode("node"), Sent(x)], Before2(x, y);
    assert one[..0] == [] && two[..1] == one && ops[..2] == two && (ops + [Sent(z)])[..3] == ops;
    assert Unpruned(one) == one && Unpruned(two) == two && Unpruned(ops) == ops;
    assert LastPrune(one) == 0 && LastPrune(two) == 0;
    assert Clocked(one) && Clock(one) == 0 && Clocked(two) && Clocked(ops);
  }

  /******* Ten seconds twice *******/

  lemma Use(number: int, at: int)
    requires 0 <= at
    ensures var p := MakePoint(Report(number, at, BUSY), BUSY);
            p.occupied && p.processValid && p.userValid && p.users == {"user"} && p.at == at && p.interval == 10 && p.number == number
  {
    var s, q := Report(number, at, BUSY), BUSY.processes[0];
    assert q.uid == "user" && BUSY.processes == [q];
    forall u
      ensures u in MakePoint(s, BUSY).users <==> u == "user"
    {
    }
  }

  // What ten seconds from the state of a point add to the hour.
  lemma TenSeconds(a: Point, b: Point)
    requires a.interval == 10 && b.at == a.at + 10_000 && 97_200_000 <= a.at && b.at <= 97_200_000 + HOUR && "" !in a.users
    ensures Cell(CHAIN, a, b, THE_HOUR).occupied == if a.processValid && a.occupied then 10.0 else 0.0
  {
    hide Times;
    assert Overlap(a.at, b.at, 97_200_000, 97_200_000 + HOUR) == 10_000;
    assert Seconds(10_000) == 10.0;
    assert Aligned(97_200_000, HOUR);
    assert Cell(CHAIN, a, b, THE_HOUR) == StateShare(a, "", 10.0);
  }

  const EARLIER: int := 99_980_000
  const LATER: int := 99_990_000

  // Two reports ten seconds apart, and another one at the time of the second.
  ghost function TwiceRun(): seq<Op> {
    Before2(Report(1, EARLIER, BUSY), Report(2, LATER, BUSY)) + [Sent(Report(3, LATER, BUSY))]
  }

  lemma NeighboursOfTwo(x: Snapshot, y: Snapshot)
    requires InUse(x) && InUse(y) && x.number != y.number && x.at < y.at
    ensures var points := Run(Before2(x, y)).points;
            && PreviousPoint(points, CHAIN, y.at) == Some(MakePoint(x, BUSY)) && NextPoint(points, CHAIN, y.at) == None
            && PreviousPoint(points, CHAIN, x.at) == None && NextPoint(points, CHAIN, x.at) == Some(MakePoint(y, BUSY))
  {
    hide Run, MakePoint;
    AfterTwo(x, y);
    var points, i, j := Run(Before2(x, y)).points, IdAt(x.number), IdAt(y.number);
    assert points[i].at == x.at && points[j].at == y.at;
    assert Earlier(points, CHAIN, y.at) == {i} && Later(points, CHAIN, x.at) == {j};
    assert Earlier(points, CHAIN, x.at) == {} && Later(points, CHAIN, y.at) == {};
    BeforeIs(points, CHAIN, y.at, i);
    AfterIs(points, CHAIN, x.at, j);
  }

  lemma SurplusOf(x: Snapshot, y: Snapshot, z: Snapshot, t: Snapshot, card: Gpu)
    requires InUse(x) && InUse(y) && x.number != y.number && x.at != y.at && (t == x || t == y)
    requires z == Report(z.number, z.at, card) && card in {BUSY, BLIND} && 1 <= z.number
    requires z.at == t.at && z.number != x.number && z.number != y.number
    ensures 0 <= z.at
    ensures var points, p := Run(Before2(x, y)).points, MakePoint(z, card);
            SampleSurplus(Run(Before2(x, y)), z, IdOf(t), z.gpus, THE_HOUR)
            == Difference(CHAIN, PreviousPoint(points, CHAIN, z.at), p, MakePoint(t, BUSY), NextPoint(points, CHAIN, z.at), THE_HOUR)
  {
    hide Run, MakePoint, Difference, PreviousPoint, NextPoint;
    AfterTwo(x, y);
    assert card.uuid == "gpu" && z.gpus == [card];
    assert Listed(z, z.gpus, 1, GpuId("node", "gpu")) == Some(card);
    assert TwinOf(z, IdOf(t), "gpu") == IdAt(t.number);
  }

  // The second report of the same time counts the ten seconds before it once more.
  lemma {:induction false} ARepeatCountsTwice()
    ensures Read(Run(TwiceRun()).rollups, THE_HOUR).occupied
         == BatchTotal(Run(TwiceRun()).points, THE_HOUR).occupied + 10.0
  {
    hide Run, BatchTotal, MakePoint, Cell, Comes, PreviousPoint, NextPoint, CardsIn, SampleSurplus, Expired, Unpruned, LastPrune;
    var x, y, z := Report(1, EARLIER, BUSY), Report(2, LATER, BUSY), Report(3, LATER, BUSY);
    ThirdComes(x, y, z, y, BUSY);
    NotExpired();
    RepeatedSampleExceeds(Before2(x, y), Sent(z), IdOf(y), THE_HOUR);
    SurplusOf(x, y, z, y, BUSY);
    NeighboursOfTwo(x, y);
    Use(1, EARLIER);
    Use(3, LATER);
    TenSeconds(MakePoint(x, BUSY), MakePoint(z, BUSY));
  }

  lemma NotExpired()
    ensures !Expired(THE_HOUR, 0)
  {
  }

  /******* Ten seconds lost *******/

  // Two reports ten seconds apart, and then, late, one with an earlier number at the time of
  // the first, which could not query the card.
  ghost function LossRun(): seq<Op> {
    Before2(Report(2, EARLIER, BUSY), Report(3, LATER, BUSY)) + [Sent(Report(1, EARLIER, BLIND))]
  }

  // The late report takes the ten seconds after it away from its twin.
  lemma {:induction false} ALateTwinLoses()
    ensures Read(Run(LossRun()).rollups, THE_HOUR).occupied
         == BatchTotal(Run(LossRun()).points, THE_HOUR).occupied - 10.0
  {
    hide Run, BatchTotal, MakePoint, Cell, Comes, PreviousPoint, NextPoint, CardsIn, SampleSurplus, Expired, Unpruned, LastPrune;
    var x, y, z := Report(2, EARLIER, BUSY), Report(3, LATER, BUSY), Report(1, EARLIER, BLIND);
    ThirdComes(x, y, z, x, BLIND);
    NotExpired();
    RepeatedSampleExceeds(Before2(x, y), Sent(z), IdOf(x), THE_HOUR);
    SurplusOf(x, y, z, x, BLIND);
    NeighboursOfTwo(x, y);
    Use(2, EARLIER);
    Use(3, LATER);
    NoUsers(1, EARLIER);
    TenSeconds(MakePoint(x, BUSY), MakePoint(y, BUSY));
    TenSeconds(MakePoint(z, BLIND), MakePoint(y, BUSY));
  }

  lemma NoUsers(number: int, at: int)
    requires 0 <= at
    ensures var p := MakePoint(Report(number, at, BLIND), BLIND);
            !p.processValid && p.users == {} && p.at == at && p.interval == 10 && p.number == number
  {
  }
}
