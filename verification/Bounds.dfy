/**
 What the numbers in the rollups mean. Despite the signed updates and whatever was pruned,
 in every reachable state: the hour rows are the sums of their minute rows while those are
 kept, no run of an agent is counted for more than the length of a bucket, the columns of a
 row are ordered as their names say, and the users of a card account for all of its
 attributed use.
 */
module Bounds {
  import opened Wrappers
  import opened Amounts
  import opened Model
  import opened Rollups
  import opened Tables
  import opened Ingestion
  import opened Linking
  import opened Ledger
  import opened Validation
  import opened Batch
  import opened Retention

  /******* The points that ingest stores *******/

  ghost predicate PointOk(p: Point) {
    && 2 <= p.interval <= 60
    && "" !in p.users
    && (p.users != {} ==> p.occupied)
    && (p.userValid ==> p.processValid)
    && (p.userValid && p.occupied ==> p.users != {})
    && Within(p.util, 100.0)
    && (p.memory.Some? ==> 0.0 <= p.memory.value)
  }

  ghost predicate PointsOk(points: map<PointId, Point>) {
    forall i :: i in points ==> PointOk(points[i])
  }

  lemma MakePointOk(s: Snapshot, g: Gpu)
    requires 0 <= s.at && 2 <= s.interval <= 60 && MetricsOk(g)
    ensures PointOk(MakePoint(s, g))
  {
    var p := MakePoint(s, g);
    if p.userValid && p.occupied {
      assert g.processes[0] in g.processes;
      assert g.processes[0].uid in p.users;
    }
  }

  lemma {:induction false} InheritMetrics(gpus: map<GpuId, Seen>, known: seq<Gpu>, s: Snapshot, n: nat)
    requires n <= |known| && Inherit(gpus, known, s, n).Ok? && forall g :: g in s.gpus ==> MetricsOk(g)
    ensures forall g :: g in Inherit(gpus, known, s, n).value ==> MetricsOk(g)
  {
    if n != 0 {
      InheritMetrics(gpus, known, s, n - 1);
    }
  }

  lemma UploadPointsOk(st: State, op: Op)
    requires op.Upload? && PointsOk(st.points)
    ensures PointsOk(Step(st, op).points)
  {
    hide PointOk, Link, Note, MakePoint, StoreGpus, Finish, Inherit, MetricsOk;
    var s := op.s;
    if Acceptable(s, op.now) && IdOf(s) !in st.samples && s.node in st.nodes && Insert(st, s, op.backfill, op.now).Ok? {
      var gpus, recorded := AllGpus(st, s).value, RecordSample(st, s);
      var stored := StoreGpus(recorded, s, gpus, |gpus|).value;
      forall g | g in gpus ensures MetricsOk(g) {
        if s.gpuStatus != "ok" {
          InheritMetrics(st.gpus, st.nodes[s.node].gpus, s, |st.nodes[s.node].gpus|);
        }
      }
      StoreGpusPoints(recorded, s, gpus, |gpus|);
      forall j | 0 <= j < |gpus| ensures PointOk(MakePoint(s, gpus[j])) {
        MakePointOk(s, gpus[j]);
      }
      FinishNode(stored, s, gpus, op.backfill, op.now);
    }
  }

  lemma {:induction false} RunPointsOk(ops: seq<Op>)
    ensures PointsOk(Run(ops).points)
  {
    hide PointOk, Ingest;
    if ops != [] {
      var before, op := Run(ops[..|ops| - 1]), ops[|ops| - 1];
      RunPointsOk(ops[..|ops| - 1]);
      if op.Upload? {
        UploadPointsOk(before, op);
      }
    }
  }

  /******* One edge *******/

  lemma OverlapSplit(lo: int, hi: int, from: int, mid: int, to: int)
    requires from <= mid <= to
    ensures Overlap(lo, hi, from, to) == Overlap(lo, hi, from, mid) + Overlap(lo, hi, mid, to)
  {
  }

  lemma OverlapJoin(lo: int, mid: int, hi: int, from: int, to: int)
    requires lo <= mid <= hi
    ensures Overlap(lo, hi, from, to) == Overlap(lo, mid, from, to) + Overlap(mid, hi, from, to)
  {
  }

  lemma WindowSplit(a: Point, b: Point, user: string, from: int, mid: int, to: int)
    requires from <= mid <= to
    ensures Window(a, b, user, from, to) == Add(Window(a, b, user, from, mid), Window(a, b, user, mid, to))
  {
    hide StateShare, Overlap, Add;
    if Joinable(a, b) {
      OverlapSplit(a.at, b.at, from, mid, to);
      SecondsAdd(Overlap(a.at, b.at, from, mid), Overlap(a.at, b.at, mid, to));
      StateShareAdd(a, user, Seconds(Overlap(a.at, b.at, from, mid)), Seconds(Overlap(a.at, b.at, mid, to)));
    } else {
      AddZero(ZERO);
    }
  }

  /******* Two granularities agree *******/

  function MinuteKey(k: CellKey, i: int): CellKey {
    k.(res := MINUTE, bucket := k.bucket + i * 60_000)
  }

  ghost function SumOfMinutes(t: Totals, k: CellKey, n: nat): Amounts {
    if n == 0 then ZERO else Add(SumOfMinutes(t, k, n - 1), Read(t, MinuteKey(k, n - 1)))
  }

  ghost function WindowIn(i: PointId, e: Edge, k: CellKey, from: int, to: int): Amounts {
    if i.node == k.node && i.uuid == k.uuid then Window(e.left, e.right, k.user, from, to) else ZERO
  }

  ghost function WindowCells(edges: map<PointId, Edge>, k: CellKey, from: int, to: int): map<PointId, Amounts> {
    map i | i in edges :: WindowIn(i, edges[i], k, from, to)
  }

  ghost function WindowTotal(edges: map<PointId, Edge>, k: CellKey, from: int, to: int): Amounts {
    Sum(WindowCells(edges, k, from, to))
  }

  // The stored contributions of an edge are those of its two points.
  ghost predicate Genuine(edges: map<PointId, Edge>) {
    forall i :: i in edges ==> edges[i].data == EdgeCells(i.node, i.uuid, edges[i].left, edges[i].right)
  }

  lemma LinksGenuine(points: map<PointId, Point>)
    ensures Genuine(Links(points))
  {
    hide EdgeCells;
  }

  lemma CellIsWindow(i: PointId, e: Edge, k: CellKey)
    requires e.data == EdgeCells(i.node, i.uuid, e.left, e.right) && IsBucket(k.res, k.bucket)
    ensures Read(e.data, k) == WindowIn(i, e, k, k.bucket, k.bucket + k.res)
  {
    hide Window, Aligned;
    assert e.data[k] == EdgeCell(i.node, i.uuid, e.left, e.right, k);
  }

  lemma TotalIsWindow(edges: map<PointId, Edge>, k: CellKey)
    requires Genuine(edges) && IsBucket(k.res, k.bucket)
    ensures Total(edges, k) == WindowTotal(edges, k, k.bucket, k.bucket + k.res)
  {
    hide WindowIn, Read, EdgeCells, SumOver;
    forall i | i in edges
      ensures Read(edges[i].data, k) == WindowIn(i, edges[i], k, k.bucket, k.bucket + k.res)
    {
      CellIsWindow(i, edges[i], k);
    }
    assert CellsOfEdges(edges, k) == WindowCells(edges, k, k.bucket, k.bucket + k.res);
  }

  lemma WindowTotalSplit(edges: map<PointId, Edge>, k: CellKey, from: int, mid: int, to: int)
    requires from <= mid <= to
    ensures WindowTotal(edges, k, from, to) == Add(WindowTotal(edges, k, from, mid), WindowTotal(edges, k, mid, to))
  {
    hide Window, Add, SumOver;
    var a, b, c := WindowCells(edges, k, from, mid), WindowCells(edges, k, mid, to), WindowCells(edges, k, from, to);
    forall i | i in edges
      ensures c[i] == Add(a[i], b[i])
    {
      WindowSplit(edges[i].left, edges[i].right, k.user, from, mid, to);
      AddZero(ZERO);
    }
    assert a.Keys == edges.Keys && b.Keys == edges.Keys && c.Keys == edges.Keys;
    SumPlus(a, b, c, edges.Keys);
  }

  lemma MinuteAligned(bucket: int, i: int)
    requires Aligned(bucket, HOUR)
    ensures Aligned(bucket + i * 60_000, MINUTE)
  {
    assert bucket % 60_000 == 0;
  }

  lemma {:induction false} MinutesAddUp(st: State, k: CellKey, n: nat)
    requires Balanced(st) && Genuine(st.edges) && k.res == HOUR && Aligned(k.bucket, HOUR)
    ensures SumOfMinutes(st.rollups, k, n) == WindowTotal(st.edges, k, k.bucket, k.bucket + n * 60_000)
  {
    hide Total, WindowTotal, Add, Genuine, Aligned;
    if n == 0 {
      EmptyWindow(st.edges, k, k.bucket);
    } else {
      MinutesAddUp(st, k, n - 1);
      var m := MinuteKey(k, n - 1);
      MinuteAligned(k.bucket, n - 1);
      TotalIsWindow(st.edges, m);
      SameWindow(st.edges, m, k, m.bucket, m.bucket + MINUTE);
      WindowTotalSplit(st.edges, k, k.bucket, m.bucket, k.bucket + n * 60_000);
    }
  }

  lemma SameWindow(edges: map<PointId, Edge>, k: CellKey, l: CellKey, from: int, to: int)
    requires k.node == l.node && k.uuid == l.uuid && k.user == l.user
    ensures WindowTotal(edges, k, from, to) == WindowTotal(edges, l, from, to)
  {
    hide Window, SumOver;
    assert WindowCells(edges, k, from, to) == WindowCells(edges, l, from, to);
  }

  lemma EmptyWindow(edges: map<PointId, Edge>, k: CellKey, at: int)
    ensures WindowTotal(edges, k, at, at) == ZERO
  {
    hide StateShare, SumOver;
    forall i | i in edges
      ensures WindowIn(i, edges[i], k, at, at) == ZERO
    {
      StateShareZero(edges[i].left, k.user);
      assert Overlap(edges[i].left.at, edges[i].right.at, at, at) == 0;
      assert Seconds(0) == 0.0;
    }
    assert WindowCells(edges, k, at, at).Keys == edges.Keys;
    SumZero(WindowCells(edges, k, at, at), edges.Keys);
  }

  // The same on two hubs, minute by minute.
  lemma {:induction false} SameMinutes(t: Totals, u: Totals, k: CellKey, n: nat)
    requires forall i: nat :: i < n ==> Read(t, MinuteKey(k, i)) == Read(u, MinuteKey(k, i))
    ensures SumOfMinutes(t, k, n) == SumOfMinutes(u, k, n)
  {
    hide Read, Add;
    if n != 0 {
      SameMinutes(t, u, k, n - 1);
    }
  }

  // Each hour row is the sum of its sixty minute rows, in every column, for the card and
  // for every user, as long as no prune has reached its minutes.
  lemma {:induction false} HourIsSumOfMinutes(ops: seq<Op>, k: CellKey)
    requires Coherent(ops) && Clocked(ops) && k.res == HOUR && Aligned(k.bucket, HOUR)
    requires k.bucket >= LastPrune(ops) - MINUTE_AGE
    ensures Read(Run(ops).rollups, k) == SumOfMinutes(Run(ops).rollups, k, 60)
  {
    hide Run, SumOfMinutes, Aligned, Read, Batch.BatchTotal, Agree;
    var full := Unpruned(ops);
    UnprunedSubset(ops);
    HourUnpruned(full, k);
    PruningIsInvisible(ops, k);
    forall i: nat | i < 60
      ensures Read(Run(ops).rollups, MinuteKey(k, i)) == Read(Run(full).rollups, MinuteKey(k, i))
    {
      PruningIsInvisible(ops, MinuteKey(k, i));
    }
    SameMinutes(Run(ops).rollups, Run(full).rollups, k, 60);
  }

  lemma {:induction false} HourUnpruned(ops: seq<Op>, k: CellKey)
    requires Coherent(ops) && NoCleans(ops) && k.res == HOUR && Aligned(k.bucket, HOUR)
    ensures Read(Run(ops).rollups, k) == SumOfMinutes(Run(ops).rollups, k, 60)
  {
    hide Run, Total, WindowTotal, Links, Agree, SumOfMinutes, Aligned, Genuine;
    RunKeeps(ops);
    var st := Run(ops);
    LinksGenuine(st.points);
    MinutesAddUp(st, k, 60);
    TotalIsWindow(st.edges, k);
  }

  /******* No over-count *******/

  // The columns of a row stand in the order that their names promise.
  ghost predicate InOrder(a: Amounts) {
    && 0.0 <= a.occupied <= a.occupancyValid
    && 0.0 <= a.attributionValid <= a.occupancyValid
    && 0.0 <= a.weighted <= a.utilValid
    && 0.0 <= a.memorySum
    && 0.0 <= a.memoryValid
  }

  // No kind of valid time exceeds sec.
  ghost predicate AtMost(a: Amounts, sec: real) {
    a.occupancyValid <= sec && a.utilValid <= sec && a.memoryValid <= sec && a.attributionValid <= sec
  }

  lemma CardInOrder(a: Point, sec: real)
    requires PointOk(a) && 0.0 <= sec
    ensures InOrder(CardShare(a, sec)) && AtMost(CardShare(a, sec), sec)
  {
    hide Times;
    if a.util.Some? {
      Product(sec, a.util.value, 100.0);
      assert Times(sec, 100.0) == sec * 100.0 by {
        TimesIs(sec, 100.0);
      }
    }
    if a.memory.Some? {
      Product(sec, a.memory.value, a.memory.value);
    }
  }

  lemma TimesIs(sec: real, rate: real)
    ensures Times(sec, rate) == sec * rate
  {
  }

  lemma CardState(a: Point, sec: real)
    requires "" !in a.users
    ensures StateShare(a, "", sec) == CardShare(a, sec)
  {
    hide CardShare;
    AddZero(CardShare(a, sec));
  }

  lemma UserState(a: Point, user: string, sec: real)
    requires user != ""
    ensures StateShare(a, user, sec) == if a.processValid && user in a.users then UserShare(sec) else ZERO
  {
    hide CardShare;
  }

  lemma ShareInOrder(a: Point, user: string, sec: real)
    requires PointOk(a) && 0.0 <= sec
    ensures InOrder(StateShare(a, user, sec)) && AtMost(StateShare(a, user, sec), sec)
  {
    hide CardShare, StateShare;
    CardInOrder(a, sec);
    if user == "" {
      CardState(a, sec);
    } else {
      UserState(a, user, sec);
    }
  }

  lemma Product(sec: real, rate: real, max: real)
    requires 0.0 <= sec && 0.0 <= rate <= max
    ensures 0.0 <= Times(sec, rate) <= Times(sec, max)
  {
  }

  lemma EdgeInOrder(node: string, uuid: string, a: Point, b: Point, k: CellKey)
    requires PointOk(a)
    ensures InOrder(EdgeCell(node, uuid, a, b, k))
    ensures AtMost(EdgeCell(node, uuid, a, b, k), Seconds(Overlap(a.at, b.at, k.bucket, k.bucket + k.res)))
  {
    hide StateShare, Overlap, PointOk, Aligned;
    ShareInOrder(a, k.user, Seconds(Overlap(a.at, b.at, k.bucket, k.bucket + k.res)));
  }

  lemma {:induction false} SumInOrder<K>(m: map<K, Amounts>, keys: set<K>)
    requires keys <= m.Keys && forall i :: i in keys ==> InOrder(m[i])
    ensures InOrder(SumOver(m, keys))
  {
    if keys != {} {
      var i :| i in keys;
      SumPick(m, keys, i);
      SumInOrder(m, keys - {i});
    }
  }

  lemma LeftOk(points: map<PointId, Point>, k: CellKey, i: PointId)
    requires PointsOk(points) && i in Links(points)
    ensures InOrder(CellsOfEdges(Links(points), k)[i])
  {
    hide EdgeCell, PointOk, InOrder, AtMost;
    EdgeInOrder(i.node, i.uuid, points[BeforeOf(points, i).value], points[i], k);
    LastCell(points, i, k);
  }

  // Every row of the rollups has its columns in order, whatever was withdrawn, added or
  // pruned.
  lemma {:induction false} RowsInOrder(ops: seq<Op>, k: CellKey)
    requires Coherent(ops) && Clocked(ops)
    ensures InOrder(Read(Run(ops).rollups, k))
  {
    hide Run, Expired, Batch.BatchTotal, Agree;
    EveryCell(ops, k);
    if !Expired(k, LastPrune(ops)) {
      PruningIsInvisible(ops, k);
      UnprunedSubset(ops);
      RowsUnpruned(Unpruned(ops), k);
    }
  }

  lemma {:induction false} RowsUnpruned(ops: seq<Op>, k: CellKey)
    requires Coherent(ops) && NoCleans(ops)
    ensures InOrder(Read(Run(ops).rollups, k))
  {
    hide Run, Links, InOrder, Agree, PointsOk, SumOver;
    RunKeeps(ops);
    RunPointsOk(ops);
    var points := Run(ops).points;
    var cells := CellsOfEdges(Links(points), k);
    forall i | i in cells
      ensures InOrder(cells[i])
    {
      LeftOk(points, k, i);
    }
    SumInOrder(cells, cells.Keys);
  }

  ghost predicate InTimeOrder(s: seq<Point>) {
    forall i, j :: 0 <= i < j < |s| ==> s[i].at <= s[j].at
  }

  lemma {:induction false} SortedInTimeOrder(points: map<PointId, Point>, ids: set<PointId>)
    requires ids <= points.Keys
    ensures InTimeOrder(Sorted(points, ids))
    ensures forall p :: p in Sorted(points, ids) ==> exists i :: i in ids && points[i] == p
    decreases |ids|
  {
    if ids != {} {
      var last := Last(points, ids);
      var s := Sorted(points, ids - {last});
      SortedInTimeOrder(points, ids - {last});
      forall j | 0 <= j < |s|
        ensures s[j].at <= points[last].at
      {
        assert s[j] in s;
        var i :| i in ids - {last} && points[i] == s[j];
        assert NotAfter(points, i, last);
      }
    }
  }

  lemma {:induction false} IntegralAtMost(c: Chain, s: seq<Point>, k: CellKey)
    requires InTimeOrder(s) && s != [] && forall p :: p in s ==> PointOk(p)
    ensures AtMost(Integral(c, s, k), Seconds(Overlap(s[0].at, s[|s| - 1].at, k.bucket, k.bucket + k.res)))
    decreases |s|
  {
    hide EdgeCell, PointOk, InOrder, Overlap;
    if |s| >= 2 {
      var n := |s| - 1;
      IntegralAtMost(c, s[..n], k);
      assert s[..n][n - 1] == s[n - 1];
      EdgeInOrder(c.node, c.uuid, s[n - 1], s[n], k);
      OverlapJoin(s[0].at, s[n - 1].at, s[n].at, k.bucket, k.bucket + k.res);
    }
  }

  // A row is the sum of one part for each run of the agent, and no part exceeds the length
  // of the bucket.
  lemma {:induction false} NoOverCount(ops: seq<Op>, k: CellKey)
    requires Coherent(ops) && Clocked(ops) && !Expired(k, LastPrune(ops)) && k.res >= 0
    ensures var parts := BootTotals(Run(Unpruned(ops)).points, k);
            && Read(Run(ops).rollups, k) == Sum(parts)
            && (forall boot :: boot in parts ==> AtMost(parts[boot], Seconds(k.res)))
            && AtMost(Read(Run(ops).rollups, k), Seconds(|parts| * k.res))
  {
    hide Run, Expired, AtMost, ChainTotal, SumOver, Agree, Seconds;
    var parts := BootTotals(Run(Unpruned(ops)).points, k);
    PruningIsInvisible(ops, k);
    forall boot | boot in parts
      ensures AtMost(parts[boot], Seconds(k.res))
    {
      ChainAtMost(Unpruned(ops), Chain(k.node, k.uuid, boot), k);
    }
    SumAtMost(parts, parts.Keys, k.res);
    assert |parts.Keys| == |parts|;
  }

  lemma {:induction false} SumAtMost<K>(m: map<K, Amounts>, keys: set<K>, res: nat)
    requires keys <= m.Keys && forall i :: i in keys ==> AtMost(m[i], Seconds(res))
    ensures AtMost(SumOver(m, keys), Seconds(|keys| * res))
  {
    hide Seconds, AtMost, SumOver;
    if keys == {} {
      NothingAtMost(m);
    } else {
      var i :| i in keys;
      var rest := keys - {i};
      SumPick(m, keys, i);
      SumAtMost(m, rest, res);
      OneMoreLength(|rest|, res);
      AddAtMost(m[i], SumOver(m, rest), Seconds(res), Seconds(|rest| * res));
    }
  }

  lemma NothingAtMost<K>(m: map<K, Amounts>)
    ensures AtMost(SumOver(m, {}), Seconds(0))
  {
  }

  lemma OneMoreLength(n: nat, res: nat)
    ensures Seconds((n + 1) * res) == Seconds(n * res) + Seconds(res)
  {
    assert (n + 1) * res == n * res + res;
    SecondsAdd(n * res, res);
  }

  lemma AddAtMost(a: Amounts, b: Amounts, x: real, y: real)
    requires AtMost(a, x) && AtMost(b, y)
    ensures AtMost(Add(a, b), x + y)
  {
  }

  // One run of an agent is counted for at most the length of the bucket.
  lemma {:induction false} ChainAtMost(ops: seq<Op>, c: Chain, k: CellKey)
    requires k.res >= 0
    ensures AtMost(ChainTotal(Run(ops).points, c, k), Seconds(k.res))
  {
    hide Run, PointOk, EdgeCell;
    RunPointsOk(ops);
    var points := Run(ops).points;
    var s := Sorted(points, ChainIds(points, c));
    SortedInTimeOrder(points, ChainIds(points, c));
    if s != [] {
      IntegralAtMost(c, s, k);
      assert Overlap(s[0].at, s[|s| - 1].at, k.bucket, k.bucket + k.res) <= k.res;
    }
  }

  /******* Users *******/

  lemma UserWithinCard(a: Point, user: string, sec: real)
    requires PointOk(a) && 0.0 <= sec && user != ""
    ensures StateShare(a, user, sec).occupied <= StateShare(a, "", sec).occupied
  {
    hide StateShare;
    CardState(a, sec);
    UserState(a, user, sec);
  }

  lemma UserEdgeWithinCard(node: string, uuid: string, a: Point, b: Point, k: CellKey)
    requires PointOk(a) && k.user != ""
    ensures EdgeCell(node, uuid, a, b, k).occupied <= EdgeCell(node, uuid, a, b, k.(user := "")).occupied
  {
    hide StateShare, Overlap, PointOk, Aligned;
    UserWithinCard(a, k.user, Seconds(Overlap(a.at, b.at, k.bucket, k.bucket + k.res)));
  }

  lemma {:induction false} SumOccupiedWithin<K>(m: map<K, Amounts>, n: map<K, Amounts>, keys: set<K>)
    requires keys <= m.Keys && keys <= n.Keys && forall i :: i in keys ==> m[i].occupied <= n[i].occupied
    ensures SumOver(m, keys).occupied <= SumOver(n, keys).occupied
  {
    if keys != {} {
      var i :| i in keys;
      SumPick(m, keys, i);
      SumPick(n, keys, i);
      SumOccupiedWithin(m, n, keys - {i});
    }
  }

  // No user is counted on a card for longer than the card was in use.
  lemma {:induction false} UserRowWithinCardRow(ops: seq<Op>, k: CellKey)
    requires Coherent(ops) && Clocked(ops) && k.user != ""
    ensures Read(Run(ops).rollups, k).occupied <= Read(Run(ops).rollups, k.(user := "")).occupied
  {
    hide Run, Batch.BatchTotal, Agree;
    var card := k.(user := "");
    EveryCell(ops, k);
    EveryCell(ops, card);
    if !Expired(k, LastPrune(ops)) {
      PruningIsInvisible(ops, k);
      PruningIsInvisible(ops, card);
      UnprunedSubset(ops);
      UserRowUnpruned(Unpruned(ops), k);
    }
  }

  lemma {:induction false} UserRowUnpruned(ops: seq<Op>, k: CellKey)
    requires Coherent(ops) && NoCleans(ops) && k.user != ""
    ensures Read(Run(ops).rollups, k).occupied <= Read(Run(ops).rollups, k.(user := "")).occupied
  {
    hide Run, Links, Agree, EdgeCell, PointOk, SumOver;
    RunKeeps(ops);
    RunPointsOk(ops);
    var points := Run(ops).points;
    var mine, card := CellsOfEdges(Links(points), k), CellsOfEdges(Links(points), k.(user := ""));
    forall i | i in mine
      ensures mine[i].occupied <= card[i].occupied
    {
      UserCellWithin(points, k, i);
    }
    assert mine.Keys == card.Keys;
    SumOccupiedWithin(mine, card, mine.Keys);
  }

  lemma UserCellWithin(points: map<PointId, Point>, k: CellKey, i: PointId)
    requires PointsOk(points) && i in Links(points) && k.user != ""
    ensures CellsOfEdges(Links(points), k)[i].occupied <= CellsOfEdges(Links(points), k.(user := ""))[i].occupied
  {
    hide EdgeCell, PointOk;
    LastCell(points, i, k);
    LastCell(points, i, k.(user := ""));
    UserEdgeWithinCard(i.node, i.uuid, points[BeforeOf(points, i).value], points[i], k);
  }

  // What the users of a set are counted for together.
  ghost function UsersOccupied(m: map<string, Amounts>, users: set<string>): real
    requires users <= m.Keys
  {
    SumOver(m, users).occupied
  }

  ghost function UserRows(t: Totals, k: CellKey, users: set<string>): map<string, Amounts> {
    map u | u in users :: Read(t, k.(user := u))
  }

  // The part of the card's use that was attributed to users for certain.
  function Attributed(card: Amounts): real {
    card.occupied - (card.occupancyValid - card.attributionValid)
  }

  ghost function UserShares(a: Point, users: set<string>, sec: real): map<string, Amounts> {
    map u | u in users :: StateShare(a, u, sec)
  }

  lemma {:induction false} SumOfNonNegative<K>(m: map<K, Amounts>, keys: set<K>)
    requires keys <= m.Keys && forall i :: i in keys ==> 0.0 <= m[i].occupied
    ensures 0.0 <= SumOver(m, keys).occupied
    ensures forall i :: i in keys ==> m[i].occupied <= SumOver(m, keys).occupied
  {
    if keys != {} {
      forall i | i in keys
        ensures m[i].occupied <= SumOver(m, keys).occupied && 0.0 <= SumOver(m, keys).occupied
      {
        SumPick(m, keys, i);
        SumOfNonNegative(m, keys - {i});
      }
      var i :| i in keys;
    }
  }

  lemma UsersCoverState(a: Point, users: set<string>, sec: real)
    requires PointOk(a) && 0.0 <= sec && a.users <= users && "" !in users
    ensures Attributed(StateShare(a, "", sec)) <= UsersOccupied(UserShares(a, users, sec), users)
  {
    hide StateShare;
    var m := UserShares(a, users, sec);
    CardState(a, sec);
    forall u | u in users
      ensures m[u].occupied == if a.processValid && u in a.users then sec else 0.0
    {
      UserState(a, u, sec);
    }
    SumOfNonNegative(m, users);
    if a.userValid && a.occupied {
      var u :| u in a.users;
      assert m[u].occupied == sec;
    }
  }

  ghost function UserCells(node: string, uuid: string, a: Point, b: Point, k: CellKey, users: set<string>): map<string, Amounts> {
    map u | u in users :: EdgeCell(node, uuid, a, b, k.(user := u))
  }

  lemma UsersCoverEdge(node: string, uuid: string, a: Point, b: Point, k: CellKey, users: set<string>)
    requires PointOk(a) && a.users <= users && "" !in users
    ensures Attributed(EdgeCell(node, uuid, a, b, k.(user := ""))) <= UsersOccupied(UserCells(node, uuid, a, b, k, users), users)
  {
    hide StateShare, Overlap, PointOk, Aligned, SumOver;
    var m := UserCells(node, uuid, a, b, k, users);
    if k.node == node && k.uuid == uuid && IsBucket(k.res, k.bucket) && Joinable(a, b) {
      var sec := Seconds(Overlap(a.at, b.at, k.bucket, k.bucket + k.res));
      UsersCoverState(a, users, sec);
      assert m == UserShares(a, users, sec);
    } else {
      SumZero(m, users);
    }
  }

  // The cells of the users, edge by edge.
  ghost function UserSums(cells: map<string, map<PointId, Amounts>>, ids: set<PointId>): map<string, Amounts>
    requires forall u :: u in cells ==> ids <= cells[u].Keys
  {
    map u | u in cells :: SumOver(cells[u], ids)
  }

  ghost function UsersAt(cells: map<string, map<PointId, Amounts>>, i: PointId): map<string, Amounts>
    requires forall u :: u in cells ==> i in cells[u]
  {
    map u | u in cells :: cells[u][i]
  }

  lemma {:induction false} UsersCoverSum(card: map<PointId, Amounts>, cells: map<string, map<PointId, Amounts>>, ids: set<PointId>)
    requires ids <= card.Keys && forall u :: u in cells ==> ids <= cells[u].Keys
    requires forall i :: i in ids ==> Attributed(card[i]) <= UsersOccupied(UsersAt(cells, i), cells.Keys)
    ensures Attributed(SumOver(card, ids)) <= UsersOccupied(UserSums(cells, ids), cells.Keys)
    decreases |ids|
  {
    var sums := UserSums(cells, ids);
    if ids == {} {
      SumZero(sums, cells.Keys);
    } else {
      var i :| i in ids;
      var rest := ids - {i};
      SumPick(card, ids, i);
      UsersCoverSum(card, cells, rest);
      forall u | u in cells
        ensures sums[u] == Add(UsersAt(cells, i)[u], UserSums(cells, rest)[u])
      {
        SumPick(cells[u], ids, i);
      }
      SumPlus(UsersAt(cells, i), UserSums(cells, rest), sums, cells.Keys);
    }
  }

  // The users of a card account for at least its attributed use: what is fully attributed
  // is never lost. Two users who share a card are each counted in full, so together they
  // may exceed the card.
  lemma {:induction false} UsersCoverCard(ops: seq<Op>, k: CellKey, users: set<string>)
    requires Coherent(ops) && Clocked(ops) && "" !in users && AllUsers(Run(Unpruned(ops)).points, users)
    ensures Attributed(Read(Run(ops).rollups, k.(user := "")))
         <= UsersOccupied(UserRows(Run(ops).rollups, k, users), users)
  {
    hide Run, Batch.BatchTotal, Agree, Attributed, SumOver, Read, AllUsers;
    var full, card := Unpruned(ops), k.(user := "");
    var rows := UserRows(Run(ops).rollups, k, users);
    if Expired(k, LastPrune(ops)) {
      EveryCell(ops, card);
      forall u | u in users
        ensures rows[u] == ZERO
      {
        EveryCell(ops, k.(user := u));
      }
      SumZero(rows, users);
      NothingAttributed();
    } else {
      PruningIsInvisible(ops, card);
      forall u | u in users
        ensures rows[u] == Read(Run(full).rollups, k.(user := u))
      {
        PruningIsInvisible(ops, k.(user := u));
      }
      assert rows == UserRows(Run(full).rollups, k, users);
      UnprunedSubset(ops);
      UsersCoverUnpruned(full, k, users);
    }
  }

  lemma NothingAttributed()
    ensures Attributed(ZERO) == 0.0
  {
  }

  // The users of a set are all that were ever observed.
  ghost predicate AllUsers(points: map<PointId, Point>, users: set<string>) {
    forall i :: i in points ==> points[i].users <= users
  }

  lemma {:induction false} UsersCoverUnpruned(ops: seq<Op>, k: CellKey, users: set<string>)
    requires Coherent(ops) && NoCleans(ops) && "" !in users && AllUsers(Run(ops).points, users)
    ensures Attributed(Read(Run(ops).rollups, k.(user := "")))
         <= UsersOccupied(UserRows(Run(ops).rollups, k, users), users)
  {
    hide Run, Links, Agree, PointsOk, SumOver, Total, Sound;
    RunKeeps(ops);
    RunPointsOk(ops);
    UsersCoverLinks(Run(ops).points, k, users);
    var rows, totals := UserRows(Run(ops).rollups, k, users), UserTotals(Run(ops).points, k, users);
    assert rows == totals;
  }

  ghost function UserTotals(points: map<PointId, Point>, k: CellKey, users: set<string>): map<string, Amounts> {
    map u | u in users :: Total(Links(points), k.(user := u))
  }

  ghost function UserEdgeCells(points: map<PointId, Point>, k: CellKey, users: set<string>): map<string, map<PointId, Amounts>> {
    map u | u in users :: CellsOfEdges(Links(points), k.(user := u))
  }

  lemma TotalsAreSums(points: map<PointId, Point>, k: CellKey, users: set<string>)
    ensures forall u :: u in users ==> UserEdgeCells(points, k, users)[u].Keys == Links(points).Keys
    ensures UserTotals(points, k, users) == UserSums(UserEdgeCells(points, k, users), Links(points).Keys)
  {
    hide Links, SumOver, Read;
  }

  lemma UsersCoverLinks(points: map<PointId, Point>, k: CellKey, users: set<string>)
    requires PointsOk(points) && "" !in users && AllUsers(points, users)
    ensures Attributed(Total(Links(points), k.(user := ""))) <= UsersOccupied(UserTotals(points, k, users), users)
  {
    hide Links, PointsOk, SumOver, CellsOfEdges, UsersOccupied, Attributed, UserTotals;
    var ids, cells := Links(points).Keys, UserEdgeCells(points, k, users);
    var card := CellsOfEdges(Links(points), k.(user := ""));
    CellKeys(points, k.(user := ""));
    TotalsAreSums(points, k, users);
    assert cells.Keys == users;
    forall i | i in ids
      ensures Attributed(card[i]) <= UsersOccupied(UsersAt(cells, i), cells.Keys)
    {
      UsersCoverLink(points, k, users, i);
    }
    UsersCoverSum(card, cells, ids);
  }

  lemma UsersCoverLink(points: map<PointId, Point>, k: CellKey, users: set<string>, i: PointId)
    requires PointsOk(points) && i in Links(points) && "" !in users && AllUsers(points, users)
    ensures Attributed(CellsOfEdges(Links(points), k.(user := ""))[i])
         <= UsersOccupied(UsersAt(UserEdgeCells(points, k, users), i), users)
  {
    hide EdgeCell, PointOk, SumOver, Attributed;
    var a := points[BeforeOf(points, i).value];
    LastCell(points, i, k.(user := ""));
    UserCellsOfLink(points, k, users, i);
    UsersCoverEdge(i.node, i.uuid, a, points[i], k, users);
  }

  lemma UserCellsOfLink(points: map<PointId, Point>, k: CellKey, users: set<string>, i: PointId)
    requires i in Links(points)
    ensures UsersAt(UserEdgeCells(points, k, users), i)
         == UserCells(i.node, i.uuid, points[BeforeOf(points, i).value], points[i], k, users)
  {
    hide EdgeCell, LinkOf, Read;
    forall u | u in users
      ensures UserEdgeCells(points, k, users)[u][i]
           == EdgeCell(i.node, i.uuid, points[BeforeOf(points, i).value], points[i], k.(user := u))
    {
      LastCell(points, i, k.(user := u));
    }
  }
}
