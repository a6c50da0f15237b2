/**
 What a row of the rollups says of the uploaded snapshots. The reference here goes through
 a bucket millisecond by millisecond and asks the reports themselves: which look at the card
 came last, was the next one soon enough, and what was a second worth then. From it follow
 the laws that a user of the statistics relies on: nothing covered is left out, no value is
 outside what was reported, and nobody has time who did not run anything.
 */
module Meaning {
  import opened Wrappers
  import opened Amounts
  import opened Model
  import opened Rollups
  import opened Tables
  import opened Linking
  import opened Ledger
  import opened Batch
  import opened Retention
  import opened Reports
  import Bounds

  /******* The reference *******/

  // What a second is worth at the time t: what the latest look saw, if the next one came
  // after at most two intervals.
  function WorthAt(v: seq<Sighting>, t: int, user: string): Amounts {
    if |v| < 2 then ZERO
    else
      var x, y := v[|v| - 2], v[|v| - 1];
      if x.at <= t < y.at then (if y.at - x.at <= 2_000 * x.interval then Worth(x.card, user) else ZERO)
      else WorthAt(v[..|v| - 1], t, user)
  }

  // The sum over the milliseconds from one time to another.
  function OverTime(v: seq<Sighting>, user: string, from: int, to: int): Amounts
    decreases (to - from)
  {
    if to <= from then ZERO else Add(OverTime(v, user, from, to - 1), Scale(0.001, WorthAt(v, to - 1, user)))
  }

  /******* One pair of looks *******/

  lemma OneMillisecond(a: Point, b: Point, x: Sighting, y: Sighting, user: string, t: int)
    requires x.at == a.at && x.interval == a.interval && WorthAs(a, x.card) && y.at == b.at
    ensures Window(a, b, user, t, t + 1) == Scale(0.001, WorthAt([x, y], t, user))
  {
    hide StateShare, Scale, Worth;
    ScaleZero(0.001);
    StateShareZero(a, user);
    assert Seconds(0) == 0.0 && Seconds(1) == 0.001;
    if a.at <= t < b.at {
      assert Overlap(a.at, b.at, t, t + 1) == 1;
    } else {
      assert Overlap(a.at, b.at, t, t + 1) == 0;
      assert WorthAt([x], t, user) == ZERO;
      assert [x, y][..1] == [x];
    }
  }

  lemma {:induction false} PairOverTime(a: Point, b: Point, x: Sighting, y: Sighting, user: string, from: int, to: int)
    requires x.at == a.at && x.interval == a.interval && WorthAs(a, x.card) && y.at == b.at && from <= to
    ensures OverTime([x, y], user, from, to) == Window(a, b, user, from, to)
    decreases (to - from)
  {
    hide WorthAs, Window, WorthAt, Scale, Add;
    if from == to {
      NoWindow(a, b, user, from);
    } else {
      PairOverTime(a, b, x, y, user, from, to - 1);
      OneMillisecond(a, b, x, y, user, to - 1);
      Bounds.WindowSplit(a, b, user, from, to - 1, to);
    }
  }

  lemma NoWindow(a: Point, b: Point, user: string, at: int)
    ensures Window(a, b, user, at, at) == ZERO
  {
    hide StateShare;
    StateShareZero(a, user);
    assert Overlap(a.at, b.at, at, at) == 0 && Seconds(0) == 0.0;
  }

  /******* All looks *******/

  lemma {:induction false} AfterTheLast(v: seq<Sighting>, t: int, user: string)
    requires InTime(v) && (v != [] ==> v[|v| - 1].at <= t)
    ensures WorthAt(v, t, user) == ZERO
  {
    if |v| >= 2 {
      AfterTheLast(v[..|v| - 1], t, user);
    }
  }

  lemma OnePair(x: Sighting, y: Sighting, t: int, user: string)
    ensures WorthAt([x, y], t, user)
         == if x.at <= t < y.at && y.at - x.at <= 2_000 * x.interval then Worth(x.card, user) else ZERO
  {
    hide Worth;
    assert [x, y][..1] == [x];
    assert WorthAt([x], t, user) == ZERO;
  }

  lemma LastPair(v: seq<Sighting>, y: Sighting, t: int, user: string)
    requires v != []
    ensures var x := v[|v| - 1];
            WorthAt(v + [y], t, user)
            == if x.at <= t < y.at then (if y.at - x.at <= 2_000 * x.interval then Worth(x.card, user) else ZERO) else WorthAt(v, t, user)
  {
    hide Worth;
    assert (v + [y])[..|v|] == v;
  }

  lemma InTimePrefix(v: seq<Sighting>, y: Sighting)
    requires InTime(v + [y])
    ensures InTime(v)
  {
    assert forall i :: 0 <= i < |v| ==> (v + [y])[i] == v[i];
  }

  // One more look settles the stretch before it.
  lemma OneMoreLook(v: seq<Sighting>, y: Sighting, t: int, user: string)
    requires v != [] && InTime(v + [y])
    ensures WorthAt(v + [y], t, user) == Add(WorthAt(v, t, user), WorthAt([v[|v| - 1], y], t, user))
  {
    hide Worth, WorthAt, Add, InTime;
    var x := v[|v| - 1];
    InTimePrefix(v, y);
    LastPair(v, y, t, user);
    OnePair(x, y, t, user);
    if x.at <= t < y.at {
      AfterTheLast(v, t, user);
      AddZero(WorthAt([x, y], t, user));
      AddCommutes(ZERO, WorthAt([x, y], t, user));
    } else {
      AddZero(WorthAt(v, t, user));
    }
  }

  lemma {:induction false} OneMoreStretch(v: seq<Sighting>, y: Sighting, user: string, from: int, to: int)
    requires v != [] && InTime(v + [y]) && from <= to
    ensures OverTime(v + [y], user, from, to) == Add(OverTime(v, user, from, to), OverTime([v[|v| - 1], y], user, from, to))
    decreases (to - from)
  {
    hide WorthAt, Scale, Add, InTime;
    if from == to {
      AddZero(ZERO);
    } else {
      var pair, t := [v[|v| - 1], y], to - 1;
      OneMoreStretch(v, y, user, from, t);
      OneMoreLook(v, y, t, user);
      ScaleAdd(0.001, WorthAt(v, t, user), WorthAt(pair, t, user));
      AddInterchange(OverTime(v, user, from, t), OverTime(pair, user, from, t),
                     Scale(0.001, WorthAt(v, t, user)), Scale(0.001, WorthAt(pair, t, user)));
    }
  }

  lemma {:induction false} Nothing(v: seq<Sighting>, user: string, from: int, to: int)
    requires |v| < 2
    ensures OverTime(v, user, from, to) == ZERO
    decreases (to - from)
  {
    if from < to {
      Nothing(v, user, from, to - 1);
      ScaleZero(0.001);
    }
  }

  // The integral over adjacent points goes through the milliseconds of the bucket.
  lemma {:induction false} IntegralOverTime(c: Chain, s: seq<Point>, v: seq<Sighting>, k: CellKey)
    requires Matches(s, v) && InTime(v) && k.node == c.node && k.uuid == c.uuid && IsBucket(k.res, k.bucket)
    ensures Integral(c, s, k) == OverTime(v, k.user, k.bucket, k.bucket + k.res)
    decreases |s|
  {
    hide WorthAs, WorthAt, OverTime, Add, Window, Aligned;
    var n := |s| - 1;
    if n < 1 {
      Nothing(v, k.user, k.bucket, k.bucket + k.res);
    } else {
      IntegralOverTime(c, s[..n], v[..n], k);
      assert v == v[..n] + [v[n]];
      OneMoreStretch(v[..n], v[n], k.user, k.bucket, k.bucket + k.res);
      PairOverTime(s[n - 1], s[n], v[n - 1], v[n], k.user, k.bucket, k.bucket + k.res);
    }
  }

  /******* Rows *******/

  // The looks at a card in one run of the agent, as the uploads told them.
  ghost function Looks(ops: seq<Op>, c: Chain): (v: seq<Sighting>)
    requires Coherent(ops) && Clocked(ops)
  {
    var points := Run(Unpruned(ops)).points;
    FullTold(ops);
    Timeline(ops, points, ChainIds(points, c))
  }

  lemma FullTold(ops: seq<Op>)
    requires Coherent(ops) && Clocked(ops)
    ensures AllTold(ops, Run(Unpruned(ops)).points)
  {
    hide ToldBy, Run, Agree;
    UnprunedSubset(ops);
    RunTold(Unpruned(ops));
  }

  lemma LooksAre(ops: seq<Op>, c: Chain)
    requires Coherent(ops) && Clocked(ops)
    ensures var points := Run(Unpruned(ops)).points;
            InTime(Looks(ops, c)) && Matches(Sorted(points, ChainIds(points, c)), Looks(ops, c))
  {
    hide ToldBy, Run, Agree, AllTold, InTime, Matches, DistinctOn, Inventory, SamplesKnown, Exact;
    FullTold(ops);
    UnprunedSubset(ops);
    RunKeeps(Unpruned(ops));
    var points := Run(Unpruned(ops)).points;
    ChainedDistinct(Run(Unpruned(ops)));
    AllDistinct(points, c);
    TimelineInTime(ops, points, c, ChainIds(points, c));
    TimelineMatches(ops, points, ChainIds(points, c));
  }

  lemma AllDistinct(points: map<PointId, Point>, c: Chain)
    requires DistinctTimes(points)
    ensures DistinctOn(points, c)
  {
  }

  // The runs of the agent that have looked at the card, and what each is worth in a bucket.
  ghost function Parts(ops: seq<Op>, k: CellKey): map<string, Amounts>
    requires Coherent(ops) && Clocked(ops)
  {
    map boot | boot in Boots(Run(Unpruned(ops)).points, k.node, k.uuid) ::
      OverTime(Looks(ops, Chain(k.node, k.uuid, boot)), k.user, k.bucket, k.bucket + k.res)
  }

  // Every unexpired row, in every run with any prunes, is the sum over the runs of the agent
  // and the milliseconds of its bucket of what the latest look was worth.
  lemma {:induction false} RowIsOverTime(ops: seq<Op>, k: CellKey)
    requires Coherent(ops) && Clocked(ops) && !Expired(k, LastPrune(ops)) && IsBucket(k.res, k.bucket)
    ensures Read(Run(ops).rollups, k) == Sum(Parts(ops, k))
  {
    hide Run, Expired, OverTime, Integral, Sorted, Looks, Agree, SumOver, Aligned, Read, Clocked, Coherent;
    var points := Run(Unpruned(ops)).points;
    PruningIsInvisible(ops, k);
    forall boot | boot in Boots(points, k.node, k.uuid)
      ensures BootTotals(points, k)[boot] == Parts(ops, k)[boot]
    {
      PartIs(ops, k, boot);
    }
    assert BootTotals(points, k) == Parts(ops, k);
  }

  lemma PartIs(ops: seq<Op>, k: CellKey, boot: string)
    requires Coherent(ops) && Clocked(ops) && IsBucket(k.res, k.bucket)
    ensures var c := Chain(k.node, k.uuid, boot);
            ChainTotal(Run(Unpruned(ops)).points, c, k) == OverTime(Looks(ops, c), k.user, k.bucket, k.bucket + k.res)
  {
    hide Run, OverTime, Integral, Sorted, Looks, Clocked, Coherent, Matches, InTime, Aligned;
    var c, points := Chain(k.node, k.uuid, boot), Run(Unpruned(ops)).points;
    LooksAre(ops, c);
    IntegralOverTime(c, Sorted(points, ChainIds(points, c)), Looks(ops, c), k);
  }

  // A look of the timeline was told by an upload.
  lemma LookSaid(ops: seq<Op>, c: Chain, x: Sighting) returns (op: Op)
    requires Coherent(ops) && Clocked(ops) && x in Looks(ops, c)
    ensures op in ops && op.Upload? && op.s.node == c.node && op.s.boot == c.boot && x.at == op.s.at && x.interval == op.s.interval
    ensures x.card.Some? ==> x.card.value in op.s.gpus && x.card.value.uuid == c.uuid
    ensures x.card.None? ==> op.s.gpuStatus != "ok" && c.uuid !in Uuids(op.s.gpus)
  {
    hide ToldBy, Run, Agree, AllTold, Coherent, Clocked, WorthAs;
    FullTold(ops);
    var points := Run(Unpruned(ops)).points;
    var i := PointOf(ops, points, ChainIds(points, c), x);
    op :| op in ops && SaidIn(op, i, x);
  }
  // Every sample that the hub has taken in is a look at each of its cards, as it says.
  lemma {:induction false} CommittedIsLookedAt(ops: seq<Op>, op: Op, g: Gpu) returns (x: Sighting)
    requires op.Upload? && Coherent(ops) && Clocked(ops) && VerbatimFrom(ops, op.s.node)
    requires op in Unpruned(ops) && IdOf(op.s) in Run(Unpruned(ops)).samples && g in op.s.gpus && DistinctUuids(op.s.gpus)
    ensures x == Sighting(op.s.at, op.s.interval, Some(g)) && x in Looks(ops, Chain(op.s.node, g.uuid, op.s.boot))
  {
    hide ToldBy, Run, Agree, AllTold, Coherent, Clocked, WorthAs, Says;
    FullTold(ops);
    FullCommitted(ops, op.s.node);
    var points, i := Run(Unpruned(ops)).points, PointId(op.s.node, g.uuid, op.s.boot, op.s.number);
    assert i in points;
    UnprunedSubset(ops);
    x := PointSeen(ops, points, ChainIds(points, ChainOf(i)), i);
    var b :| b in ops && SaidIn(b, i, x);
    assert b.s == op.s;
    assert g.uuid in Uuids(op.s.gpus);
    assert x.card.value == g by {
      OneOfCards(op.s.gpus, x.card.value, g);
    }
  }

  lemma OneOfCards(gpus: seq<Gpu>, g: Gpu, h: Gpu)
    requires DistinctUuids(gpus) && g in gpus && h in gpus && g.uuid == h.uuid
    ensures g == h
  {
  }

  lemma FullCommitted(ops: seq<Op>, node: string)
    requires Coherent(ops) && Clocked(ops) && VerbatimFrom(ops, node)
    ensures forall op :: op in Unpruned(ops) && op.Upload? && op.s.node == node && IdOf(op.s) in Run(Unpruned(ops)).samples ==>
              Integrated(Run(Unpruned(ops)).points, op.s)
  {
    hide Run, Agree, Integrated;
    UnprunedSubset(ops);
    CommittedIsIntegrated(Unpruned(ops), node);
  }

  /******* Nothing covered is left out *******/

  // The stretch from look j to the next one, wherever it stands in the timeline.
  lemma {:induction false} WorthInside(v: seq<Sighting>, j: nat, t: int, user: string)
    requires InTime(v) && j + 1 < |v| && v[j].at <= t < v[j + 1].at
    ensures WorthAt(v, t, user) == if v[j + 1].at - v[j].at <= 2_000 * v[j].interval then Worth(v[j].card, user) else ZERO
  {
    hide Worth;
    if j + 2 < |v| {
      assert v[j + 1].at <= v[|v| - 2].at;
      WorthInside(v[..|v| - 1], j, t, user);
    }
  }

  // From look lo to look hi, each look is at most two intervals after the one before it and,
  // but for the last, knows the use of the card.
  ghost predicate Watched(v: seq<Sighting>, lo: nat, hi: nat) {
    && lo <= hi < |v|
    && forall j :: lo <= j < hi ==>
         && v[j + 1].at - v[j].at <= 2_000 * v[j].interval
         && v[j].card.Some? && v[j].card.value.status == "ok" && v[j].card.value.processStatus == "ok"
  }

  // The look that came last before a time.
  lemma {:induction false} LatestLook(v: seq<Sighting>, lo: nat, hi: nat, t: int) returns (j: nat)
    requires lo < hi < |v| && v[lo].at <= t < v[hi].at
    ensures lo <= j < hi && v[j].at <= t < v[j + 1].at
    decreases hi - lo
  {
    if t < v[lo + 1].at {
      j := lo;
    } else {
      j := LatestLook(v, lo + 1, hi, t);
    }
  }

  lemma {:induction false} ValidThroughout(v: seq<Sighting>, lo: nat, hi: nat, from: int, to: int)
    requires InTime(v) && Watched(v, lo, hi) && v[lo].at <= from <= to <= v[hi].at
    ensures OverTime(v, "", from, to).occupancyValid == Seconds(to - from)
    decreases (to - from)
  {
    hide WorthAt, InTime, Watched, Add, Scale;
    NothingValid();
    if from < to {
      ValidThroughout(v, lo, hi, from, to - 1);
      ValidThen(v, lo, hi, to - 1);
      ValidMore(OverTime(v, "", from, to - 1), WorthAt(v, to - 1, ""), to - 1 - from);
    }
  }

  lemma NothingValid()
    ensures Seconds(0) == 0.0
  {
  }

  lemma ValidThen(v: seq<Sighting>, lo: nat, hi: nat, t: int)
    requires InTime(v) && Watched(v, lo, hi) && v[lo].at <= t < v[hi].at
    ensures WorthAt(v, t, "").occupancyValid == 1.0
  {
    hide WorthAt, InTime;
    var j := LatestLook(v, lo, hi, t);
    WorthInside(v, j, t, "");
  }

  lemma ValidMore(a: Amounts, b: Amounts, n: int)
    requires a.occupancyValid == Seconds(n) && b.occupancyValid == 1.0
    ensures Add(a, Scale(0.001, b)).occupancyValid == Seconds(n + 1)
  {
  }

  // What one run of the agent contributes to a bucket that it watched throughout is the whole
  // length of the bucket, and the row has no less.
  lemma {:induction false} NoUnderCount(ops: seq<Op>, c: Chain, lo: nat, hi: nat, k: CellKey)
    requires Coherent(ops) && Clocked(ops) && !Expired(k, LastPrune(ops)) && IsBucket(k.res, k.bucket)
    requires k.node == c.node && k.uuid == c.uuid && k.user == ""
    requires Watched(Looks(ops, c), lo, hi) && Looks(ops, c)[lo].at <= k.bucket && k.bucket + k.res <= Looks(ops, c)[hi].at
    ensures c.boot in Parts(ops, k) && Parts(ops, k)[c.boot].occupancyValid == k.res as real / 1000.0
    ensures Read(Run(ops).rollups, k).occupancyValid >= k.res as real / 1000.0
  {
    hide Run, Expired, OverTime, Looks, Coherent, Clocked, Aligned, InTime, Matches, SumOver, Watched, Read;
    LooksAre(ops, c);
    WatchedRange(Looks(ops, c), lo, hi);
    BootLooked(ops, c, Looks(ops, c)[0]);
    ValidThroughout(Looks(ops, c), lo, hi, k.bucket, k.bucket + k.res);
    RowIsOverTime(ops, k);
    var parts := Parts(ops, k);
    forall boot | boot in parts
      ensures 0.0 <= parts[boot].occupancyValid
    {
      ValidNotNegative(Looks(ops, Chain(k.node, k.uuid, boot)), k.user, k.bucket, k.bucket + k.res);
    }
    OneOfMany(parts, parts.Keys, c.boot);
  }

  lemma WatchedRange(v: seq<Sighting>, lo: nat, hi: nat)
    requires Watched(v, lo, hi)
    ensures lo <= hi < |v|
  {
  }

  lemma BootLooked(ops: seq<Op>, c: Chain, x: Sighting)
    requires Coherent(ops) && Clocked(ops) && x in Looks(ops, c)
    ensures c.boot in Boots(Run(Unpruned(ops)).points, c.node, c.uuid)
  {
    hide ToldBy, Run, AllTold, Coherent, Clocked, Sees;
    FullTold(ops);
    var points := Run(Unpruned(ops)).points;
    var i := PointOf(ops, points, ChainIds(points, c), x);
    assert i.boot == c.boot;
  }

  lemma {:induction false} ValidNotNegative(v: seq<Sighting>, user: string, from: int, to: int)
    ensures 0.0 <= OverTime(v, user, from, to).occupancyValid
    decreases (to - from)
  {
    hide WorthAt;
    if from < to {
      ValidNotNegative(v, user, from, to - 1);
      WorthNotNegative(v, to - 1, user);
    }
  }

  lemma {:induction false} WorthNotNegative(v: seq<Sighting>, t: int, user: string)
    ensures 0.0 <= WorthAt(v, t, user).occupancyValid
  {
    if |v| >= 2 {
      WorthNotNegative(v[..|v| - 1], t, user);
    }
  }

  lemma {:induction false} OneOfMany<K>(m: map<K, Amounts>, keys: set<K>, k: K)
    requires keys <= m.Keys && k in keys && forall i :: i in keys ==> 0.0 <= m[i].occupancyValid
    ensures SumOver(m, keys).occupancyValid >= m[k].occupancyValid
  {
    SumPick(m, keys, k);
    RestNotNegative(m, keys - {k});
  }

  lemma {:induction false} RestNotNegative<K>(m: map<K, Amounts>, keys: set<K>)
    requires keys <= m.Keys && forall i :: i in keys ==> 0.0 <= m[i].occupancyValid
    ensures SumOver(m, keys).occupancyValid >= 0.0
  {
    if keys != {} {
      var i :| i in keys;
      SumPick(m, keys, i);
      RestNotNegative(m, keys - {i});
    }
  }

  lemma {:induction false} NothingThroughout(v: seq<Sighting>, user: string, from: int, to: int)
    requires forall t :: from <= t < to ==> WorthAt(v, t, user) == ZERO
    ensures OverTime(v, user, from, to) == ZERO
    decreases (to - from)
  {
    hide WorthAt;
    if from < to {
      NothingThroughout(v, user, from, to - 1);
      ScaleZero(0.001);
    }
  }

  // A gap of more than two intervals is unknown time: nothing is counted in a bucket inside
  // it, for the card or for any user.
  lemma {:induction false} LongGapAddsNothing(ops: seq<Op>, c: Chain, j: nat, k: CellKey)
    requires Coherent(ops) && Clocked(ops) && k.node == c.node && k.uuid == c.uuid && c.boot in Parts(ops, k)
    requires var v := Looks(ops, c);
             j + 1 < |v| && v[j].at <= k.bucket && k.bucket + k.res <= v[j + 1].at && v[j + 1].at - v[j].at > 2_000 * v[j].interval
    ensures Parts(ops, k)[c.boot] == ZERO
  {
    hide Run, OverTime, Looks, Coherent, Clocked, InTime, Matches, WorthAt;
    LooksAre(ops, c);
    var v := Looks(ops, c);
    forall t | k.bucket <= t < k.bucket + k.res
      ensures WorthAt(v, t, k.user) == ZERO
    {
      WorthInside(v, j, t, k.user);
    }
    NothingThroughout(v, k.user, k.bucket, k.bucket + k.res);
  }

  /******* Laws that hold of every look hold of every row *******/

  // A law that survives sums and scaling: it says of two columns that one lies between two
  // multiples of the other, or that a user has nothing.
  datatype Law =
    | MemoryWithin(lo: real, hi: real)
    | UtilWithin(lo: real, hi: real)
    | AlwaysInUse
    | NeverInUse
    | AlwaysAttributed
    | NeverAttributed
    | Nobody

  predicate Obeys(law: Law, a: Amounts) {
    match law
    case MemoryWithin(lo, hi) => 0.0 <= a.memoryValid && Times(lo, a.memoryValid) <= a.memorySum <= Times(hi, a.memoryValid)
    case UtilWithin(lo, hi) => 0.0 <= a.utilValid && Times(lo, a.utilValid) <= a.weighted * 100.0 <= Times(hi, a.utilValid)
    case AlwaysInUse => a.occupied == a.occupancyValid
    case NeverInUse => a.occupied == 0.0
    case AlwaysAttributed => a.attributionValid == a.occupancyValid
    case NeverAttributed => a.attributionValid == 0.0
    case Nobody => a == ZERO
  }

  lemma ObeysZero(law: Law)
    ensures Obeys(law, ZERO)
  {
  }

  lemma TimesPlus(r: real, x: real, y: real)
    ensures Times(r, x + y) == Times(r, x) + Times(r, y)
  {
  }

  lemma Between(lo: real, hi: real, x: real, y: real, v: real, w: real)
    requires Times(lo, x) <= v <= Times(hi, x) && Times(lo, y) <= w <= Times(hi, y)
    ensures Times(lo, x + y) <= v + w <= Times(hi, x + y)
  {
    hide Times;
    TimesPlus(lo, x, y);
    TimesPlus(hi, x, y);
  }

  lemma ObeysAdd(law: Law, a: Amounts, b: Amounts)
    requires Obeys(law, a) && Obeys(law, b)
    ensures Obeys(law, Add(a, b))
  {
    hide Times, Add;
    AddColumns(a, b);
    match law
    case MemoryWithin(lo, hi) =>
      Between(lo, hi, a.memoryValid, b.memoryValid, a.memorySum, b.memorySum);
    case UtilWithin(lo, hi) =>
      Between(lo, hi, a.utilValid, b.utilValid, a.weighted * 100.0, b.weighted * 100.0);
    case Nobody =>
      AddZero(ZERO);
    case _ =>
  }

  lemma AddColumns(a: Amounts, b: Amounts)
    ensures var c := Add(a, b);
            && c.occupied == a.occupied + b.occupied && c.occupancyValid == a.occupancyValid + b.occupancyValid
            && c.weighted == a.weighted + b.weighted && c.utilValid == a.utilValid + b.utilValid
            && c.memorySum == a.memorySum + b.memorySum && c.memoryValid == a.memoryValid + b.memoryValid
            && c.attributionValid == a.attributionValid + b.attributionValid
  {
  }

  lemma MillisecondTimes(r: real, x: real)
    ensures Times(r, Times(0.001, x)) == Times(r, x) / 1000.0 && Times(0.001, x) == x / 1000.0
  {
  }

  lemma ObeysScale(law: Law, a: Amounts)
    requires Obeys(law, a)
    ensures Obeys(law, Scale(0.001, a))
  {
    match law
    case MemoryWithin(lo, hi) =>
      hide Times;
      MillisecondTimes(lo, a.memoryValid);
      MillisecondTimes(hi, a.memoryValid);
      MillisecondTimes(0.0, a.memorySum);
    case UtilWithin(lo, hi) =>
      hide Times;
      MillisecondTimes(lo, a.utilValid);
      MillisecondTimes(hi, a.utilValid);
      MillisecondTimes(0.0, a.weighted);
    case Nobody =>
      ScaleZero(0.001);
    case _ =>
  }

  ghost predicate LookObeys(law: Law, user: string, card: Option<Gpu>) {
    Obeys(law, Worth(card, user))
  }

  lemma {:induction false} WorthObeys(law: Law, v: seq<Sighting>, t: int, user: string)
    requires forall x :: x in v ==> LookObeys(law, user, x.card)
    ensures Obeys(law, WorthAt(v, t, user))
  {
    hide Worth, Obeys;
    if |v| < 2 {
      ObeysZero(law);
    } else {
      ObeysZero(law);
      assert v[|v| - 2] in v;
      WorthObeys(law, v[..|v| - 1], t, user);
    }
  }

  lemma {:induction false} OverTimeObeys(law: Law, v: seq<Sighting>, user: string, from: int, to: int)
    requires forall x :: x in v ==> LookObeys(law, user, x.card)
    ensures Obeys(law, OverTime(v, user, from, to))
    decreases (to - from)
  {
    hide WorthAt, Obeys, Scale, Add, LookObeys;
    if to <= from {
      ObeysZero(law);
    } else {
      OverTimeObeys(law, v, user, from, to - 1);
      WorthObeys(law, v, to - 1, user);
      ObeysScale(law, WorthAt(v, to - 1, user));
      ObeysAdd(law, OverTime(v, user, from, to - 1), Scale(0.001, WorthAt(v, to - 1, user)));
    }
  }

  lemma {:induction false} SumObeys<K>(law: Law, m: map<K, Amounts>, keys: set<K>)
    requires keys <= m.Keys && forall i :: i in keys ==> Obeys(law, m[i])
    ensures Obeys(law, SumOver(m, keys))
  {
    hide Obeys, Add;
    if keys == {} {
      ObeysZero(law);
    } else {
      var i :| i in keys;
      SumPick(m, keys, i);
      SumObeys(law, m, keys - {i});
      ObeysAdd(law, m[i], SumOver(m, keys - {i}));
    }
  }

  // Some upload said this of the card.
  ghost predicate Reported(ops: seq<Op>, node: string, uuid: string, g: Gpu) {
    g.uuid == uuid && exists op :: op in ops && op.Upload? && op.s.node == node && g in op.s.gpus
  }

  // Every report of the card obeys the law.
  ghost predicate ReportsObey(law: Law, ops: seq<Op>, node: string, uuid: string, user: string) {
    forall g :: Reported(ops, node, uuid, g) ==> LookObeys(law, user, Some(g))
  }

  // What every report of a card obeys, every unexpired row of it obeys, over all runs of the
  // agent and any history of arrivals and prunes.
  lemma {:induction false} RowsObey(law: Law, ops: seq<Op>, k: CellKey)
    requires Coherent(ops) && Clocked(ops) && IsBucket(k.res, k.bucket)
    requires ReportsObey(law, ops, k.node, k.uuid, k.user)
    ensures Obeys(law, Read(Run(ops).rollups, k))
  {
    hide Run, Expired, OverTime, Looks, Coherent, Clocked, Aligned, SumOver, Obeys, Worth, Read, Batch.BatchTotal;
    if Expired(k, LastPrune(ops)) {
      EveryCell(ops, k);
      ObeysZero(law);
    } else {
      var parts := Parts(ops, k);
      RowIsOverTime(ops, k);
      forall boot | boot in parts
        ensures Obeys(law, parts[boot])
      {
        PartObeys(law, ops, k, boot);
      }
      SumObeys(law, parts, parts.Keys);
    }
  }

  lemma PartObeys(law: Law, ops: seq<Op>, k: CellKey, boot: string)
    requires Coherent(ops) && Clocked(ops) && ReportsObey(law, ops, k.node, k.uuid, k.user)
    ensures Obeys(law, OverTime(Looks(ops, Chain(k.node, k.uuid, boot)), k.user, k.bucket, k.bucket + k.res))
  {
    hide OverTime, Looks, Coherent, Clocked, Obeys, LookObeys;
    var c := Chain(k.node, k.uuid, boot);
    forall x | x in Looks(ops, c)
      ensures LookObeys(law, k.user, x.card)
    {
      var op := LookSaid(ops, c, x);
      if x.card.None? {
        NothingSeen(law, k.user);
      } else {
        assert Reported(ops, k.node, k.uuid, x.card.value);
      }
    }
    OverTimeObeys(law, Looks(ops, c), k.user, k.bucket, k.bucket + k.res);
  }

  lemma NothingSeen(law: Law, user: string)
    ensures LookObeys(law, user, None)
  {
    ObeysZero(law);
  }

  /******* The laws, on the reports *******/

  // Nobody has time on a card without having run something there when its use was known.
  lemma {:induction false} OnlyUsersHaveTime(ops: seq<Op>, k: CellKey)
    requires Coherent(ops) && Clocked(ops) && IsBucket(k.res, k.bucket) && k.user != ""
    requires forall g, q :: Reported(ops, k.node, k.uuid, g) && g.status == "ok" && g.processStatus == "ok" && q in g.processes ==> q.uid != k.user
    ensures Read(Run(ops).rollups, k) == ZERO
  {
    hide Run, Coherent, Clocked, Aligned, Read;
    RowsObey(Nobody, ops, k);
  }

  // The reports of a card, while its use was known, all have a property.
  ghost predicate KnownReports(ops: seq<Op>, node: string, uuid: string, inUse: bool, idle: bool, attributed: bool, doubtful: bool) {
    forall g :: Reported(ops, node, uuid, g) && g.status == "ok" && g.processStatus == "ok" ==>
      && (inUse ==> g.processes != [])
      && (idle ==> g.processes == [])
      && (attributed ==> forall q :: q in g.processes ==> q.uid != "")
      && (doubtful ==> exists q :: q in g.processes && q.uid == "")
  }

  // A card that every report shows in use is in use for all of its valid time, one that no
  // report shows in use is never. If every report knows the users, all of its valid time is
  // attributed, and if each has one process of an unknown user, none is.
  lemma {:induction false} UseIsAsReported(ops: seq<Op>, k: CellKey)
    requires Coherent(ops) && Clocked(ops) && IsBucket(k.res, k.bucket) && k.user == ""
    ensures var a := Read(Run(ops).rollups, k);
            && (KnownReports(ops, k.node, k.uuid, true, false, false, false) ==> a.occupied == a.occupancyValid)
            && (KnownReports(ops, k.node, k.uuid, false, true, false, false) ==> a.occupied == 0.0)
            && (KnownReports(ops, k.node, k.uuid, false, false, true, false) ==> a.attributionValid == a.occupancyValid)
            && (KnownReports(ops, k.node, k.uuid, false, false, false, true) ==> a.attributionValid == 0.0)
  {
    hide Run, Coherent, Clocked, Aligned, Read, Reported;
    if KnownReports(ops, k.node, k.uuid, true, false, false, false) {
      RowsObey(AlwaysInUse, ops, k);
    }
    if KnownReports(ops, k.node, k.uuid, false, true, false, false) {
      RowsObey(NeverInUse, ops, k);
    }
    if KnownReports(ops, k.node, k.uuid, false, false, true, false) {
      RowsObey(AlwaysAttributed, ops, k);
    }
    if KnownReports(ops, k.node, k.uuid, false, false, false, true) {
      RowsObey(NeverAttributed, ops, k);
    }
  }

  // Every value that the card was reported with, when it could be queried, lies in a range.
  ghost predicate MemoryReported(ops: seq<Op>, node: string, uuid: string, lo: real, hi: real) {
    forall g :: Reported(ops, node, uuid, g) && g.status == "ok" && g.memoryUsed.Some? ==> lo <= g.memoryUsed.value <= hi
  }

  ghost predicate UtilReported(ops: seq<Op>, node: string, uuid: string, lo: real, hi: real) {
    forall g :: Reported(ops, node, uuid, g) && g.status == "ok" && g.util.Some? ==> lo <= g.util.value <= hi
  }

  // The integrals of memory and utilisation lie between the least and the greatest report,
  // times the valid time.
  lemma {:induction false} ValuesAsReported(ops: seq<Op>, k: CellKey, lo: real, hi: real)
    requires Coherent(ops) && Clocked(ops) && IsBucket(k.res, k.bucket) && k.user == ""
    ensures MemoryReported(ops, k.node, k.uuid, lo, hi) ==> Obeys(MemoryWithin(lo, hi), Read(Run(ops).rollups, k))
    ensures UtilReported(ops, k.node, k.uuid, lo, hi) ==> Obeys(UtilWithin(lo, hi), Read(Run(ops).rollups, k))
  {
    hide Run, Coherent, Clocked, Aligned, Read, Obeys, Reported, LookObeys;
    if MemoryReported(ops, k.node, k.uuid, lo, hi) {
      forall g | Reported(ops, k.node, k.uuid, g)
        ensures LookObeys(MemoryWithin(lo, hi), "", Some(g))
      {
        MemoryLook(g, lo, hi);
      }
      RowsObey(MemoryWithin(lo, hi), ops, k);
    }
    if UtilReported(ops, k.node, k.uuid, lo, hi) {
      forall g | Reported(ops, k.node, k.uuid, g)
        ensures LookObeys(UtilWithin(lo, hi), "", Some(g))
      {
        UtilLook(g, lo, hi);
      }
      RowsObey(UtilWithin(lo, hi), ops, k);
    }
  }

  lemma MemoryLook(g: Gpu, lo: real, hi: real)
    requires g.status == "ok" && g.memoryUsed.Some? ==> lo <= g.memoryUsed.value <= hi
    ensures LookObeys(MemoryWithin(lo, hi), "", Some(g))
  {
    TimesOne(lo);
    TimesOne(hi);
  }

  lemma UtilLook(g: Gpu, lo: real, hi: real)
    requires g.status == "ok" && g.util.Some? ==> lo <= g.util.value <= hi
    ensures LookObeys(UtilWithin(lo, hi), "", Some(g))
  {
    TimesOne(lo);
    TimesOne(hi);
  }
  /******* A user beside the card *******/

  // Every report that knows the use of the card lists a process of the user.
  ghost predicate AlwaysRuns(ops: seq<Op>, node: string, uuid: string, user: string) {
    forall g :: Reported(ops, node, uuid, g) && g.status == "ok" && g.processStatus == "ok" ==> exists q :: q in g.processes && q.uid == user
  }

  // What the user has is what the card has of valid time.
  predicate AllHis(user: Amounts, card: Amounts) {
    user.occupied == card.occupancyValid
  }

  lemma {:induction false} HisThen(v: seq<Sighting>, t: int, user: string)
    requires forall x :: x in v ==> AllHis(Worth(x.card, user), Worth(x.card, ""))
    ensures AllHis(WorthAt(v, t, user), WorthAt(v, t, ""))
  {
    hide Worth;
    if |v| >= 2 {
      assert v[|v| - 2] in v;
      HisThen(v[..|v| - 1], t, user);
    }
  }

  lemma {:induction false} HisOverTime(v: seq<Sighting>, user: string, from: int, to: int)
    requires forall x :: x in v ==> AllHis(Worth(x.card, user), Worth(x.card, ""))
    ensures AllHis(OverTime(v, user, from, to), OverTime(v, "", from, to))
    decreases (to - from)
  {
    hide Worth, WorthAt;
    if from < to {
      HisOverTime(v, user, from, to - 1);
      HisThen(v, to - 1, user);
    }
  }

  lemma {:induction false} HisSum<K>(m: map<K, Amounts>, n: map<K, Amounts>, keys: set<K>)
    requires keys <= m.Keys && keys <= n.Keys && forall i :: i in keys ==> AllHis(m[i], n[i])
    ensures AllHis(SumOver(m, keys), SumOver(n, keys))
  {
    if keys != {} {
      var i :| i in keys;
      SumPick(m, keys, i);
      SumPick(n, keys, i);
      HisSum(m, n, keys - {i});
    }
  }

  // A user whom every report shows on the card has all of its valid time.
  lemma {:induction false} UserHasAll(ops: seq<Op>, k: CellKey)
    requires Coherent(ops) && Clocked(ops) && IsBucket(k.res, k.bucket) && k.user != ""
    requires AlwaysRuns(ops, k.node, k.uuid, k.user)
    ensures Read(Run(ops).rollups, k).occupied == Read(Run(ops).rollups, k.(user := "")).occupancyValid
  {
    hide Run, OverTime, Looks, Coherent, Clocked, Aligned, SumOver, Read, AllHis, AlwaysRuns;
    var card := k.(user := "");
    if Expired(k, LastPrune(ops)) {
      EveryCell(ops, k);
      EveryCell(ops, card);
    } else {
      RowIsOverTime(ops, k);
      RowIsOverTime(ops, card);
      var his, all := Parts(ops, k), Parts(ops, card);
      forall boot | boot in his
        ensures AllHis(his[boot], all[boot])
      {
        HisPart(ops, k, boot);
      }
      assert his.Keys == all.Keys;
      HisSum(his, all, his.Keys);
      AllHisIs(Sum(his), Sum(all));
    }
  }

  lemma AllHisIs(user: Amounts, card: Amounts)
    requires AllHis(user, card)
    ensures user.occupied == card.occupancyValid
  {
  }

  lemma HisPart(ops: seq<Op>, k: CellKey, boot: string)
    requires Coherent(ops) && Clocked(ops) && k.user != "" && AlwaysRuns(ops, k.node, k.uuid, k.user)
    ensures var v := Looks(ops, Chain(k.node, k.uuid, boot));
            AllHis(OverTime(v, k.user, k.bucket, k.bucket + k.res), OverTime(v, "", k.bucket, k.bucket + k.res))
  {
    hide OverTime, Looks, Coherent, Clocked;
    var c := Chain(k.node, k.uuid, boot);
    forall x | x in Looks(ops, c)
      ensures AllHis(Worth(x.card, k.user), Worth(x.card, ""))
    {
      var op := LookSaid(ops, c, x);
      assert x.card.Some? ==> Reported(ops, k.node, k.uuid, x.card.value);
    }
    HisOverTime(Looks(ops, c), k.user, k.bucket, k.bucket + k.res);
  }
}
