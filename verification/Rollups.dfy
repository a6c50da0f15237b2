/**
 The contribution of one edge to the rollups (internal/hub/rollups.go): the state
 seen at the left point is integrated over [a.at, b.at) and cut at minute and hour
 boundaries. EdgeCell is the reference definition, by overlap of intervals; the
 method Contributions is the loop, and is proved to add up to EdgeCell in every cell.
 */
module Rollups {
  import opened Wrappers
  import opened Amounts

  const MINUTE: int := 60_000
  const HOUR: int := 3_600_000

  // The least state a stored observation needs for the integral.
  datatype Point = Point(
    at: nat,
    interval: int,
    number: int,
    status: string,
    occupied: bool,
    processValid: bool,
    userValid: bool,
    users: set<string>,
    util: Option<real>,
    memory: Option<real>)

  // The primary key of the rollups table. The empty user is the whole card.
  datatype CellKey = CellKey(node: string, uuid: string, user: string, res: int, bucket: int)

  datatype Contribution = Contribution(key: CellKey, amounts: Amounts)

  function Min(a: int, b: int): int {
    if a <= b then a else b
  }

  function Max(a: int, b: int): int {
    if a <= b then b else a
  }

  // The length of [lo, hi) intersected with [from, to).
  function Overlap(lo: int, hi: int, from: int, to: int): nat {
    Max(0, Min(hi, to) - Max(lo, from))
  }

  function Seconds(ms: int): real {
    ms as real / 1000.0
  }

  // A gap longer than twice the sampling interval is unknown time.
  predicate Joinable(a: Point, b: Point) {
    a.at < b.at && b.at - a.at <= 2 * a.interval * 1000
  }

  function Times(sec: real, rate: real): real {
    sec * rate
  }

  function CardShare(a: Point, sec: real): Amounts {
    Amounts(
      if a.processValid && a.occupied then sec else 0.0,
      if a.util.Some? then Times(sec, a.util.value) / 100.0 else 0.0,
      if a.processValid then sec else 0.0,
      if a.util.Some? then sec else 0.0,
      if a.memory.Some? then Times(sec, a.memory.value) else 0.0,
      if a.memory.Some? then sec else 0.0,
      if a.processValid && a.userValid then sec else 0.0)
  }

  function UserShare(sec: real): Amounts {
    ZERO.(occupied := sec, occupancyValid := sec)
  }

  // What sec seconds in the state of a add to the row of a user, or of the card.
  function StateShare(a: Point, user: string, sec: real): Amounts {
    Add(
      if user == "" then CardShare(a, sec) else ZERO,
      if a.processValid && user in a.users then UserShare(sec) else ZERO)
  }

  // The integral of the edge a -> b restricted to the window [from, to).
  function Window(a: Point, b: Point, user: string, from: int, to: int): Amounts {
    if Joinable(a, b) then StateShare(a, user, Seconds(Overlap(a.at, b.at, from, to))) else ZERO
  }

  type Resolution = r: int | r == MINUTE || r == HOUR witness MINUTE

  predicate Aligned(t: int, res: Resolution) {
    if res == MINUTE then t % 60_000 == 0 else t % 3_600_000 == 0
  }

  // The bucket that holds a time: BucketOf(start, res), for either resolution.
  function BucketOf(t: int, res: Resolution): (bucket: int)
    ensures Aligned(bucket, res) && bucket <= t < bucket + res
  {
    if res == MINUTE then MinuteOf(t) else HourOf(t)
  }

  function MinuteOf(t: int): (m: int)
    ensures m % 60_000 == 0 && m <= t < m + 60_000
  {
    t / 60_000 * 60_000
  }

  function HourOf(t: int): (h: int)
    ensures h % 3_600_000 == 0 && h <= t < h + 3_600_000
  {
    t / 3_600_000 * 3_600_000
  }

  // That bucket is the only aligned window that holds the time.
  lemma BucketUnique(t: int, bucket: int, res: Resolution)
    requires Aligned(bucket, res) && bucket <= t < bucket + res
    ensures BucketOf(t, res) == bucket
  {
    if res == MINUTE {
      assert bucket == bucket / 60_000 * 60_000;
      assert t / 60_000 == bucket / 60_000;
    } else {
      assert bucket == bucket / 3_600_000 * 3_600_000;
      assert t / 3_600_000 == bucket / 3_600_000;
    }
  }

  predicate IsBucket(res: int, bucket: int) {
    (res == MINUTE || res == HOUR) && Aligned(bucket, res)
  }

  // The reference value of the cell k for the edge a -> b of one card.
  function EdgeCell(node: string, uuid: string, a: Point, b: Point, k: CellKey): Amounts {
    if k.node == node && k.uuid == uuid && IsBucket(k.res, k.bucket)
    then Window(a, b, k.user, k.bucket, k.bucket + k.res)
    else ZERO
  }

  // What a list of contributions adds to the cell k.
  function SumFor(cs: seq<Contribution>, k: CellKey): Amounts {
    if cs == [] then ZERO
    else
      var last := cs[|cs| - 1];
      Add(SumFor(cs[..|cs| - 1], k), if last.key == k then last.amounts else ZERO)
  }

  lemma {:induction false} SumForConcat(cs: seq<Contribution>, ds: seq<Contribution>, k: CellKey)
    ensures SumFor(cs + ds, k) == Add(SumFor(cs, k), SumFor(ds, k))
    decreases |ds|
  {
    if ds == [] {
      assert cs + ds == cs;
    } else {
      assert (cs + ds)[..|cs + ds| - 1] == cs + ds[..|ds| - 1];
      SumForConcat(cs, ds[..|ds| - 1], k);
    }
  }

  lemma SumForAppend(cs: seq<Contribution>, c: Contribution, k: CellKey)
    ensures SumFor(cs + [c], k) == Add(SumFor(cs, k), if c.key == k then c.amounts else ZERO)
  {
    assert (cs + [c])[..|cs|] == cs;
  }

  lemma Distribute(s: real, t: real, rate: real)
    ensures Times(s + t, rate) == Times(s, rate) + Times(t, rate)
  {
  }

  lemma CardShareAdd(a: Point, s: real, t: real)
    ensures CardShare(a, s + t) == Add(CardShare(a, s), CardShare(a, t))
  {
    hide Times;
    if a.util.Some? {
      Distribute(s, t, a.util.value);
    }
    if a.memory.Some? {
      Distribute(s, t, a.memory.value);
    }
  }

  lemma StateShareAdd(a: Point, user: string, s: real, t: real)
    ensures StateShare(a, user, s + t) == Add(StateShare(a, user, s), StateShare(a, user, t))
  {
    hide CardShare;
    CardShareAdd(a, s, t);
  }

  lemma StateShareZero(a: Point, user: string)
    ensures StateShare(a, user, 0.0) == ZERO
  {
  }

  /******* Part of a stretch *******/

  function Scale(r: real, a: Amounts): Amounts {
    Amounts(
      Times(r, a.occupied),
      Times(r, a.weighted),
      Times(r, a.occupancyValid),
      Times(r, a.utilValid),
      Times(r, a.memorySum),
      Times(r, a.memoryValid),
      Times(r, a.attributionValid))
  }

  lemma TimesZero(r: real)
    ensures Times(r, 0.0) == 0.0 && Times(0.0, r) == 0.0
  {
  }

  lemma TimesAssociates(r: real, s: real, v: real)
    ensures Times(Times(r, s), v) == Times(r, Times(s, v))
    ensures Times(Times(r, s), v) / 100.0 == Times(r, Times(s, v) / 100.0)
  {
  }

  lemma CardScales(a: Point, r: real, s: real)
    ensures CardShare(a, Times(r, s)) == Scale(r, CardShare(a, s))
  {
    hide Times;
    TimesZero(r);
    if a.util.Some? {
      TimesAssociates(r, s, a.util.value);
    }
    if a.memory.Some? {
      TimesAssociates(r, s, a.memory.value);
    }
  }

  lemma ScaleAdd(r: real, a: Amounts, b: Amounts)
    ensures Scale(r, Add(a, b)) == Add(Scale(r, a), Scale(r, b))
  {
  }

  lemma ShareScales(a: Point, user: string, r: real, s: real)
    ensures StateShare(a, user, Times(r, s)) == Scale(r, StateShare(a, user, s))
  {
    hide Times, CardShare;
    TimesZero(r);
    CardScales(a, r, s);
    assert Scale(r, ZERO) == ZERO;
    assert UserShare(Times(r, s)) == Scale(r, UserShare(s));
    ScaleAdd(r, if user == "" then CardShare(a, s) else ZERO, if a.processValid && user in a.users then UserShare(s) else ZERO);
  }

  lemma TimesCancels(r: real, x: real, y: real)
    requires r != 0.0 && Times(r, x) == Times(r, y)
    ensures x == y
  {
  }

  lemma ScaleCancels(r: real, a: Amounts, b: Amounts)
    requires r != 0.0 && Scale(r, a) == Scale(r, b)
    ensures a == b
  {
    hide Times;
    TimesCancels(r, a.occupied, b.occupied);
    TimesCancels(r, a.weighted, b.weighted);
    TimesCancels(r, a.occupancyValid, b.occupancyValid);
    TimesCancels(r, a.utilValid, b.utilValid);
    TimesCancels(r, a.memorySum, b.memorySum);
    TimesCancels(r, a.memoryValid, b.memoryValid);
    TimesCancels(r, a.attributionValid, b.attributionValid);
  }

  lemma ScaleZero(r: real)
    ensures Scale(r, ZERO) == ZERO
    ensures forall a :: Scale(0.0, a) == ZERO
  {
  }

  lemma ScaleOne(a: Amounts)
    ensures Scale(1.0, a) == a
  {
  }

  /******* Cutting an interval at bucket boundaries *******/

  datatype Cut = Cut(start: int, end: int, bucket: int)

  // The pieces that the loop visits for one resolution, in order.
  function Cuts(lo: int, hi: int, res: Resolution): seq<Cut>
    decreases hi - lo
  {
    if lo >= hi then []
    else
      var bucket := BucketOf(lo, res);
      var end := Min(hi, bucket + res);
      [Cut(lo, end, bucket)] + Cuts(end, hi, res)
  }

  // The pieces lie end to end, each inside its own bucket, and cover exactly [lo, hi).
  ghost predicate Tiles(cuts: seq<Cut>, lo: int, hi: int, res: Resolution) {
    && (cuts == [] <==> lo >= hi)
    && (cuts != [] ==> cuts[0].start == lo && cuts[|cuts| - 1].end == hi)
    && (forall i :: 0 <= i < |cuts| ==>
          Aligned(cuts[i].bucket, res) && cuts[i].bucket <= cuts[i].start < cuts[i].end <= cuts[i].bucket + res)
    && (forall i, j :: 0 <= i && j == i + 1 && j < |cuts| ==>
          cuts[j].start == cuts[i].end && cuts[j].bucket == cuts[i].bucket + res)
  }

  lemma {:induction false} CutsTile(lo: int, hi: int, res: Resolution)
    ensures Tiles(Cuts(lo, hi, res), lo, hi, res)
    decreases hi - lo
  {
    hide Tiles, Aligned, BucketOf;
    if lo >= hi {
      TilesNothing(lo, hi, res);
    }
    if lo < hi {
      var bucket := BucketOf(lo, res);
      var end := Min(hi, bucket + res);
      CutsTile(end, hi, res);
      if end < hi {
        NextBucket(bucket, res);
        FirstCut(end, hi, res);
      }
      TilesCons(Cut(lo, end, bucket), Cuts(end, hi, res), hi, res);
    }
  }

  lemma NextBucket(bucket: int, res: Resolution)
    requires Aligned(bucket, res)
    ensures BucketOf(bucket + res, res) == bucket + res
  {
    BucketUnique(bucket + res, bucket + res, res);
  }

  lemma FirstCut(lo: int, hi: int, res: Resolution)
    requires lo < hi
    ensures Cuts(lo, hi, res) != [] && Cuts(lo, hi, res)[0].bucket == BucketOf(lo, res)
  {
    hide BucketOf;
  }

  lemma TilesNothing(lo: int, hi: int, res: Resolution)
    requires lo >= hi
    ensures Tiles([], lo, hi, res)
  {
  }

  lemma TilesCons(cut: Cut, rest: seq<Cut>, hi: int, res: Resolution)
    requires Aligned(cut.bucket, res) && cut.bucket <= cut.start < cut.end <= cut.bucket + res && cut.end <= hi
    requires Tiles(rest, cut.end, hi, res)
    requires rest != [] ==> rest[0].bucket == cut.bucket + res
    ensures Tiles([cut] + rest, cut.start, hi, res)
  {
    hide Aligned;
    var cuts := [cut] + rest;
    assert forall i :: 1 <= i < |cuts| ==> cuts[i] == rest[i - 1];
    forall i, j | 0 <= i && j == i + 1 && j < |cuts|
      ensures cuts[j].start == cuts[i].end && cuts[j].bucket == cuts[i].bucket + res
    {
      if i > 0 {
        assert rest[j - 1].start == rest[i - 1].end;
      }
    }
  }

  lemma OneCut(lo: int, hi: int, res: Resolution)
    requires lo < hi <= BucketOf(lo, res) + res
    ensures |Cuts(lo, hi, res)| == 1
  {
  }

  lemma OneMoreCut(lo: int, hi: int, res: Resolution)
    requires BucketOf(lo, res) + res < hi
    ensures BucketOf(BucketOf(lo, res) + res, res) == BucketOf(lo, res) + res
    ensures |Cuts(lo, hi, res)| == 1 + |Cuts(BucketOf(lo, res) + res, hi, res)|
  {
    BucketUnique(BucketOf(lo, res) + res, BucketOf(lo, res) + res, res);
  }

  // An edge the hub accepts is at most 120 s long, so it meets few buckets.
  lemma EdgeTouchesFewBuckets(a: Point, b: Point)
    requires Joinable(a, b) && a.interval <= 60
    ensures 1 <= |Cuts(a.at, b.at, MINUTE)| <= 3
    ensures 1 <= |Cuts(a.at, b.at, HOUR)| <= 2
  {
    hide BucketOf, Cuts;
    AtMostTwoCuts(a.at, b.at, HOUR);
    var first := BucketOf(a.at, MINUTE);
    if first + MINUTE < b.at {
      OneMoreCut(a.at, b.at, MINUTE);
      AtMostTwoCuts(first + MINUTE, b.at, MINUTE);
    } else {
      OneCut(a.at, b.at, MINUTE);
    }
  }

  lemma AtMostTwoCuts(lo: int, hi: int, res: Resolution)
    requires lo < hi <= BucketOf(lo, res) + 2 * res
    ensures 1 <= |Cuts(lo, hi, res)| <= 2
  {
    hide BucketOf, Cuts;
    if BucketOf(lo, res) + res < hi {
      OneMoreCut(lo, hi, res);
      OneCut(BucketOf(lo, res) + res, hi, res);
    } else {
      OneCut(lo, hi, res);
    }
  }

  // The whole-card contributions of one resolution, in order.
  function CardRows(cs: seq<Contribution>, res: int): seq<Contribution> {
    if cs == [] then []
    else
      var last := cs[|cs| - 1];
      CardRows(cs[..|cs| - 1], res) + (if last.key.user == "" && last.key.res == res then [last] else [])
  }

  function CardRow(node: string, uuid: string, a: Point, res: int, cut: Cut): Contribution {
    Contribution(CellKey(node, uuid, "", res, cut.bucket), CardShare(a, Seconds(cut.end - cut.start)))
  }

  function RowsOfCuts(node: string, uuid: string, a: Point, res: int, cuts: seq<Cut>): seq<Contribution> {
    if cuts == [] then []
    else RowsOfCuts(node, uuid, a, res, cuts[..|cuts| - 1]) + [CardRow(node, uuid, a, res, cuts[|cuts| - 1])]
  }

  lemma {:induction false} CardRowsConcat(cs: seq<Contribution>, ds: seq<Contribution>, res: int)
    ensures CardRows(cs + ds, res) == CardRows(cs, res) + CardRows(ds, res)
    decreases |ds|
  {
    if ds == [] {
      assert cs + ds == cs;
    } else {
      assert (cs + ds)[..|cs + ds| - 1] == cs + ds[..|ds| - 1];
      CardRowsConcat(cs, ds[..|ds| - 1], res);
    }
  }

  // The part of a cell that the pieces before start account for.
  function PartialCell(node: string, uuid: string, a: Point, start: int, k: CellKey): Amounts {
    if k.node == node && k.uuid == uuid && IsBucket(k.res, k.bucket)
    then StateShare(a, k.user, Seconds(Overlap(a.at, start, k.bucket, k.bucket + k.res)))
    else ZERO
  }

  function PieceCell(node: string, uuid: string, a: Point, res: int, bucket: int, sec: real, k: CellKey): Amounts {
    if k.node == node && k.uuid == uuid && k.res == res && k.bucket == bucket then StateShare(a, k.user, sec) else ZERO
  }

  lemma PieceStep(node: string, uuid: string, a: Point, res: Resolution, start: int, end: int, k: CellKey)
    requires k.res == res
    requires a.at <= start < end <= BucketOf(start, res) + res
    ensures PartialCell(node, uuid, a, end, k)
         == Add(PartialCell(node, uuid, a, start, k),
                PieceCell(node, uuid, a, res, BucketOf(start, res), Seconds(end - start), k))
  {
    hide Overlap, StateShare, BucketOf, Aligned;
    if Aligned(k.bucket, res) {
      OverlapStep(a.at, start, end, res, k.bucket);
      var before := Seconds(Overlap(a.at, start, k.bucket, k.bucket + res));
      if k.bucket == BucketOf(start, res) {
        SecondsAdd(Overlap(a.at, start, k.bucket, k.bucket + res), end - start);
        StateShareAdd(a, k.user, before, Seconds(end - start));
      } else {
        AddZero(StateShare(a, k.user, before));
      }
    } else {
      AddZero(ZERO);
    }
  }

  lemma SecondsAdd(s: int, t: int)
    ensures Seconds(s + t) == Seconds(s) + Seconds(t)
  {
  }

  // A piece of time lies in one bucket only.
  lemma OverlapStep(lo: int, start: int, end: int, res: Resolution, bucket: int)
    requires lo <= start < end <= BucketOf(start, res) + res && Aligned(bucket, res)
    ensures Overlap(lo, end, bucket, bucket + res)
         == Overlap(lo, start, bucket, bucket + res) + (if bucket == BucketOf(start, res) then end - start else 0)
  {
    hide BucketOf, Aligned;
    if bucket != BucketOf(start, res) {
      AlignedApart(BucketOf(start, res), bucket, res);
    }
  }

  lemma AlignedApart(b: int, c: int, res: Resolution)
    requires Aligned(b, res) && Aligned(c, res) && b != c
    ensures b + res <= c || c + res <= b
  {
  }

  /******* The loop *******/

  // The rollups table as a total function of its key: a missing row reads as zero.
  type Totals = imap<CellKey, Amounts>

  ghost function Cells(cs: seq<Contribution>): Totals {
    imap k: CellKey :: SumFor(cs, k)
  }

  ghost function EdgeCells(node: string, uuid: string, a: Point, b: Point): Totals {
    imap k: CellKey :: EdgeCell(node, uuid, a, b, k)
  }

  ghost function PartialCells(node: string, uuid: string, a: Point, res: Resolution, start: int): Totals {
    imap k: CellKey :: if k.res == res then PartialCell(node, uuid, a, start, k) else ZERO
  }

  ghost function PieceCells(node: string, uuid: string, a: Point, res: int, bucket: int, sec: real): Totals {
    imap k: CellKey :: PieceCell(node, uuid, a, res, bucket, sec, k)
  }

  // What one piece has added once the card and the given users are written.
  ghost function PieceSoFar(node: string, uuid: string, res: int, bucket: int, card: Amounts, sec: real, users: set<string>): Totals {
    imap k: CellKey :: PieceSoFarCell(node, uuid, res, bucket, card, sec, users, k)
  }

  function PieceSoFarCell(node: string, uuid: string, res: int, bucket: int, card: Amounts, sec: real, users: set<string>, k: CellKey): Amounts {
    if k.node == node && k.uuid == uuid && k.res == res && k.bucket == bucket
    then Add(if k.user == "" then card else ZERO, if k.user in users then UserShare(sec) else ZERO)
    else ZERO
  }

  lemma PieceUserCell(rows: seq<Contribution>, node: string, uuid: string, res: int, bucket: int, card: Amounts, sec: real,
                      users: set<string>, uid: string, k: CellKey)
    requires SumFor(rows, k) == PieceSoFarCell(node, uuid, res, bucket, card, sec, users, k)
    requires uid !in users
    ensures SumFor(rows + [Contribution(CellKey(node, uuid, uid, res, bucket), UserShare(sec))], k)
         == PieceSoFarCell(node, uuid, res, bucket, card, sec, users + {uid}, k)
  {
    SumForAppend(rows, Contribution(CellKey(node, uuid, uid, res, bucket), UserShare(sec)), k);
  }

  lemma SumForOne(c: Contribution, k: CellKey)
    ensures SumFor([c], k) == if c.key == k then c.amounts else ZERO
  {
    assert [c][..0] == [];
  }

  lemma PieceFirst(node: string, uuid: string, res: int, bucket: int, card: Amounts, sec: real)
    ensures Cells([Contribution(CellKey(node, uuid, "", res, bucket), card)])
         == PieceSoFar(node, uuid, res, bucket, card, sec, {})
    ensures CardRows([Contribution(CellKey(node, uuid, "", res, bucket), card)], res)
         == [Contribution(CellKey(node, uuid, "", res, bucket), card)]
  {
    hide SumFor, CardRows, PieceSoFarCell;
    var c := Contribution(CellKey(node, uuid, "", res, bucket), card);
    CardRowsOne(c);
    forall k: CellKey
      ensures SumFor([c], k) == PieceSoFarCell(node, uuid, res, bucket, card, sec, {}, k)
    {
      PieceFirstCell(node, uuid, res, bucket, card, sec, k);
    }
  }

  lemma PieceFirstCell(node: string, uuid: string, res: int, bucket: int, card: Amounts, sec: real, k: CellKey)
    ensures SumFor([Contribution(CellKey(node, uuid, "", res, bucket), card)], k)
         == PieceSoFarCell(node, uuid, res, bucket, card, sec, {}, k)
  {
    hide SumFor;
    SumForOne(Contribution(CellKey(node, uuid, "", res, bucket), card), k);
    AddZero(card);
  }

  lemma CardRowsOne(c: Contribution)
    requires c.key.user == ""
    ensures CardRows([c], c.key.res) == [c]
  {
    assert [c][..0] == [];
  }

  lemma PieceUser(rows: seq<Contribution>, node: string, uuid: string, res: int, bucket: int, card: Amounts, sec: real,
                  users: set<string>, uid: string)
    requires Cells(rows) == PieceSoFar(node, uuid, res, bucket, card, sec, users)
    requires uid !in users
    ensures Cells(rows + [Contribution(CellKey(node, uuid, uid, res, bucket), UserShare(sec))])
         == PieceSoFar(node, uuid, res, bucket, card, sec, users + {uid})
    ensures uid != "" ==>
              CardRows(rows + [Contribution(CellKey(node, uuid, uid, res, bucket), UserShare(sec))], res) == CardRows(rows, res)
  {
    hide SumFor, PieceSoFarCell, UserShare;
    var row := Contribution(CellKey(node, uuid, uid, res, bucket), UserShare(sec));
    assert (rows + [row])[..|rows|] == rows;
    forall k: CellKey
      ensures SumFor(rows + [row], k) == PieceSoFarCell(node, uuid, res, bucket, card, sec, users + {uid}, k)
    {
      assert Cells(rows)[k] == PieceSoFar(node, uuid, res, bucket, card, sec, users)[k];
      PieceUserCell(rows, node, uuid, res, bucket, card, sec, users, uid, k);
    }
  }

  lemma PieceDone(node: string, uuid: string, a: Point, res: int, bucket: int, sec: real)
    ensures PieceSoFar(node, uuid, res, bucket, CardShare(a, sec), sec, if a.processValid then a.users else {})
         == PieceCells(node, uuid, a, res, bucket, sec)
  {
  }

  // The contributions of one piece: the card, then each known user once.
  method PieceRows(node: string, uuid: string, a: Point, res: int, bucket: int, sec: real)
      returns (rows: seq<Contribution>)
    ensures Cells(rows) == PieceCells(node, uuid, a, res, bucket, sec)
    ensures "" !in a.users ==>
              CardRows(rows, res) == [Contribution(CellKey(node, uuid, "", res, bucket), CardShare(a, sec))]
    ensures forall i :: 0 <= i < |rows| ==> rows[i].key.res == res
  {
    hide CardShare, UserShare, SumFor, CardRows, PieceSoFarCell, PieceCell;
    var card := CardShare(a, sec);
    rows := [Contribution(CellKey(node, uuid, "", res, bucket), card)];
    PieceFirst(node, uuid, res, bucket, card, sec);
    if a.processValid {
      var rest := a.users;
      ghost var done: set<string> := {};
      while rest != {}
        invariant rest <= a.users && done == a.users - rest
        invariant Cells(rows) == PieceSoFar(node, uuid, res, bucket, card, sec, done)
        invariant "" !in a.users ==> CardRows(rows, res) == [Contribution(CellKey(node, uuid, "", res, bucket), card)]
        invariant forall i :: 0 <= i < |rows| ==> rows[i].key.res == res
        decreases rest
      {
        var uid :| uid in rest;
        PieceUser(rows, node, uuid, res, bucket, card, sec, done, uid);
        rows := rows + [Contribution(CellKey(node, uuid, uid, res, bucket), UserShare(sec))];
        rest := rest - {uid};
        done := done + {uid};
      }
      assert done == a.users;
    }
    PieceDone(node, uuid, a, res, bucket, sec);
  }

  lemma NothingYet(node: string, uuid: string, a: Point, res: Resolution)
    ensures Cells([]) == PartialCells(node, uuid, a, res, a.at)
  {
    hide StateShare, Aligned;
    forall k: CellKey
      ensures PartialCell(node, uuid, a, a.at, k) == ZERO
    {
      StateShareZero(a, k.user);
      assert Seconds(0) == 0.0;
    }
  }

  lemma AppendPiece(node: string, uuid: string, a: Point, res: Resolution, start: int, end: int,
                    out: seq<Contribution>, rows: seq<Contribution>)
    requires a.at <= start < end <= BucketOf(start, res) + res
    requires Cells(out) == PartialCells(node, uuid, a, res, start)
    requires Cells(rows) == PieceCells(node, uuid, a, res, BucketOf(start, res), Seconds(end - start))
    ensures Cells(out + rows) == PartialCells(node, uuid, a, res, end)
  {
    forall k: CellKey
      ensures SumFor(out + rows, k) == if k.res == res then PartialCell(node, uuid, a, end, k) else ZERO
    {
      assert Cells(out)[k] == PartialCells(node, uuid, a, res, start)[k];
      assert Cells(rows)[k] == PieceCells(node, uuid, a, res, BucketOf(start, res), Seconds(end - start))[k];
      AppendPieceCell(node, uuid, a, res, start, end, out, rows, k);
    }
  }

  lemma AppendPieceCell(node: string, uuid: string, a: Point, res: Resolution, start: int, end: int,
                        out: seq<Contribution>, rows: seq<Contribution>, k: CellKey)
    requires a.at <= start < end <= BucketOf(start, res) + res
    requires SumFor(out, k) == if k.res == res then PartialCell(node, uuid, a, start, k) else ZERO
    requires SumFor(rows, k) == PieceCell(node, uuid, a, res, BucketOf(start, res), Seconds(end - start), k)
    ensures SumFor(out + rows, k) == if k.res == res then PartialCell(node, uuid, a, end, k) else ZERO
  {
    SumForConcat(out, rows, k);
    if k.res == res {
      PieceStep(node, uuid, a, res, start, end, k);
    }
  }

  lemma CutsSnoc(node: string, uuid: string, a: Point, res: Resolution, done: seq<Cut>, start: int, hi: int)
    requires start < hi
    ensures var bucket := BucketOf(start, res);
            var cut := Cut(start, Min(hi, bucket + res), bucket);
            && done + Cuts(start, hi, res) == (done + [cut]) + Cuts(cut.end, hi, res)
            && RowsOfCuts(node, uuid, a, res, done + [cut])
               == RowsOfCuts(node, uuid, a, res, done) + [CardRow(node, uuid, a, res, cut)]
  {
    var bucket := BucketOf(start, res);
    var cut := Cut(start, Min(hi, bucket + res), bucket);
    assert (done + [cut])[..|done|] == done;
  }

  // What the inner loop keeps: the cells written so far, and the cuts that they come from.
  ghost predicate UpTo(node: string, uuid: string, a: Point, b: Point, res: Resolution, start: int,
                       out: seq<Contribution>, done: seq<Cut>)
  {
    && Cells(out) == PartialCells(node, uuid, a, res, start)
    && Cuts(a.at, b.at, res) == done + Cuts(start, b.at, res)
    && ("" !in a.users ==> CardRows(out, res) == RowsOfCuts(node, uuid, a, res, done))
    && (forall i :: 0 <= i < |out| ==> out[i].key.res == res)
  }

  lemma LoopStart(node: string, uuid: string, a: Point, b: Point, res: Resolution)
    ensures UpTo(node, uuid, a, b, res, a.at, [], [])
  {
    hide Cells, PartialCells, Cuts;
    NothingYet(node, uuid, a, res);
  }

  lemma LoopEnd(node: string, uuid: string, a: Point, b: Point, res: Resolution, out: seq<Contribution>, done: seq<Cut>)
    requires UpTo(node, uuid, a, b, res, b.at, out, done)
    ensures Cells(out) == PartialCells(node, uuid, a, res, b.at)
    ensures "" !in a.users ==> CardRows(out, res) == RowsOfCuts(node, uuid, a, res, Cuts(a.at, b.at, res))
    ensures forall i :: 0 <= i < |out| ==> out[i].key.res == res
  {
    hide Cells, PartialCells, RowsOfCuts, CardRows;
    assert done + [] == done;
  }

  lemma OnePiece(node: string, uuid: string, a: Point, b: Point, res: Resolution, start: int,
                 out: seq<Contribution>, done: seq<Cut>, rows: seq<Contribution>, cut: Cut)
    requires a.at <= start < b.at && UpTo(node, uuid, a, b, res, start, out, done)
    requires cut == Cut(start, Min(b.at, BucketOf(start, res) + res), BucketOf(start, res))
    requires Cells(rows) == PieceCells(node, uuid, a, res, cut.bucket, Seconds(cut.end - cut.start))
    requires "" !in a.users ==> CardRows(rows, res) == [CardRow(node, uuid, a, res, cut)]
    requires forall i :: 0 <= i < |rows| ==> rows[i].key.res == res
    ensures UpTo(node, uuid, a, b, res, cut.end, out + rows, done + [cut])
  {
    AppendPiece(node, uuid, a, res, start, cut.end, out, rows);
    CardRowsConcat(out, rows, res);
    CutsSnoc(node, uuid, a, res, done, start, b.at);
  }

  // The inner loop of Contributions: start moves from a.at to b.at one piece at a time.
  method OneResolution(node: string, uuid: string, a: Point, b: Point, res: Resolution) returns (out: seq<Contribution>)
    requires a.at < b.at
    ensures Cells(out) == PartialCells(node, uuid, a, res, b.at)
    ensures "" !in a.users ==> CardRows(out, res) == RowsOfCuts(node, uuid, a, res, Cuts(a.at, b.at, res))
    ensures forall i :: 0 <= i < |out| ==> out[i].key.res == res
  {
    hide UpTo, PartialCells, PieceCells, RowsOfCuts, CardRows, Cuts, BucketOf;
    out := [];
    var start := a.at as int;
    ghost var done: seq<Cut> := [];
    LoopStart(node, uuid, a, b, res);
    while start < b.at
      invariant a.at <= start <= b.at
      invariant UpTo(node, uuid, a, b, res, start, out, done)
    {
      var bucket := BucketOf(start, res);
      var end := Min(b.at, bucket + res);
      var rows := PieceRows(node, uuid, a, res, bucket, Seconds(end - start));
      OnePiece(node, uuid, a, b, res, start, out, done, rows, Cut(start, end, bucket));
      done := done + [Cut(start, end, bucket)];
      out := out + rows;
      start := end;
    }
    LoopEnd(node, uuid, a, b, res, out, done);
  }

  lemma {:induction false} CardRowsOther(cs: seq<Contribution>, res: int)
    requires forall i :: 0 <= i < |cs| ==> cs[i].key.res != res
    ensures CardRows(cs, res) == []
    decreases |cs|
  {
    if cs != [] {
      CardRowsOther(cs[..|cs| - 1], res);
    }
  }

  lemma BothResolutions(node: string, uuid: string, a: Point, b: Point, minutes: seq<Contribution>, hours: seq<Contribution>)
    requires Joinable(a, b)
    requires Cells(minutes) == PartialCells(node, uuid, a, MINUTE, b.at)
    requires Cells(hours) == PartialCells(node, uuid, a, HOUR, b.at)
    ensures Cells(minutes + hours) == EdgeCells(node, uuid, a, b)
  {
    hide SumFor, PartialCell, EdgeCell;
    forall k: CellKey
      ensures SumFor(minutes + hours, k) == EdgeCell(node, uuid, a, b, k)
    {
      assert SumFor(minutes, k) == Cells(minutes)[k] && SumFor(hours, k) == Cells(hours)[k];
      BothResolutionsCell(node, uuid, a, b, minutes, hours, k);
    }
  }

  lemma BothResolutionsCell(node: string, uuid: string, a: Point, b: Point,
                            minutes: seq<Contribution>, hours: seq<Contribution>, k: CellKey)
    requires Joinable(a, b)
    requires SumFor(minutes, k) == if k.res == MINUTE then PartialCell(node, uuid, a, b.at, k) else ZERO
    requires SumFor(hours, k) == if k.res == HOUR then PartialCell(node, uuid, a, b.at, k) else ZERO
    ensures SumFor(minutes + hours, k) == EdgeCell(node, uuid, a, b, k)
  {
    hide SumFor, StateShare, Overlap, Aligned;
    SumForConcat(minutes, hours, k);
  }

  lemma NotJoinable(node: string, uuid: string, a: Point, b: Point)
    requires !Joinable(a, b)
    ensures EdgeCells(node, uuid, a, b) == Cells([])
  {
  }

  // Integrates the state of a over [a.at, b.at), cut at minute and hour boundaries.
  method Contributions(node: string, uuid: string, a: Point, b: Point) returns (out: seq<Contribution>)
    ensures Cells(out) == EdgeCells(node, uuid, a, b)
    ensures !Joinable(a, b) ==> out == []
    ensures Joinable(a, b) && "" !in a.users ==> forall res: Resolution ::
              CardRows(out, res) == RowsOfCuts(node, uuid, a, res, Cuts(a.at, b.at, res))
  {
    out := [];
    if b.at <= a.at || b.at - a.at > 2 * a.interval * 1000 {
      NotJoinable(node, uuid, a, b);
      return;
    }
    var minutes := OneResolution(node, uuid, a, b, MINUTE);
    var hours := OneResolution(node, uuid, a, b, HOUR);
    out := minutes + hours;
    BothResolutions(node, uuid, a, b, minutes, hours);
    CardRowsOther(minutes, HOUR);
    CardRowsOther(hours, MINUTE);
    CardRowsConcat(minutes, hours, MINUTE);
    CardRowsConcat(minutes, hours, HOUR);
  }
}
