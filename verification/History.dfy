/**
 Reading the ledger (internal/hub/history.go): the range of a query is aligned to
 buckets of a resolution that is still kept, and the trend of a card is returned
 without holes, with an empty value exactly where no valid time was observed.
 */
module History {
  import opened Wrappers
  import opened Amounts
  import opened Rollups
  import opened Tables
  import opened Ledger
  import opened Retention
  import Batch
  import Bounds
  import Meaning

  const DAY: int := 86_400_000

  // Integer division as the code has it: towards zero.
  function Quotient(a: int, b: int): int
    requires 0 < b
  {
    if a >= 0 then a / b else -(-a / b)
  }

  // The end of a query, and the start that it asks for. A missing or unreadable argument
  // is 0.
  function End(toArg: int, now: int): int {
    if toArg <= 0 || toArg > now then now else toArg
  }

  function Asked(fromArg: int, end: int): int {
    if fromArg <= 0 then end - 24 * 3_600_000 else fromArg
  }

  // The start and end of a query before alignment.
  function Unaligned(fromArg: int, toArg: int, now: int): (int, int) {
    var to := End(toArg, now);
    var kept := Max(Asked(fromArg, to), now - HOUR_AGE);
    (if kept >= to then to - 3_600_000 else kept, to)
  }

  // The range that is asked for, in milliseconds: up to now if no time in the past is named,
  // the last day if no start is, cut off at 500 days, and one hour where it would be empty.
  lemma RangeCases(fromArg: int, toArg: int, now: int)
    requires 0 < now
    ensures var (start, end) := Unaligned(fromArg, toArg, now);
            && end == (if 0 < toArg <= now then toArg else now)
            && (0 < fromArg < end && now - 43_200_000_000 <= fromArg ==> start == fromArg)
            && (fromArg <= 0 && now - 43_200_000_000 <= end - 86_400_000 ==> start == end - 86_400_000)
            && (fromArg <= 0 && end - 86_400_000 < now - 43_200_000_000 < end ==> start == now - 43_200_000_000)
            && (0 < fromArg < now - 43_200_000_000 < end ==> start == now - 43_200_000_000)
            && (end <= fromArg || end <= now - 43_200_000_000 ==> start == end - 3_600_000)
  {
  }

  method QueryRange(fromArg: int, toArg: int, now: int) returns (from: int, to: int, res: Resolution)
    requires 0 < now
    ensures from < to && Aligned(from, res) && Aligned(to, res)
    ensures var (start, end) := Unaligned(fromArg, toArg, now);
            && (res == 60_000 <==> now - 2_592_000_000 <= start && end - start <= 604_800_000)
            && to - res < end <= to
            && (if start >= 0 then from <= start < from + res else from - res < start <= from <= 0)
  {
    to := toArg;
    if to <= 0 || to > now {
      to := now;
    }
    from := fromArg;
    if from <= 0 {
      from := to - 24 * 3_600_000;
    }
    from := Max(from, now - 500 * DAY);
    if from >= to {
      from := to - 3_600_000;
    }
    assert (from, to) == Unaligned(fromArg, toArg, now);
    res := MINUTE;
    if from < now - 30 * DAY || to - from > 7 * DAY {
      res := HOUR;
    }
    AlignTo(from, to, res);
    from, to := Quotient(from, res) * res, Quotient(to + res - 1, res) * res;
  }

  lemma AlignTo(start: int, end: int, res: Resolution)
    requires start < end && 0 < end
    ensures var from, to := Quotient(start, res) * res, Quotient(end + res - 1, res) * res;
            && from < to && Aligned(from, res) && Aligned(to, res)
            && to - res < end <= to
            && (if start >= 0 then from <= start < from + res else from - res < start <= from <= 0)
  {
    if res == MINUTE {
      AlignMinutes(start);
      AlignMinutes(end + MINUTE - 1);
    } else {
      AlignHours(start);
      AlignHours(end + HOUR - 1);
    }
  }

  lemma AlignMinutes(t: int)
    ensures var m := Quotient(t, 60_000) * 60_000;
            m % 60_000 == 0 && (if t >= 0 then m <= t < m + 60_000 else m - 60_000 < t <= m <= 0)
  {
  }

  lemma AlignHours(t: int)
    ensures var h := Quotient(t, 3_600_000) * 3_600_000;
            h % 3_600_000 == 0 && (if t >= 0 then h <= t < h + 3_600_000 else h - 3_600_000 < t <= h <= 0)
  {
  }

  // When a query is answered by the minute, no prune so far has taken a minute row from
  // its start on.
  lemma MinutesAreStillThere(fromArg: int, toArg: int, now: int, k: CellKey, pruned: int)
    requires now - MINUTE_AGE <= Unaligned(fromArg, toArg, now).0
    requires k.res == MINUTE && Unaligned(fromArg, toArg, now).0 <= k.bucket && pruned <= now
    ensures !Expired(k, pruned)
  {
  }

  // A query whose start, cut off at the retention, is not before its end, while the hour
  // in which it ends began before the retention.
  predicate BeyondRetention(fromArg: int, toArg: int, now: int) {
    var end := End(toArg, now);
    end <= Max(Asked(fromArg, end), now - HOUR_AGE) && HourOf(end - 1) < now - HOUR_AGE
  }

  // By the hour the same holds for exactly the queries that are not beyond the retention.
  // The others ask for the last hour before their end, and its row may be gone.
  lemma HoursAreStillThere(fromArg: int, toArg: int, now: int)
    requires 0 < now
    ensures (forall k: CellKey, pruned ::
               && k.res == HOUR && Aligned(k.bucket, HOUR) && pruned <= now
               && Unaligned(fromArg, toArg, now).0 <= k.bucket < End(toArg, now)
               ==> !Expired(k, pruned))
         <==> !BeyondRetention(fromArg, toArg, now)
  {
    var (start, end) := Unaligned(fromArg, toArg, now);
    if BeyondRetention(fromArg, toArg, now) {
      var k := CellKey("", "", "", HOUR, HourOf(end - 1));
      assert start == end - HOUR;
      assert Aligned(k.bucket, HOUR) && start <= k.bucket < end && Expired(k, now);
    } else {
      forall l: CellKey, pruned | l.res == HOUR && Aligned(l.bucket, HOUR) && start <= l.bucket < end && pruned <= now
        ensures !Expired(l, pruned)
      {
        if start == end - HOUR {
          BucketUnique(end - 1, l.bucket, HOUR);
        }
      }
    }
  }

  // Such a query: half an hour into a day, it asks for one moment a second after the
  // retention began, and gets the hour before, which the last prune has discarded.
  lemma AskingForTheEdge(node: string, uuid: string)
    ensures var now, at := 600 * DAY + 1_800_000, 100 * DAY + 1_801_000;
            && BeyondRetention(at, at, now)
            && Unaligned(at, at, now) == (100 * DAY - 1_799_000, at)
            && Expired(CellKey(node, uuid, "", HOUR, 100 * DAY), now)
  {
    BucketUnique(100 * DAY + 1_800_999, 100 * DAY, HOUR);
  }

  /******* The trend of a card *******/

  // A row of one card at one resolution. The rows come in the order of their buckets, and
  // the primary key allows one for each.
  datatype Row = Row(bucket: int, amounts: Amounts)

  datatype Reading = Reading(at: int, util: Option<real>, memory: Option<real>, coverage: real)

  function Hole(at: int): Reading {
    Reading(at, None, None, 0.0)
  }

  function ReadingOf(row: Row, res: Resolution): (r: Reading)
    ensures r.at == row.bucket
  {
    var a := row.amounts;
    Reading(
      row.bucket,
      if a.utilValid > 0.0 then Some(a.weighted / a.utilValid * 100.0) else None,
      if a.memoryValid > 0.0 then Some(a.memorySum / a.memoryValid) else None,
      a.utilValid / Seconds(res))
  }

  ghost predicate RowsOf(rows: seq<Row>, res: Resolution) {
    && (forall i :: 0 <= i < |rows| ==> 0 <= rows[i].bucket && Aligned(rows[i].bucket, res))
    && (forall i, j :: 0 <= i < j < |rows| ==> rows[i].bucket < rows[j].bucket)
  }

  // No hole and no repetition: each reading is one bucket after the one before it.
  ghost predicate Consecutive(out: seq<Reading>, res: Resolution) {
    forall i, j :: 0 <= i && j == i + 1 && j < |out| ==> out[j].at == out[i].at + res
  }

  // What stands at a time: the reading of its row, or an empty value.
  ghost predicate Shows(out: seq<Reading>, rows: seq<Row>, res: Resolution) {
    forall o :: o in out ==>
      || (exists row :: row in rows && o == ReadingOf(row, res))
      || (o == Hole(o.at) && forall row :: row in rows ==> row.bucket != o.at)
  }

  lemma NextRow(rows: seq<Row>, n: nat, res: Resolution)
    requires RowsOf(rows, res) && 0 < n < |rows|
    ensures rows[n - 1].bucket + res <= rows[n].bucket
  {
    AlignedApart(rows[n - 1].bucket, rows[n].bucket, res);
  }

  // The trend after n rows.
  ghost predicate Written(rows: seq<Row>, n: nat, res: Resolution, out: seq<Reading>)
    requires n <= |rows|
  {
    && Consecutive(out, res) && Shows(out, rows, res)
    && (n == 0 <==> out == [])
    && (n > 0 ==> out[0].at == rows[0].bucket && out[|out| - 1].at == rows[n - 1].bucket)
    && (forall i :: 0 <= i < n ==> ReadingOf(rows[i], res) in out)
  }

  lemma WrittenStep(rows: seq<Row>, n: nat, res: Resolution, out: seq<Reading>, more: seq<Reading>)
    requires n < |rows| && Written(rows, n, res, out)
    requires out <= more && (n == 0 ==> more == out) && Consecutive(more, res) && Shows(more, rows, res)
    requires n > 0 ==> more[|more| - 1].at == rows[n].bucket - res
    ensures Written(rows, n + 1, res, more + [ReadingOf(rows[n], res)])
  {
    hide ReadingOf, Shows, Consecutive;
    var all := more + [ReadingOf(rows[n], res)];
    ShowsRow(more, rows, res, rows[n]);
    ConsecutiveMore(more, ReadingOf(rows[n], res), res);
    assert all[|more|] == ReadingOf(rows[n], res);
    forall i | 0 <= i < n
      ensures ReadingOf(rows[i], res) in all
    {
      assert ReadingOf(rows[i], res) in out;
    }
  }

  lemma ConsecutiveMore(out: seq<Reading>, r: Reading, res: Resolution)
    requires Consecutive(out, res) && (out != [] ==> out[|out| - 1].at == r.at - res)
    ensures Consecutive(out + [r], res)
  {
  }

  lemma ShowsRow(out: seq<Reading>, rows: seq<Row>, res: Resolution, row: Row)
    requires row in rows && Shows(out, rows, res)
    ensures Shows(out + [ReadingOf(row, res)], rows, res)
  {
    hide ReadingOf;
  }

  method Trend(rows: seq<Row>, res: Resolution) returns (out: seq<Reading>)
    requires RowsOf(rows, res)
    ensures Consecutive(out, res) && Shows(out, rows, res)
    ensures rows == [] <==> out == []
    ensures rows != [] ==> out[0].at == rows[0].bucket && out[|out| - 1].at == rows[|rows| - 1].bucket
    ensures forall row :: row in rows ==> ReadingOf(row, res) in out
  {
    hide ReadingOf, Consecutive, Shows;
    out := [];
    var previous := -1;
    NothingWritten(rows, res);
    for n := 0 to |rows|
      invariant previous == if n == 0 then -1 else rows[n - 1].bucket
      invariant Written(rows, n, res, out)
    {
      ghost var before := out;
      if previous >= 0 {
        out := Holes(rows, n, res, out);
      }
      previous := rows[n].bucket;
      WrittenStep(rows, n, res, before, out);
      out := AppendReading(out, rows[n], res);
    }
  }

  lemma NothingWritten(rows: seq<Row>, res: Resolution)
    ensures Written(rows, 0, res, [])
  {
  }

  // The empty values between the last row written and row n.
  method Holes(rows: seq<Row>, n: nat, res: Resolution, start: seq<Reading>) returns (out: seq<Reading>)
    requires RowsOf(rows, res) && 0 < n < |rows|
    requires start != [] && start[|start| - 1].at == rows[n - 1].bucket && Consecutive(start, res) && Shows(start, rows, res)
    ensures start <= out && Consecutive(out, res) && Shows(out, rows, res)
    ensures out[|out| - 1].at == rows[n].bucket - res
  {
    hide ReadingOf, Consecutive, Shows;
    NextRow(rows, n, res);
    out := start;
    var missing := rows[n - 1].bucket + res;
    while missing < rows[n].bucket
      invariant Aligned(missing, res)
      invariant rows[n - 1].bucket + res <= missing <= rows[n].bucket
      invariant start <= out && Consecutive(out, res) && Shows(out, rows, res)
      invariant out[|out| - 1].at == missing - res
      decreases rows[n].bucket - missing
    {
      NoRowThere(rows, n, missing);
      ShowsHole(out, rows, res, missing);
      out := out + [Hole(missing)];
      missing := missing + res;
      AlignedStep(missing - res, rows[n].bucket, res);
    }
  }

  lemma AlignedStep(t: int, end: int, res: Resolution)
    requires Aligned(t, res) && Aligned(end, res) && t < end
    ensures Aligned(t + res, res) && t + res <= end
  {
    AlignedApart(t, end, res);
  }

  lemma NoRowThere(rows: seq<Row>, n: nat, at: int)
    requires 0 < n < |rows| && rows[n - 1].bucket < at < rows[n].bucket
    requires forall i, j :: 0 <= i < j < |rows| ==> rows[i].bucket < rows[j].bucket
    ensures forall row :: row in rows ==> row.bucket != at
  {
    forall row | row in rows
      ensures row.bucket != at
    {
      var i :| 0 <= i < |rows| && rows[i] == row;
      assert i < n - 1 || i == n - 1 || i == n || i > n;
    }
  }

  lemma ShowsHole(out: seq<Reading>, rows: seq<Row>, res: Resolution, at: int)
    requires out != [] && out[|out| - 1].at == at - res && Consecutive(out, res) && Shows(out, rows, res)
    requires forall row :: row in rows ==> row.bucket != at
    ensures Consecutive(out + [Hole(at)], res) && Shows(out + [Hole(at)], rows, res)
  {
    hide ReadingOf;
  }

  method AppendReading(start: seq<Reading>, row: Row, res: Resolution) returns (out: seq<Reading>)
    ensures out == start + [ReadingOf(row, res)]
  {
    var a := row.amounts;
    var util: Option<real>, memory: Option<real> := None, None;
    if a.utilValid > 0.0 {
      util := Some(a.weighted / a.utilValid * 100.0);
    }
    if a.memoryValid > 0.0 {
      memory := Some(a.memorySum / a.memoryValid);
    }
    out := start + [Reading(row.bucket, util, memory, a.utilValid / Seconds(res))];
  }

  /******* The trend of the ledger *******/

  // What a reading should be, given the cell of the ledger.
  ghost predicate Tells(o: Reading, a: Amounts, res: Resolution) {
    && o.coverage * (res as real) == a.utilValid * 1000.0
    && (o.util.None? <==> a.utilValid == 0.0)
    && (o.util.Some? ==> 0.0 <= o.util.value <= 100.0 && o.util.value * a.utilValid == a.weighted * 100.0)
    && (o.memory.None? <==> a.memoryValid == 0.0)
    && (o.memory.Some? ==> 0.0 <= o.memory.value && o.memory.value * a.memoryValid == a.memorySum)
  }

  lemma RowTells(row: Row, res: Resolution)
    requires Bounds.InOrder(row.amounts)
    ensures Tells(ReadingOf(row, res), row.amounts, res)
  {
    var a := row.amounts;
    if a.utilValid > 0.0 {
      Ratio(a.weighted, a.utilValid);
    }
    if a.memoryValid > 0.0 {
      Ratio(a.memorySum, a.memoryValid);
    }
  }

  lemma Ratio(part: real, whole: real)
    requires 0.0 <= part && 0.0 < whole
    ensures 0.0 <= part / whole && part / whole * whole == part && (part / whole * 100.0) * whole == part * 100.0
    ensures part <= whole ==> part / whole * 100.0 <= 100.0
  {
  }

  function CardCell(node: string, uuid: string, res: Resolution, bucket: int): CellKey {
    CellKey(node, uuid, "", res, bucket)
  }

  // What the query selects: stored rows of the card in the range, among them every one
  // that is not zero.
  ghost predicate Selects(rows: seq<Row>, t: Totals, node: string, uuid: string, res: Resolution, from: int, to: int) {
    && RowsOf(rows, res)
    && (forall row :: row in rows ==> from <= row.bucket < to && row.amounts == Read(t, CardCell(node, uuid, res, row.bucket)))
    && (forall bucket :: from <= bucket < to && Aligned(bucket, res) && Read(t, CardCell(node, uuid, res, bucket)) != ZERO ==>
          exists row :: row in rows && row.bucket == bucket)
  }

  lemma {:induction false} NotBefore(out: seq<Reading>, res: Resolution, n: nat)
    requires Consecutive(out, res) && n < |out| && Aligned(out[0].at, res)
    ensures Aligned(out[n].at, res) && out[0].at <= out[n].at
  {
    if n != 0 {
      NotBefore(out, res, n - 1);
      assert out[n].at == out[n - 1].at + res;
    }
  }

  lemma {:induction false} NotAfterLast(out: seq<Reading>, res: Resolution, n: nat)
    requires Consecutive(out, res) && n < |out|
    ensures out[n].at <= out[|out| - 1].at
    decreases |out| - n
  {
    if n + 1 < |out| {
      NotAfterLast(out, res, n + 1);
      assert out[n + 1].at == out[n].at + res;
    }
  }

  // The trend of a card over any run of the hub, with or without prunes: every reading is
  // that of its cell. The utilisation is absent exactly without valid time, otherwise it is
  // a percentage, and times the valid time it gives back the integral.
  lemma {:induction false} TrendShowsTheLedger(ops: seq<Op>, node: string, uuid: string, res: Resolution, from: int, to: int,
                                               rows: seq<Row>, out: seq<Reading>)
    requires Coherent(ops) && Clocked(ops) && Selects(rows, Run(ops).rollups, node, uuid, res, from, to)
    requires Consecutive(out, res) && Shows(out, rows, res) && (rows == [] <==> out == [])
    requires rows != [] ==> out[0].at == rows[0].bucket && out[|out| - 1].at == rows[|rows| - 1].bucket
    ensures forall o :: o in out ==> from <= o.at < to && Tells(o, Read(Run(ops).rollups, CardCell(node, uuid, res, o.at)), res)
  {
    hide Run, Tells, ReadingOf, Consecutive, Coherent, Clocked, Aligned, Read;
    forall o | o in out
      ensures from <= o.at < to && Tells(o, Read(Run(ops).rollups, CardCell(node, uuid, res, o.at)), res)
    {
      var n: nat :| n < |out| && out[n] == o;
      assert rows[0] in rows && rows[|rows| - 1] in rows;
      NotBefore(out, res, n);
      NotAfterLast(out, res, n);
      Bounds.RowsInOrder(ops, CardCell(node, uuid, res, o.at));
      if row :| row in rows && o == ReadingOf(row, res) {
        RowTells(row, res);
      } else {
        HoleTells(o.at, res);
      }
    }
  }

  lemma HoleTells(at: int, res: Resolution)
    ensures Tells(Hole(at), ZERO, res)
  {
  }

  // The coverage of a reading: for one run of the agent at most the whole bucket.
  lemma CoverageIsBounded(ops: seq<Op>, k: CellKey, res: Resolution)
    requires Coherent(ops) && Clocked(ops) && !Expired(k, LastPrune(ops)) && k.res == res
    ensures var boots := Batch.Boots(Run(Unpruned(ops)).points, k.node, k.uuid);
            0.0 <= ReadingOf(Row(k.bucket, Read(Run(ops).rollups, k)), res).coverage <= |boots| as real
  {
    hide Run, Expired, Batch.ChainTotal, SumOver;
    Bounds.NoOverCount(ops, k);
    Bounds.RowsInOrder(ops, k);
    var boots := Batch.Boots(Run(Unpruned(ops)).points, k.node, k.uuid);
    assert Batch.BootTotals(Run(Unpruned(ops)).points, k).Keys == boots;
    Share(Read(Run(ops).rollups, k).utilValid, |boots|, res);
  }

  lemma Share(valid: real, n: nat, res: Resolution)
    requires 0.0 <= valid <= Seconds(n * res)
    ensures 0.0 <= valid / Seconds(res) <= n as real
  {
    assert Seconds(n * res) == (n as real) * Seconds(res);
  }
  // What a reading says lies within what the card was reported with. If every report that
  // could query it said the same, so does the reading.
  lemma {:induction false} ReadingsAsReported(ops: seq<Op>, node: string, uuid: string, res: Resolution, from: int, to: int,
                                            rows: seq<Row>, out: seq<Reading>, o: Reading, lo: real, hi: real)
    requires Coherent(ops) && Clocked(ops) && Selects(rows, Run(ops).rollups, node, uuid, res, from, to)
    requires Consecutive(out, res) && Shows(out, rows, res) && (rows == [] <==> out == [])
    requires rows != [] ==> out[0].at == rows[0].bucket && out[|out| - 1].at == rows[|rows| - 1].bucket
    requires o in out
    ensures Meaning.MemoryReported(ops, node, uuid, lo, hi) && o.memory.Some? ==> lo <= o.memory.value <= hi
    ensures Meaning.UtilReported(ops, node, uuid, lo, hi) && o.util.Some? ==> lo <= o.util.value <= hi
  {
    hide Run, ReadingOf, Consecutive, Coherent, Clocked, Aligned, Read, Meaning.MemoryReported, Meaning.UtilReported, Tells, Meaning.Obeys,
         Bounds.InOrder, Selects, Shows;
    var k := CardCell(node, uuid, res, o.at);
    TrendShowsTheLedger(ops, node, uuid, res, from, to, rows, out);
    SelectsRows(rows, Run(ops).rollups, node, uuid, res, from, to);
    TrendAligned(rows, res, out, o);
    Meaning.ValuesAsReported(ops, k, lo, hi);
    Bounds.RowsInOrder(ops, k);
    TellsWithin(o, Read(Run(ops).rollups, k), res, lo, hi);
  }

  lemma SelectsRows(rows: seq<Row>, t: Totals, node: string, uuid: string, res: Resolution, from: int, to: int)
    requires Selects(rows, t, node, uuid, res, from, to)
    ensures RowsOf(rows, res)
  {
  }

  lemma TellsWithin(o: Reading, a: Amounts, res: Resolution, lo: real, hi: real)
    requires Tells(o, a, res) && Bounds.InOrder(a)
    ensures Meaning.Obeys(Meaning.MemoryWithin(lo, hi), a) && o.memory.Some? ==> lo <= o.memory.value <= hi
    ensures Meaning.Obeys(Meaning.UtilWithin(lo, hi), a) && o.util.Some? ==> lo <= o.util.value <= hi
  {
    if o.memory.Some? && Meaning.Obeys(Meaning.MemoryWithin(lo, hi), a) {
      Quotients(o.memory.value, a.memoryValid, a.memorySum, lo, hi);
    }
    if o.util.Some? && Meaning.Obeys(Meaning.UtilWithin(lo, hi), a) {
      Quotients(o.util.value, a.utilValid, a.weighted * 100.0, lo, hi);
    }
  }

  lemma TrendAligned(rows: seq<Row>, res: Resolution, out: seq<Reading>, o: Reading)
    requires RowsOf(rows, res) && Consecutive(out, res) && o in out && (rows == [] <==> out == [])
    requires rows != [] ==> out[0].at == rows[0].bucket
    ensures Aligned(o.at, res)
  {
    hide Consecutive, Aligned;
    var n: nat :| n < |out| && out[n] == o;
    NotBefore(out, res, n);
  }

  lemma Quotients(value: real, valid: real, sum: real, lo: real, hi: real)
    requires 0.0 < valid && value * valid == sum && Times(lo, valid) <= sum <= Times(hi, valid)
    ensures lo <= value <= hi
  {
    assert (value - lo) * valid >= 0.0 && (hi - value) * valid >= 0.0;
  }
}
