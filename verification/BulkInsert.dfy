/** Bulk insert by halving (store/database.go).

    A multi-row INSERT is all or nothing. When one fails, the batch is cut in half and each
    half is tried again, down to single rows, so that only the rows the database really
    refuses are lost. The database is any row step, and a multi-row statement is the fold of
    that step. */
module BulkInsert {

  datatype Outcome<+S, +E> = Stored(state: S) | Rejected(error: E)

  /** A row the database refused, with its message. */
  datatype FailedItem<+R, +E> = FailedItem(row: R, error: E)

  /** What a bulk insert reports. Each success item is one whole accepted batch. */
  datatype BatchInsertResult<+R, +E> =
    BatchInsertResult(successCount: nat, successItems: seq<seq<R>>, failedItems: seq<FailedItem<R, E>>)

  /** What inserting one row at a time, skipping the refused ones, leads to. */
  datatype Tally<+S, +R, +E> = Tally(state: S, inserted: seq<R>, failed: seq<FailedItem<R, E>>)

  /** One multi-row statement: every row goes in, or the first refused row refuses them all. */
  function Batch<S, R, E>(step: (S, R) -> Outcome<S, E>, s: S, rows: seq<R>): Outcome<S, E> {
    if rows == [] then Stored(s)
    else match step(s, rows[0])
      case Stored(s1) => Batch(step, s1, rows[1..])
      case Rejected(e) => Rejected(e)
  }

  /** The reference: rows go in one at a time and a refused row is skipped. */
  function RowByRow<S, R, E>(step: (S, R) -> Outcome<S, E>, s: S, rows: seq<R>): Tally<S, R, E> {
    if rows == [] then Tally(s, [], [])
    else match step(s, rows[0])
      case Stored(s1) =>
        var t := RowByRow(step, s1, rows[1..]);
        t.(inserted := [rows[0]] + t.inserted)
      case Rejected(e) =>
        var t := RowByRow(step, s, rows[1..]);
        t.(failed := [FailedItem(rows[0], e)] + t.failed)
  }

  function Flatten<R>(batches: seq<seq<R>>): seq<R> {
    if batches == [] then [] else batches[0] + Flatten(batches[1..])
  }

  /** How many INSERT statements halving issues. */
  function Statements<S, R, E>(step: (S, R) -> Outcome<S, E>, s: S, rows: seq<R>): nat
    decreases |rows|
  {
    if rows == [] then 0
    else if |rows| == 1 || Batch(step, s, rows).Stored? then 1
    else
      var mid := |rows| / 2;
      1 + Statements(step, s, rows[..mid]) + Statements(step, RowByRow(step, s, rows[..mid]).state, rows[mid..])
  }

  function Pow2(k: nat): nat {
    if k == 0 then 1 else 2 * Pow2(k - 1)
  }

  /** The depth of a halving of n rows. */
  function CeilLog2(n: nat): nat {
    if n <= 1 then 0 else 1 + CeilLog2((n + 1) / 2)
  }

  /** CeilLog2 is the logarithm rounded up: the least k with n <= 2^k. */
  lemma {:induction false} CeilLog2IsLeast(n: nat)
    requires n >= 1
    ensures n <= Pow2(CeilLog2(n))
    ensures forall k: nat :: n <= Pow2(k) ==> CeilLog2(n) <= k
  {
    if n > 1 {
      CeilLog2IsLeast((n + 1) / 2);
      forall k: nat | n <= Pow2(k) ensures CeilLog2(n) <= k {
        assert k != 0;
        assert (n + 1) / 2 <= Pow2(k - 1);
      }
    }
  }

  lemma {:induction false} CeilLog2Monotone(m: nat, n: nat)
    requires m <= n
    ensures CeilLog2(m) <= CeilLog2(n)
  {
    if m > 1 {
      CeilLog2Monotone((m + 1) / 2, (n + 1) / 2);
    }
  }

  /** A statement over all the rows succeeds exactly when none of them fails on its own, and
      it then leaves the same table. */
  lemma {:induction false} BatchStoredIffNoRowFails<S, R, E>(step: (S, R) -> Outcome<S, E>, s: S, rows: seq<R>)
    ensures Batch(step, s, rows).Stored? <==> RowByRow(step, s, rows).failed == []
    ensures Batch(step, s, rows).Stored? ==> RowByRow(step, s, rows) == Tally(Batch(step, s, rows).state, rows, [])
  {
    if rows != [] {
      match step(s, rows[0])
      case Stored(s1) =>
        BatchStoredIffNoRowFails(step, s1, rows[1..]);
        assert [rows[0]] + rows[1..] == rows;
      case Rejected(_) =>
    }
  }

  /** Row by row insertion of a + b is that of a, then that of b on the table a left. */
  lemma {:induction false} RowByRowAppend<S, R, E>(step: (S, R) -> Outcome<S, E>, s: S, a: seq<R>, b: seq<R>)
    ensures var ta := RowByRow(step, s, a);
            var tb := RowByRow(step, ta.state, b);
            RowByRow(step, s, a + b) == Tally(tb.state, ta.inserted + tb.inserted, ta.failed + tb.failed)
  {
    if a == [] {
      assert a + b == b;
    } else {
      assert (a + b)[0] == a[0] && (a + b)[1..] == a[1..] + b;
      match step(s, a[0])
      case Stored(s1) =>
        RowByRowAppend(step, s1, a[1..], b);
      case Rejected(_) =>
        RowByRowAppend(step, s, a[1..], b);
    }
  }

  /** No row is lost or reported twice: each input row is inserted or failed, exactly once. */
  lemma {:induction false} RowByRowPartitions<S, R, E>(step: (S, R) -> Outcome<S, E>, s: S, rows: seq<R>)
    ensures var t := RowByRow(step, s, rows);
            multiset(t.inserted) + multiset(FailedRows(t.failed)) == multiset(rows)
    ensures |RowByRow(step, s, rows).inserted| + |RowByRow(step, s, rows).failed| == |rows|
  {
    if rows != [] {
      assert rows == [rows[0]] + rows[1..];
      match step(s, rows[0])
      case Stored(s1) =>
        RowByRowPartitions(step, s1, rows[1..]);
      case Rejected(e) =>
        RowByRowPartitions(step, s, rows[1..]);
        var t := RowByRow(step, s, rows[1..]);
        assert ([FailedItem(rows[0], e)] + t.failed)[1..] == t.failed;
    }
  }

  function FailedRows<R, E>(failed: seq<FailedItem<R, E>>): seq<R> {
    if failed == [] then [] else [failed[0].row] + FailedRows(failed[1..])
  }

  /** f refused rows among n cost at most 1 + 2 f ceil(log2 n) statements. */
  lemma {:induction false} StatementBound<S, R, E>(step: (S, R) -> Outcome<S, E>, s: S, rows: seq<R>)
    requires |rows| >= 1
    ensures Statements(step, s, rows) <= 1 + 2 * (|RowByRow(step, s, rows).failed| * CeilLog2(|rows|))
    decreases |rows|
  {
    if |rows| > 1 && Batch(step, s, rows).Rejected? {
      var mid := |rows| / 2;
      var s1 := RowByRow(step, s, rows[..mid]).state;
      StatementBound(step, s, rows[..mid]);
      StatementBound(step, s1, rows[mid..]);
      HalvesBound(step, s, rows, s1);
    } else {
      NoHalvesCost(step, s, rows);
    }
  }

  lemma HalvesBound<S, R, E>(step: (S, R) -> Outcome<S, E>, s: S, rows: seq<R>, s1: S)
    requires |rows| > 1 && Batch(step, s, rows).Rejected? && s1 == RowByRow(step, s, rows[..|rows| / 2]).state
    requires WithinBound(step, s, rows[..|rows| / 2]) && WithinBound(step, s1, rows[|rows| / 2..])
    ensures WithinBound(step, s, rows)
  {
    var mid := |rows| / 2;
    HalvesCost(step, s, rows);
    CeilLog2Halves(|rows|);
    assert |rows[..mid]| == mid && |rows[mid..]| == |rows| - mid;
    BoundSum(Statements(step, s, rows[..mid]), |RowByRow(step, s, rows[..mid]).failed|, CeilLog2(|rows[..mid]|),
             Statements(step, s1, rows[mid..]), |RowByRow(step, s1, rows[mid..]).failed|, CeilLog2(|rows[mid..]|),
             Statements(step, s, rows), |RowByRow(step, s, rows).failed|, CeilLog2(|rows|));
  }

  predicate WithinBound<S, R, E>(step: (S, R) -> Outcome<S, E>, s: S, rows: seq<R>)
    requires |rows| >= 1
  {
    Statements(step, s, rows) <= 1 + 2 * (|RowByRow(step, s, rows).failed| * CeilLog2(|rows|))
  }

  lemma CeilLog2Halves(n: nat)
    requires n > 1
    ensures CeilLog2(n / 2) <= CeilLog2(n - n / 2) == CeilLog2(n) - 1
  {
    CeilLog2Monotone(n / 2, n - n / 2);
  }

  lemma NoHalvesCost<S, R, E>(step: (S, R) -> Outcome<S, E>, s: S, rows: seq<R>)
    requires |rows| == 1 || (rows != [] && Batch(step, s, rows).Stored?)
    ensures Statements(step, s, rows) == 1
  {
  }

  /** A refused statement over several rows costs itself and both halves, and some row failed. */
  lemma HalvesCost<S, R, E>(step: (S, R) -> Outcome<S, E>, s: S, rows: seq<R>)
    requires |rows| > 1 && Batch(step, s, rows).Rejected?
    ensures var mid := |rows| / 2;
            var s1 := RowByRow(step, s, rows[..mid]).state;
            var fl, fr := |RowByRow(step, s, rows[..mid]).failed|, |RowByRow(step, s1, rows[mid..]).failed|;
            && Statements(step, s, rows) == 1 + Statements(step, s, rows[..mid]) + Statements(step, s1, rows[mid..])
            && |RowByRow(step, s, rows).failed| == fl + fr && fl + fr >= 1
  {
    BatchStoredIffNoRowFails(step, s, rows);
    RowByRowHalves(step, s, rows);
  }

  lemma RowByRowHalves<S, R, E>(step: (S, R) -> Outcome<S, E>, s: S, rows: seq<R>)
    ensures var mid := |rows| / 2;
            var ta := RowByRow(step, s, rows[..mid]);
            var tb := RowByRow(step, ta.state, rows[mid..]);
            RowByRow(step, s, rows) == Tally(tb.state, ta.inserted + tb.inserted, ta.failed + tb.failed)
  {
    var mid := |rows| / 2;
    assert rows[..mid] + rows[mid..] == rows;
    RowByRowAppend(step, s, rows[..mid], rows[mid..]);
  }

  lemma BoundSum(left: nat, fl: nat, dl: nat, right: nat, fr: nat, dr: nat, all: nat, f: nat, d: nat)
    requires left <= 1 + 2 * (fl * dl) && right <= 1 + 2 * (fr * dr) && all == 1 + left + right
    requires dl <= dr == d - 1 && f == fl + fr && f >= 1
    ensures all <= 1 + 2 * (f * d)
  {
    assert fl * dl <= fl * dr;
    assert f * d == fl * dr + fr * dr + f;
  }

  /** However many rows fail, n rows never cost more than 2n - 1 statements, and cost exactly
      that many when every row fails. */
  lemma {:induction false} StatementsAtMost<S, R, E>(step: (S, R) -> Outcome<S, E>, s: S, rows: seq<R>)
    requires |rows| >= 1
    ensures Statements(step, s, rows) <= 2 * |rows| - 1
    ensures |RowByRow(step, s, rows).failed| == |rows| ==> Statements(step, s, rows) == 2 * |rows| - 1
    decreases |rows|
  {
    BatchStoredIffNoRowFails(step, s, rows);
    if |rows| > 1 && Batch(step, s, rows).Rejected? {
      var mid := |rows| / 2;
      var left, right := rows[..mid], rows[mid..];
      var s1 := RowByRow(step, s, left).state;
      RowByRowHalves(step, s, rows);
      RowByRowPartitions(step, s, left);
      RowByRowPartitions(step, s1, right);
      StatementsAtMost(step, s, left);
      StatementsAtMost(step, s1, right);
    }
  }

  lemma {:induction false} FlattenAppend<R>(a: seq<seq<R>>, b: seq<seq<R>>)
    ensures Flatten(a + b) == Flatten(a) + Flatten(b)
  {
    if a == [] {
      assert a + b == b;
    } else {
      assert (a + b)[0] == a[0] && (a + b)[1..] == a[1..] + b;
      FlattenAppend(a[1..], b);
    }
  }

  /** The result says what the row by row tally says: how many rows went in, which, in input
      order, and which were refused and why, in input order. */
  ghost predicate Reports<S, R, E>(result: BatchInsertResult<R, E>, t: Tally<S, R, E>) {
    && result.successCount == |t.inserted|
    && Flatten(result.successItems) == t.inserted
    && result.failedItems == t.failed
  }

  /** The two results that need no halving. */
  lemma LeafReports<S, R, E>(step: (S, R) -> Outcome<S, E>, s: S, rows: seq<R>)
    requires rows != []
    ensures var o := Batch(step, s, rows);
            && (o.Stored? ==> Reports(BatchInsertResult(|rows|, [rows], []), RowByRow(step, s, rows)))
            && (|rows| == 1 && o.Rejected? ==> RowByRow(step, s, rows) == Tally(s, [], [FailedItem(rows[0], o.error)]))
  {
    BatchStoredIffNoRowFails(step, s, rows);
    assert Flatten([rows]) == rows;
  }

  lemma JoinReports<S, R, E>(step: (S, R) -> Outcome<S, E>, s: S, rows: seq<R>,
                             left: BatchInsertResult<R, E>, right: BatchInsertResult<R, E>)
    requires Reports(left, RowByRow(step, s, rows[..|rows| / 2]))
    requires Reports(right, RowByRow(step, RowByRow(step, s, rows[..|rows| / 2]).state, rows[|rows| / 2..]))
    ensures Reports(BatchInsertResult(left.successCount + right.successCount,
                                      left.successItems + right.successItems,
                                      left.failedItems + right.failedItems), RowByRow(step, s, rows))
  {
    RowByRowHalves(step, s, rows);
    FlattenAppend(left.successItems, right.successItems);
  }

  /** The batches whose history statement worked. */
  function Selected<R>(batches: seq<seq<R>>, worked: seq<bool>): seq<seq<R>>
    requires |worked| == |batches|
  {
    if batches == [] then [] else (if worked[0] then [batches[0]] else []) + Selected(batches[1..], worked[1..])
  }

  function Misses(worked: seq<bool>): nat {
    if worked == [] then 0 else (if worked[0] then 0 else 1) + Misses(worked[1..])
  }

  /** The history of a tracked table gains the accepted batches in order, whole, but for those
      whose history statement failed, one error each. An untracked table's gains nothing. */
  ghost predicate Recorded<R>(tracked: bool, history0: seq<R>, errors0: nat, batches: seq<seq<R>>, history: seq<R>, errors: nat) {
    if tracked then exists worked :: RecordedBut(history0, errors0, batches, worked, history, errors)
    else history == history0 && errors == errors0
  }

  ghost predicate RecordedBut<R>(history0: seq<R>, errors0: nat, batches: seq<seq<R>>, worked: seq<bool>, history: seq<R>, errors: nat) {
    && |worked| == |batches| && errors == errors0 + Misses(worked)
    && history == history0 + Flatten(Selected(batches, worked))
  }

  lemma {:induction false} SelectedAppend<R>(a: seq<seq<R>>, wa: seq<bool>, b: seq<seq<R>>, wb: seq<bool>)
    requires |wa| == |a| && |wb| == |b|
    ensures Selected(a + b, wa + wb) == Selected(a, wa) + Selected(b, wb) && Misses(wa + wb) == Misses(wa) + Misses(wb)
  {
    if a == [] {
      assert a + b == b && wa + wb == wb;
    } else {
      SelectedAppend(a[1..], wa[1..], b, wb);
      assert (a + b)[0] == a[0] && (a + b)[1..] == a[1..] + b;
      assert (wa + wb)[0] == wa[0] && (wa + wb)[1..] == wa[1..] + wb;
      var first := if wa[0] then [a[0]] else [];
      assert Selected(a + b, wa + wb) == first + Selected((a + b)[1..], (wa + wb)[1..]);
      assert first + (Selected(a[1..], wa[1..]) + Selected(b, wb)) == first + Selected(a[1..], wa[1..]) + Selected(b, wb);
    }
  }

  lemma RecordedTwice<R>(tracked: bool, h0: seq<R>, e0: nat, a: seq<seq<R>>, h1: seq<R>, e1: nat, b: seq<seq<R>>, h2: seq<R>, e2: nat)
    requires Recorded(tracked, h0, e0, a, h1, e1) && Recorded(tracked, h1, e1, b, h2, e2)
    ensures Recorded(tracked, h0, e0, a + b, h2, e2)
  {
    if tracked {
      var wa :| RecordedBut(h0, e0, a, wa, h1, e1);
      var wb :| RecordedBut(h1, e1, b, wb, h2, e2);
      RecordedBoth(h0, e0, a, wa, h1, e1, b, wb, h2, e2);
    }
  }

  lemma RecordedBoth<R>(h0: seq<R>, e0: nat, a: seq<seq<R>>, wa: seq<bool>, h1: seq<R>, e1: nat, b: seq<seq<R>>, wb: seq<bool>, h2: seq<R>, e2: nat)
    requires RecordedBut(h0, e0, a, wa, h1, e1) && RecordedBut(h1, e1, b, wb, h2, e2)
    ensures RecordedBut(h0, e0, a + b, wa + wb, h2, e2)
  {
    SelectedAppend(a, wa, b, wb);
    FlattenAppend(Selected(a, wa), Selected(b, wb));
    assert h0 + Flatten(Selected(a, wa)) + Flatten(Selected(b, wb)) == h0 + (Flatten(Selected(a, wa)) + Flatten(Selected(b, wb)));
  }

  /** So while no history statement fails, a tracked table's history gains exactly the
      accepted rows. */
  lemma RecordedWhole<R>(h0: seq<R>, e0: nat, batches: seq<seq<R>>, h: seq<R>)
    requires Recorded(true, h0, e0, batches, h, e0)
    ensures h == h0 + Flatten(batches)
  {
    var worked :| RecordedBut(h0, e0, batches, worked, h, e0);
    NothingMissed(batches, worked);
  }

  lemma {:induction false} NothingMissed<R>(batches: seq<seq<R>>, worked: seq<bool>)
    requires |worked| == |batches| && Misses(worked) == 0
    ensures Selected(batches, worked) == batches
  {
    if batches != [] {
      NothingMissed(batches[1..], worked[1..]);
      assert [batches[0]] + batches[1..] == batches;
    }
  }

  lemma RecordedOne<R>(tracked: bool, h0: seq<R>, e0: nat, items: seq<R>, h: seq<R>, e: nat)
    requires tracked ==> (h == h0 + items && e == e0) || (h == h0 && e == e0 + 1)
    requires !tracked ==> h == h0 && e == e0
    ensures Recorded(tracked, h0, e0, [items], h, e)
  {
    assert [items][1..] == [] && Flatten([items]) == items && Flatten<R>([]) == [];
    assert [true][1..] == [] && [false][1..] == [];
    assert Selected([items], [true]) == [items] + Selected([items][1..], [true][1..]);
    assert Selected([items], [false]) == Selected([items][1..], [false][1..]);
    if tracked {
      assert RecordedBut(h0, e0, [items], [e == e0], h, e);
    }
  }

  lemma RecordedNone<R>(tracked: bool, h: seq<R>, e: nat)
    ensures Recorded(tracked, h, e, [], h, e)
  {
    assert RecordedBut(h, e, [], [], h, e);
  }

  /** The table and its history table, as the insert statements change them. */
  class Database<S, R, E> {
    const step: (S, R) -> Outcome<S, E>
    const trackHistory: bool
    var state: S
    var history: seq<R>
    var statements: nat      // INSERTs issued on the table itself
    var historyErrors: nat   // history INSERTs that failed and were only logged

    constructor (step: (S, R) -> Outcome<S, E>, trackHistory: bool, state: S)
      ensures this.step == step && this.trackHistory == trackHistory && this.state == state
      ensures history == [] && statements == 0 && historyErrors == 0
    {
      this.step, this.trackHistory, this.state := step, trackHistory, state;
      history, statements, historyErrors := [], 0, 0;
    }

    method Insert(rows: seq<R>) returns (o: Outcome<S, E>)
      modifies this`state, this`statements
      ensures o == Batch(step, old(state), rows)
      ensures state == if o.Stored? then o.state else old(state)
      ensures statements == old(statements) + 1
    {
      o := Batch(step, state, rows);
      statements := statements + 1;
      if o.Stored? {
        state := o.state;
      }
    }

    /** The history statement may fail for reasons of its own. */
    method InsertHistory(rows: seq<R>)
      modifies this`history, this`historyErrors
      ensures (history == old(history) + rows && historyErrors == old(historyErrors))
           || (history == old(history) && historyErrors == old(historyErrors) + 1)
    {
      if * {
        history := history + rows;
      } else {
        historyErrors := historyErrors + 1;
      }
    }

    /** The statement over the whole batch, followed by its history rows if it went in. */
    method InsertWhole(items: seq<R>) returns (o: Outcome<S, E>)
      modifies this`state, this`statements, this`history, this`historyErrors
      ensures o == Batch(step, old(state), items)
      ensures state == if o.Stored? then o.state else old(state)
      ensures statements == old(statements) + 1
      ensures Recorded(trackHistory, old(history), old(historyErrors), if o.Stored? then [items] else [], history, historyErrors)
      ensures o.Rejected? ==> history == old(history) && historyErrors == old(historyErrors)
    {
      ghost var h0, e0 := history, historyErrors;
      o := Insert(items);
      if o.Stored? && trackHistory {
        InsertHistory(items);
      }
      if o.Stored? {
        RecordedOne(trackHistory, h0, e0, items, history, historyErrors);
      } else {
        RecordedNone(trackHistory, history, historyErrors);
      }
    }

    /** Halving leaves the table, the success count and the failed rows, in input order, that
        row by row insertion does. A failed history statement changes none of that. */
    method RecursiveBatchInsert(items: seq<R>) returns (result: BatchInsertResult<R, E>)
      modifies this`state, this`statements, this`history, this`historyErrors
      decreases |items|
      ensures state == RowByRow(step, old(state), items).state
      ensures Reports(result, RowByRow(step, old(state), items))
      ensures statements == old(statements) + Statements(step, old(state), items)
      ensures Recorded(trackHistory, old(history), old(historyErrors), result.successItems, history, historyErrors)
    {
      if |items| == 0 {
        RecordedNone(trackHistory, history, historyErrors);
        return BatchInsertResult(0, [], []);
      }
      BatchStoredIffNoRowFails(step, state, items);
      LeafReports(step, state, items);
      var o := InsertWhole(items);
      if o.Stored? {
        return BatchInsertResult(|items|, [items], []);
      }
      if |items| == 1 {
        return BatchInsertResult(0, [], [FailedItem(items[0], o.error)]);
      }
      var mid := |items| / 2;
      RowByRowHalves(step, state, items);
      ghost var s0, h0, e0 := state, history, historyErrors;
      var left := RecursiveBatchInsert(items[..mid]);
      ghost var h1, e1 := history, historyErrors;
      var right := RecursiveBatchInsert(items[mid..]);
      RecordedTwice(trackHistory, h0, e0, left.successItems, h1, e1, right.successItems, history, historyErrors);
      JoinReports(step, s0, items, left, right);
      result := BatchInsertResult(left.successCount + right.successCount,
                                  left.successItems + right.successItems,
                                  left.failedItems + right.failedItems);
    }
  }
}
