/** The SQL outbox: one table in `created_at` order, each method one transaction. */
module SqlOutbox {
  import opened Wrappers
  import opened KeyLife
  import opened MemoryOutbox

  datatype RowState = RowPending | RowClaiming | RowDelivered | RowDead

  datatype Row = Row(
    key: string,
    kind: string,
    body: string,
    state: RowState,
    attempts: nat,
    availableAt: Option<int>,
    claimedAt: Option<int>,
    deliveredAt: Option<int>)

  type Table = seq<Row>

  function FindRow(rows: Table, k: string): Option<Row> {
    if rows == [] then None else if rows[0].key == k then Some(rows[0]) else FindRow(rows[1..], k)
  }

  /** The primary key, and a lease timestamp on every claimed row. */
  ghost predicate Keyed(rows: Table) {
    && (forall i, j :: 0 <= i < j < |rows| ==> rows[i].key != rows[j].key)
    && (forall i :: 0 <= i < |rows| && rows[i].state.RowClaiming? ==> rows[i].claimedAt.Some?)
  }

  function RowStatus(row: Row): Status {
    match row.state
    case RowPending => Pending(row.attempts, row.availableAt)
    case RowClaiming => Claimed(row.attempts, row.availableAt, row.claimedAt.GetOr(0))
    case RowDelivered => Delivered(row.attempts)
    case RowDead => Dead(row.attempts)
  }

  function SqlStatus(rows: Table, k: string): Status {
    var row := FindRow(rows, k);
    if row.None? then Absent else RowStatus(row.value)
  }

  /** When the row's last delivery was recorded. */
  function DeliveryTime(rows: Table, k: string): Option<int> {
    var row := FindRow(rows, k);
    if row.None? then None else row.value.deliveredAt
  }

  /** What the row gives a relay to send. */
  function ContentIn(rows: Table, k: string): Option<Content> {
    var row := FindRow(rows, k);
    if row.None? then None else Some(Content(row.value.kind, row.value.body))
  }

  // ------------------------------------------------------------------ statements

  /** INSERT ... ON CONFLICT (dedup_key) DO NOTHING; `attempts` starts at its column default. */
  function Inserted(rows: Table, m: Message): Table {
    if FindRow(rows, m.key).Some? then rows
    else rows + [Row(m.key, m.kind, m.body, RowPending, 0, m.availableAt, None, None)]
  }

  predicate RowDue(row: Row, now: int) {
    row.state.RowPending? && (row.availableAt.None? || row.availableAt.value <= now)
  }

  /** SELECT ... WHERE pending and due ORDER BY created_at LIMIT, as the keys it returns. */
  function SelectDue(rows: Table, limit: nat, now: int): seq<Row> {
    if rows == [] || limit == 0 then []
    else if RowDue(rows[0], now) then [rows[0]] + SelectDue(rows[1..], limit - 1, now)
    else SelectDue(rows[1..], limit, now)
  }

  /** UPDATE ... SET `change` WHERE `cond`. */
  function UpdateWhere(rows: Table, cond: Row -> bool, change: Row -> Row): Table {
    if rows == [] then []
    else [if cond(rows[0]) then change(rows[0]) else rows[0]] + UpdateWhere(rows[1..], cond, change)
  }

  function RowKeys(rows: seq<Row>): set<string> {
    set r | r in rows :: r.key
  }

  function Leased(rows: Table, keys: set<string>, now: int): Table {
    UpdateWhere(rows, (r: Row) => r.key in keys, (r: Row) => r.(state := RowClaiming, claimedAt := Some(now)))
  }

  function Judged(row: Row, retryAt: int): Row {
    row.(attempts := row.attempts + 1, availableAt := Some(retryAt), claimedAt := None,
         state := if row.attempts + 1 >= MAX_ATTEMPTS then RowDead else RowPending)
  }

  predicate StaleRow(row: Row, olderThan: int) {
    row.state.RowClaiming? && row.claimedAt.Some? && row.claimedAt.value < olderThan
  }

  function SqlApply(rows: Table, op: Op): Table {
    match op
    case OpEnqueue(m) => Inserted(rows, m)
    case OpClaim(limit, now) => Leased(rows, RowKeys(SelectDue(rows, limit, now)), now)
    case OpDelivered(k, at) => UpdateWhere(rows, (r: Row) => r.key == k, (r: Row) => r.(state := RowDelivered, deliveredAt := Some(at)))
    case OpFailed(k, retryAt) => UpdateWhere(rows, (r: Row) => r.key == k, (r: Row) => Judged(r, retryAt))
    case OpDead(k) => UpdateWhere(rows, (r: Row) => r.key == k, (r: Row) => r.(state := RowDead, claimedAt := None))
    case OpReclaim(olderThan) =>
      UpdateWhere(rows, (r: Row) => StaleRow(r, olderThan), (r: Row) => r.(state := RowPending, claimedAt := None))
  }

  function SqlEventOf(rows: Table, op: Op, k: string): Event {
    match op
    case OpEnqueue(m) => if m.key == k then Event.Enqueue(0, m.availableAt) else Nothing
    case OpClaim(limit, now) => if k in RowKeys(SelectDue(rows, limit, now)) then Claim(now) else Nothing
    case OpDelivered(key, _) => if key == k then Deliver else Nothing
    case OpFailed(key, retryAt) => if key == k then Fail(retryAt) else Nothing
    case OpDead(key) => if key == k then Kill else Nothing
    case OpReclaim(olderThan) =>
      var row := FindRow(rows, k);
      if row.Some? && StaleRow(row.value, olderThan) then Reclaim else Nothing
  }

  // ------------------------------------------------------------------- refinement

  lemma {:induction false} FoundRow(rows: Table, k: string)
    ensures FindRow(rows, k).Some? <==> exists i :: 0 <= i < |rows| && rows[i].key == k
    ensures FindRow(rows, k).Some? ==> FindRow(rows, k).value in rows && FindRow(rows, k).value.key == k
  {
    if rows != [] && rows[0].key != k {
      FoundRow(rows[1..], k);
      if exists i :: 0 <= i < |rows| && rows[i].key == k {
        var i :| 0 <= i < |rows| && rows[i].key == k;
        assert rows[1..][i - 1].key == k;
      }
    }
  }

  lemma {:induction false} TheRow(rows: Table, i: nat)
    requires Keyed(rows) && i < |rows|
    ensures FindRow(rows, rows[i].key) == Some(rows[i])
  {
    if i > 0 {
      assert rows[0].key != rows[i].key;
      TheRow(rows[1..], i - 1);
    }
  }

  /** An UPDATE that keeps keys changes the found row where the condition holds, and nothing else. */
  lemma {:induction false} UpdatedRow(rows: Table, cond: Row -> bool, change: Row -> Row, k: string)
    requires forall r :: change(r).key == r.key
    ensures var row := FindRow(rows, k);
            FindRow(UpdateWhere(rows, cond, change), k) ==
            if row.None? then None else Some(if cond(row.value) then change(row.value) else row.value)
    ensures |UpdateWhere(rows, cond, change)| == |rows|
    ensures forall i :: 0 <= i < |rows| ==>
              UpdateWhere(rows, cond, change)[i] == if cond(rows[i]) then change(rows[i]) else rows[i]
  {
    if rows != [] {
      UpdatedRow(rows[1..], cond, change, k);
      var rest := UpdateWhere(rows[1..], cond, change);
      var head := if cond(rows[0]) then change(rows[0]) else rows[0];
      assert UpdateWhere(rows, cond, change) == [head] + rest;
      assert ([head] + rest)[1..] == rest;
      forall i | 0 <= i < |rows|
        ensures UpdateWhere(rows, cond, change)[i] == if cond(rows[i]) then change(rows[i]) else rows[i]
      {
        if i > 0 {
          assert rows[i] == rows[1..][i - 1];
        }
      }
    }
  }

  lemma {:induction false} SelectedAreDue(rows: Table, limit: nat, now: int)
    ensures forall r :: r in SelectDue(rows, limit, now) ==> r in rows && RowDue(r, now)
    ensures |SelectDue(rows, limit, now)| <= limit
  {
    if rows != [] && limit > 0 {
      SelectedAreDue(rows[1..], if RowDue(rows[0], now) then limit - 1 else limit, now);
    }
  }

  /** A batch is as large as it may be: short of the limit only when every due row is in it. */
  lemma {:induction false} SelectionIsMaximal(rows: Table, limit: nat, now: int)
    ensures |SelectDue(rows, limit, now)| < limit ==> forall r :: r in rows && RowDue(r, now) ==> r in SelectDue(rows, limit, now)
  {
    if rows != [] && limit > 0 {
      SelectionIsMaximal(rows[1..], if RowDue(rows[0], now) then limit - 1 else limit, now);
    }
  }

  lemma LeaseMoves(rows: Table, limit: nat, now: int, k: string)
    requires Keyed(rows)
    ensures var op := OpClaim(limit, now);
            && Possible(SqlStatus(rows, k), SqlEventOf(rows, op, k))
            && SqlStatus(SqlApply(rows, op), k) == SqlNext(SqlStatus(rows, k), SqlEventOf(rows, op, k))
  {
    hide UpdateWhere, FindRow, SelectDue, Keyed;
    var keys := RowKeys(SelectDue(rows, limit, now));
    UpdatedRow(rows, (r: Row) => r.key in keys, (r: Row) => r.(state := RowClaiming, claimedAt := Some(now)), k);
    SelectedAreDue(rows, limit, now);
    FoundRow(rows, k);
    if k in keys {
      SelectedRow(rows, limit, now, k);
    }
  }

  lemma SelectedRow(rows: Table, limit: nat, now: int, k: string)
    requires Keyed(rows) && k in RowKeys(SelectDue(rows, limit, now))
    ensures FindRow(rows, k).Some? && RowDue(FindRow(rows, k).value, now)
  {
    var r :| r in SelectDue(rows, limit, now) && r.key == k;
    SelectedAreDue(rows, limit, now);
    var i :| 0 <= i < |rows| && rows[i] == r;
    TheRow(rows, i);
  }

  lemma InsertMoves(rows: Table, m: Message, k: string)
    ensures SqlStatus(Inserted(rows, m), k) == SqlNext(SqlStatus(rows, k), SqlEventOf(rows, OpEnqueue(m), k))
  {
    hide FindRow;
    AppendedRow(rows, Row(m.key, m.kind, m.body, RowPending, 0, m.availableAt, None, None), k);
  }

  lemma {:induction false} AppendedRow(rows: Table, row: Row, k: string)
    ensures FindRow(rows + [row], k) == if FindRow(rows, k).Some? then FindRow(rows, k) else if row.key == k then Some(row) else None
  {
    if rows == [] {
      assert rows + [row] == [row];
    } else {
      assert (rows + [row])[1..] == rows[1..] + [row];
      AppendedRow(rows[1..], row, k);
    }
  }

  /** Every SQL operation moves every key as `SqlNext` says. */
  lemma EveryRowMoves(rows: Table, op: Op, k: string)
    requires Keyed(rows)
    ensures Possible(SqlStatus(rows, k), SqlEventOf(rows, op, k))
    ensures SqlStatus(SqlApply(rows, op), k) == SqlNext(SqlStatus(rows, k), SqlEventOf(rows, op, k))
  {
    match op
    case OpEnqueue(m) => InsertMoves(rows, m, k);
    case OpClaim(limit, now) => LeaseMoves(rows, limit, now, k);
    case OpDelivered(key, _) => VerdictMoves(rows, op, key, k);
    case OpFailed(key, _) => VerdictMoves(rows, op, key, k);
    case OpDead(key) => VerdictMoves(rows, op, key, k);
    case OpReclaim(olderThan) =>
      hide UpdateWhere, FindRow, Keyed;
      UpdatedRow(rows, (r: Row) => StaleRow(r, olderThan), (r: Row) => r.(state := RowPending, claimedAt := None), k);
  }

  lemma VerdictMoves(rows: Table, op: Op, key: string, k: string)
    requires (op.OpDelivered? || op.OpFailed? || op.OpDead?) && op.k == key
    ensures Possible(SqlStatus(rows, k), SqlEventOf(rows, op, k))
    ensures SqlStatus(SqlApply(rows, op), k) == SqlNext(SqlStatus(rows, k), SqlEventOf(rows, op, k))
  {
    hide UpdateWhere, FindRow;
    FoundRow(rows, k);
    match op
    case OpDelivered(_, at) =>
      UpdatedRow(rows, (r: Row) => r.key == key, (r: Row) => r.(state := RowDelivered, deliveredAt := Some(at)), k);
    case OpFailed(_, retryAt) => UpdatedRow(rows, (r: Row) => r.key == key, (r: Row) => Judged(r, retryAt), k);
    case OpDead(_) => UpdatedRow(rows, (r: Row) => r.key == key, (r: Row) => r.(state := RowDead, claimedAt := None), k);
  }

  lemma StaysKeyed(rows: Table, op: Op)
    requires Keyed(rows)
    ensures Keyed(SqlApply(rows, op))
  {
    hide FindRow, UpdateWhere, SelectDue;
    match op
    case OpEnqueue(m) => FoundRow(rows, m.key);
    case OpClaim(limit, now) =>
      var keys := RowKeys(SelectDue(rows, limit, now));
      UpdatedRow(rows, (r: Row) => r.key in keys, (r: Row) => r.(state := RowClaiming, claimedAt := Some(now)), "");
    case OpDelivered(key, at) =>
      UpdatedRow(rows, (r: Row) => r.key == key, (r: Row) => r.(state := RowDelivered, deliveredAt := Some(at)), "");
    case OpFailed(key, retryAt) => UpdatedRow(rows, (r: Row) => r.key == key, (r: Row) => Judged(r, retryAt), "");
    case OpDead(key) => UpdatedRow(rows, (r: Row) => r.key == key, (r: Row) => r.(state := RowDead, claimedAt := None), "");
    case OpReclaim(olderThan) =>
      UpdatedRow(rows, (r: Row) => StaleRow(r, olderThan), (r: Row) => r.(state := RowPending, claimedAt := None), "");
  }

  /** What a statement leaves of a delivery time: only a delivery sets it, and a later failure does not clear it. */
  function TimeAfter(time: Option<int>, s: Status, op: Op, k: string): Option<int> {
    if op.OpDelivered? && op.k == k && !s.Absent? then Some(op.at) else time
  }

  /** What every statement leaves of a row's delivery time and of its kind and text. */
  lemma EveryTimeMoves(rows: Table, op: Op, k: string)
    ensures DeliveryTime(SqlApply(rows, op), k) == TimeAfter(DeliveryTime(rows, k), SqlStatus(rows, k), op, k)
    ensures ContentIn(SqlApply(rows, op), k) == ContentAfter(ContentIn(rows, k), op, k)
  {
    hide UpdateWhere, FindRow, SelectDue;
    FoundRow(rows, k);
    match op
    case OpEnqueue(m) => AppendedRow(rows, Row(m.key, m.kind, m.body, RowPending, 0, m.availableAt, None, None), k);
    case OpClaim(limit, now) =>
      var keys := RowKeys(SelectDue(rows, limit, now));
      UpdatedRow(rows, (r: Row) => r.key in keys, (r: Row) => r.(state := RowClaiming, claimedAt := Some(now)), k);
    case OpDelivered(key, at) =>
      UpdatedRow(rows, (r: Row) => r.key == key, (r: Row) => r.(state := RowDelivered, deliveredAt := Some(at)), k);
    case OpFailed(key, retryAt) => UpdatedRow(rows, (r: Row) => r.key == key, (r: Row) => Judged(r, retryAt), k);
    case OpDead(key) => UpdatedRow(rows, (r: Row) => r.key == key, (r: Row) => r.(state := RowDead, claimedAt := None), k);
    case OpReclaim(olderThan) =>
      UpdatedRow(rows, (r: Row) => StaleRow(r, olderThan), (r: Row) => r.(state := RowPending, claimedAt := None), k);
  }

  lemma TimesAfter(rows: Table, op: Op)
    ensures forall k :: DeliveryTime(SqlApply(rows, op), k) == TimeAfter(DeliveryTime(rows, k), SqlStatus(rows, k), op, k)
    ensures forall k :: ContentIn(SqlApply(rows, op), k) == ContentAfter(ContentIn(rows, k), op, k)
  {
    hide SqlStatus, SqlApply, DeliveryTime, ContentIn;
    forall k
      ensures DeliveryTime(SqlApply(rows, op), k) == TimeAfter(DeliveryTime(rows, k), SqlStatus(rows, k), op, k)
      ensures ContentIn(SqlApply(rows, op), k) == ContentAfter(ContentIn(rows, k), op, k)
    {
      EveryTimeMoves(rows, op, k);
    }
  }

  // ------------------------------------------------------------------- retention

  /** Thirty days. */
  const RETENTION_SECONDS := 2_592_000

  predicate Expirable(row: Row, now: int) {
    row.state.RowDelivered? && row.deliveredAt.Some? && row.deliveredAt.value < now - RETENTION_SECONDS
  }

  /** The rows a cleanup deletes. */
  function ExpirableKeys(rows: Table, now: int): set<string> {
    set r | r in rows && Expirable(r, now) :: r.key
  }

  lemma ExpirableRow(rows: Table, now: int, k: string)
    requires Keyed(rows) && k in ExpirableKeys(rows, now)
    ensures SqlStatus(rows, k).Delivered? && DeliveryTime(rows, k).Some?
    ensures DeliveryTime(rows, k).value < now - RETENTION_SECONDS
  {
    var r :| r in rows && Expirable(r, now) && r.key == k;
    var i :| 0 <= i < |rows| && rows[i] == r;
    TheRow(rows, i);
  }

  /** DELETE ... WHERE the key is one of `keys`. */
  function Deleted(rows: Table, keys: set<string>): Table {
    if rows == [] then [] else (if rows[0].key in keys then [] else [rows[0]]) + Deleted(rows[1..], keys)
  }

  lemma {:induction false} DeletedRows(rows: Table, keys: set<string>, k: string)
    ensures SqlStatus(Deleted(rows, keys), k) == if k in keys then Absent else SqlStatus(rows, k)
    ensures DeliveryTime(Deleted(rows, keys), k) == if k in keys then None else DeliveryTime(rows, k)
    ensures ContentIn(Deleted(rows, keys), k) == if k in keys then None else ContentIn(rows, k)
  {
    if rows != [] {
      var rest := Deleted(rows[1..], keys);
      DeletedRows(rows[1..], keys, k);
      if rows[0].key in keys {
        assert Deleted(rows, keys) == rest;
      } else {
        assert Deleted(rows, keys) == [rows[0]] + rest && ([rows[0]] + rest)[1..] == rest;
      }
    }
  }

  lemma {:induction false} DeletedComesFrom(rows: Table, keys: set<string>, j: nat)
    requires j < |Deleted(rows, keys)|
    ensures exists m :: j <= m < |rows| && rows[m] == Deleted(rows, keys)[j]
  {
    var rest := Deleted(rows[1..], keys);
    if rows[0].key in keys {
      assert Deleted(rows, keys) == rest;
      DeletedComesFrom(rows[1..], keys, j);
      var m :| j <= m < |rows[1..]| && rows[1..][m] == rest[j];
      assert rows[m + 1] == rest[j];
    } else if j > 0 {
      assert Deleted(rows, keys) == [rows[0]] + rest;
      DeletedComesFrom(rows[1..], keys, j - 1);
      var m :| j - 1 <= m < |rows[1..]| && rows[1..][m] == rest[j - 1];
      assert rows[m + 1] == Deleted(rows, keys)[j];
    }
  }

  lemma {:induction false} DeletionStaysKeyed(rows: Table, keys: set<string>)
    requires Keyed(rows)
    ensures Keyed(Deleted(rows, keys))
  {
    if rows != [] {
      var tail, rest := rows[1..], Deleted(rows[1..], keys);
      DeletionStaysKeyed(tail, keys);
      if rows[0].key in keys {
        assert Deleted(rows, keys) == rest;
      } else {
        assert Deleted(rows, keys) == [rows[0]] + rest;
        forall j | 0 <= j < |rest| ensures rest[j].key != rows[0].key {
          DeletedComesFrom(tail, keys, j);
        }
      }
    }
  }

  function SqlRun(ops: seq<Op>): Table
    decreases |ops|
  {
    if ops == [] then [] else SqlApply(SqlRun(ops[..|ops| - 1]), ops[|ops| - 1])
  }

  function SqlHistoryOf(ops: seq<Op>, k: string): seq<Change>
    decreases |ops|
  {
    if ops == [] then []
    else
      var before, op := SqlRun(ops[..|ops| - 1]), ops[|ops| - 1];
      SqlHistoryOf(ops[..|ops| - 1], k) + [Change(SqlStatus(before, k), SqlEventOf(before, op, k), SqlStatus(SqlRun(ops), k))]
  }

  /** Every run of the SQL outbox gives every key a history of `SqlNext`, with attempts starting at 0. */
  lemma {:induction false} SqlRunsAreHistories(ops: seq<Op>, k: string)
    ensures Keyed(SqlRun(ops))
    ensures IsHistory(Postgres, SqlHistoryOf(ops, k)) && FreshEnqueues(SqlHistoryOf(ops, k))
    ensures EndOf(SqlHistoryOf(ops, k)) == SqlStatus(SqlRun(ops), k)
    decreases |ops|
  {
    if ops != [] {
      var init, op := ops[..|ops| - 1], ops[|ops| - 1];
      SqlRunsAreHistories(init, k);
      EveryRowMoves(SqlRun(init), op, k);
      StaysKeyed(SqlRun(init), op);
      hide SqlStatus, SqlApply;
      var c := Change(SqlStatus(SqlRun(init), k), SqlEventOf(SqlRun(init), op, k), SqlStatus(SqlRun(ops), k));
      assert SqlHistoryOf(ops, k) == SqlHistoryOf(init, k) + [c];
      SqlHistoryGrows(SqlHistoryOf(init, k), c);
    }
  }

  lemma SqlHistoryGrows(h: seq<Change>, c: Change)
    requires IsHistory(Postgres, h) && FreshEnqueues(h) && c.before == EndOf(h)
    requires Possible(c.before, c.event) && c.after == SqlNext(c.before, c.event)
    requires c.event.Enqueue? ==> c.event.attempts == 0
    ensures IsHistory(Postgres, h + [c]) && FreshEnqueues(h + [c]) && EndOf(h + [c]) == c.after
  {
  }

  /** In every run a row has the kind and the text of the enqueue that inserted it, and a relay that claims it gets exactly
    * those, whatever verdicts, late ones included, and reclaims there were before. */
  lemma SqlRelaysGetWhatWasEnqueued(ops: seq<Op>, k: string, i: nat, limit: nat, now: int)
    requires FirstEnqueue(ops, k, i)
    ensures ContentIn(SqlRun(ops), k) == Some(Content(ops[i].m.kind, ops[i].m.body))
    ensures forall r :: r in SelectDue(SqlRun(ops), limit, now) && r.key == k ==> r.kind == ops[i].m.kind && r.body == ops[i].m.body
  {
    SqlRunsAreHistories(ops, k);
    ContentOfSqlRun(ops, k, i);
    SelectedAreHeld(SqlRun(ops), limit, now);
  }

  lemma {:induction false} ContentOfSqlRun(ops: seq<Op>, k: string, i: nat)
    requires forall j :: 0 <= j < i && j < |ops| ==> !(ops[j].OpEnqueue? && ops[j].m.key == k)
    requires i < |ops| ==> ops[i].OpEnqueue? && ops[i].m.key == k
    ensures ContentIn(SqlRun(ops), k) == if i < |ops| then Some(Content(ops[i].m.kind, ops[i].m.body)) else None
    decreases |ops|
  {
    hide SqlApply;
    if ops != [] {
      var n := |ops| - 1;
      hide FindRow;
      EveryTimeMoves(SqlRun(ops[..n]), ops[n], k);
      ContentOfSqlRun(ops[..n], k, i);
    }
  }

  /** A selected row is the one its key has. */
  lemma SelectedAreHeld(rows: Table, limit: nat, now: int)
    requires Keyed(rows)
    ensures forall r :: r in SelectDue(rows, limit, now) ==>
      SqlStatus(rows, r.key) == Pending(r.attempts, r.availableAt) && ContentIn(rows, r.key) == Some(Content(r.kind, r.body))
  {
    hide SelectDue, FindRow;
    SelectedAreDue(rows, limit, now);
    forall r | r in SelectDue(rows, limit, now)
      ensures SqlStatus(rows, r.key) == Pending(r.attempts, r.availableAt) && ContentIn(rows, r.key) == Some(Content(r.kind, r.body))
    {
      var i :| 0 <= i < |rows| && rows[i] == r;
      TheRow(rows, i);
    }
  }

  /** A batch is oldest first: the selected rows keep the order of the table, and no due row waits in front of one. */
  lemma {:induction false} OldestFirst(rows: Table, limit: nat, now: int)
    requires forall i, j :: 0 <= i < j < |rows| ==> rows[i].key != rows[j].key
    ensures IsSublist(SelectDue(rows, limit, now), rows)
    ensures forall i, j :: 0 <= i < j < |rows| && RowDue(rows[i], now) && rows[j] in SelectDue(rows, limit, now) ==>
              rows[i] in SelectDue(rows, limit, now)
  {
    hide RowDue;
    if rows != [] && limit > 0 {
      var left := if RowDue(rows[0], now) then limit - 1 else limit;
      var rest := SelectDue(rows[1..], left, now);
      assert forall i :: 0 < i < |rows| ==> rows[i] == rows[1..][i - 1];
      OldestFirst(rows[1..], left, now);
      SelectedAreDue(rows[1..], left, now);
      if RowDue(rows[0], now) {
        assert SelectDue(rows, limit, now) == [rows[0]] + rest && ([rows[0]] + rest)[1..] == rest;
      }
    }
  }

  ghost predicate RowInBatch(selected: seq<Row>, k: string) {
    exists r :: r in selected && r.key == k
  }

  lemma LeasedStatuses(rows: Table, limit: nat, now: int)
    requires Keyed(rows)
    ensures forall k :: (
      SqlNext(SqlStatus(rows, k), SqlEventOf(rows, OpClaim(limit, now), k))
      == if RowInBatch(SelectDue(rows, limit, now), k) then LeasedAt(SqlStatus(rows, k), now) else SqlStatus(rows, k))
  {
    hide SelectDue, SqlStatus;
  }

  /** Lease accounting for the SQL outbox, stale and late verdicts included. */
  lemma SqlLeasesAreAccountedFor(ops: seq<Op>, k: string)
    ensures var h := SqlHistoryOf(ops, k);
            Count(h, IsClaim) + (if SqlStatus(SqlRun(ops), k).Pending? then 1 else 0) <= 1 + Count(h, IsFail) + Count(h, IsReclaim)
  {
    SqlRunsAreHistories(ops, k);
    LeasesAreAccountedFor(Postgres, SqlHistoryOf(ops, k));
  }

  /** When every verdict comes from the current lease holder, the SQL table refines the in-memory outbox:
    * each key's history is an in-memory history, so delivered and dead absorb and at most five failures
    * come before dead. */
  lemma SqlRefinesMemoryUnderHolders(ops: seq<Op>, k: string)
    requires HolderOnly(SqlHistoryOf(ops, k))
    ensures IsHistory(InMemory, SqlHistoryOf(ops, k))
    ensures LiveFails(SqlHistoryOf(ops, k)) <= MAX_ATTEMPTS
  {
    SqlRunsAreHistories(ops, k);
    HolderOnlyHistoriesAgree(SqlHistoryOf(ops, k));
    AtMostFiveFailures(SqlHistoryOf(ops, k));
  }

  // -------------------------------------------------------------------- the class

  function StaleCount(rows: Table, olderThan: int): nat {
    if rows == [] then 0 else (if StaleRow(rows[0], olderThan) then 1 else 0) + StaleCount(rows[1..], olderThan)
  }

  /** Every key's status after a statement, at once. */
  lemma StatusesAfter(rows: Table, op: Op)
    requires Keyed(rows)
    ensures forall k :: SqlStatus(SqlApply(rows, op), k) == SqlNext(SqlStatus(rows, k), SqlEventOf(rows, op, k))
  {
    hide SqlStatus, SqlApply, SqlNext, SqlEventOf, Keyed;
    forall k ensures SqlStatus(SqlApply(rows, op), k) == SqlNext(SqlStatus(rows, k), SqlEventOf(rows, op, k)) {
      EveryRowMoves(rows, op, k);
    }
  }

  lemma StaleStatuses(rows: Table, olderThan: int)
    requires Keyed(rows)
    ensures forall k :: SqlNext(SqlStatus(rows, k), SqlEventOf(rows, OpReclaim(olderThan), k)) == Reclaimed(SqlStatus(rows, k), olderThan)
  {
    hide FindRow;
    forall k ensures SqlNext(SqlStatus(rows, k), SqlEventOf(rows, OpReclaim(olderThan), k)) == Reclaimed(SqlStatus(rows, k), olderThan) {
      FoundRow(rows, k);
    }
  }

  class PostgresOutbox {
    var rows: Table

    ghost predicate Valid()
      reads this
    {
      Keyed(rows)
    }

    constructor ()
      ensures Valid() && rows == []
    {
      rows := [];
    }

    method Enqueue(message: Message)
      requires Valid()
      modifies this
      ensures Valid() && rows == SqlApply(old(rows), OpEnqueue(message))
      ensures forall k :: (
        SqlStatus(rows, k) == if k == message.key && SqlStatus(old(rows), k).Absent? then Pending(0, message.availableAt) else SqlStatus(old(rows), k))
      ensures forall k :: (
        ContentIn(rows, k) == if k == message.key && ContentIn(old(rows), k).None? then Some(Content(message.kind, message.body))
                              else ContentIn(old(rows), k))
    {
      TimesAfter(rows, OpEnqueue(message));
      StaysKeyed(rows, OpEnqueue(message));
      StatusesAfter(rows, OpEnqueue(message));
      hide FindRow, Inserted;
      rows := Inserted(rows, message);
    }

    /** The row lock and the status flip are one transaction. */
    method ClaimBatch(limit: nat, now: int) returns (messages: seq<Message>)
      requires Valid()
      modifies this
      ensures Valid() && rows == SqlApply(old(rows), OpClaim(limit, now))
      ensures var selected := SelectDue(old(rows), limit, now);
              |messages| == |selected| && forall i :: 0 <= i < |messages| ==>
                messages[i] == Message(selected[i].key, selected[i].kind, selected[i].body, selected[i].availableAt, selected[i].attempts)
      ensures |messages| <= limit && (forall m :: m in messages ==>
                && (m.availableAt.None? || m.availableAt.value <= now)
                && SqlStatus(old(rows), m.key) == Pending(m.attempts, m.availableAt)
                && ContentIn(old(rows), m.key) == Some(Content(m.kind, m.body)))
      ensures |messages| < limit ==> forall r :: (
        r in old(rows) && r.state.RowPending? && (r.availableAt.None? || r.availableAt.value <= now) ==>
          RowInBatch(SelectDue(old(rows), limit, now), r.key))
      ensures forall k :: (
        SqlStatus(rows, k) == if RowInBatch(SelectDue(old(rows), limit, now), k) then LeasedAt(SqlStatus(old(rows), k), now)
                              else SqlStatus(old(rows), k))
      ensures forall k :: ContentIn(rows, k) == ContentIn(old(rows), k)
    {
      hide FindRow, UpdateWhere, SelectDue, SqlStatus, ContentIn, SqlApply;
      StatusesAfter(rows, OpClaim(limit, now));
      TimesAfter(rows, OpClaim(limit, now));
      LeasedStatuses(rows, limit, now);
      SelectedAreHeld(rows, limit, now);
      SelectedAreDue(rows, limit, now);
      SelectionIsMaximal(rows, limit, now);
      StaysKeyed(rows, OpClaim(limit, now));
      ClaimIsLeased(rows, limit, now);
      var selected := SelectDue(rows, limit, now);
      if selected == [] {
        UpdateNothing(rows, now);
        return [];
      }
      rows := Leased(rows, RowKeys(selected), now);
      messages := [];
      for i := 0 to |selected|
        invariant rows == SqlApply(old(rows), OpClaim(limit, now))
        invariant |messages| == i && forall j :: 0 <= j < i ==>
          messages[j] == Message(selected[j].key, selected[j].kind, selected[j].body, selected[j].availableAt, selected[j].attempts)
      {
        var row := selected[i];
        messages := messages + [Message(row.key, row.kind, row.body, row.availableAt, row.attempts)];
      }
    }

    method MarkDelivered(key: string, now: int)
      requires Valid()
      modifies this
      ensures Valid() && rows == SqlApply(old(rows), OpDelivered(key, now))
      ensures forall k :: (
        SqlStatus(rows, k) == if k == key && !SqlStatus(old(rows), k).Absent? then Delivered(SqlStatus(old(rows), k).attempts) else SqlStatus(old(rows), k))
      ensures forall k :: (
        DeliveryTime(rows, k) == if k == key && !SqlStatus(old(rows), k).Absent? then Some(now) else DeliveryTime(old(rows), k))
      ensures forall k :: ContentIn(rows, k) == ContentIn(old(rows), k)
    {
      TimesAfter(rows, OpDelivered(key, now));
      StaysKeyed(rows, OpDelivered(key, now));
      StatusesAfter(rows, OpDelivered(key, now));
      hide FindRow, UpdateWhere;
      rows := UpdateWhere(rows, (r: Row) => r.key == key, (r: Row) => r.(state := RowDelivered, deliveredAt := Some(now)));
    }

    method MarkFailed(key: string, retryAt: int)
      requires Valid()
      modifies this
      ensures Valid() && rows == SqlApply(old(rows), OpFailed(key, retryAt))
      ensures forall k :: (
        SqlStatus(rows, k) == if k == key && !SqlStatus(old(rows), k).Absent? then Retried(SqlStatus(old(rows), k).attempts, retryAt)
           else SqlStatus(old(rows), k))
      ensures forall k :: ContentIn(rows, k) == ContentIn(old(rows), k)
    {
      TimesAfter(rows, OpFailed(key, retryAt));
      StaysKeyed(rows, OpFailed(key, retryAt));
      StatusesAfter(rows, OpFailed(key, retryAt));
      hide FindRow, UpdateWhere;
      rows := UpdateWhere(rows, (r: Row) => r.key == key, (r: Row) => Judged(r, retryAt));
    }

    method MarkDead(key: string)
      requires Valid()
      modifies this
      ensures Valid() && rows == SqlApply(old(rows), OpDead(key))
      ensures forall k :: (
        SqlStatus(rows, k) == if k == key && !SqlStatus(old(rows), k).Absent? then Dead(SqlStatus(old(rows), k).attempts) else SqlStatus(old(rows), k))
      ensures forall k :: ContentIn(rows, k) == ContentIn(old(rows), k)
    {
      TimesAfter(rows, OpDead(key));
      StaysKeyed(rows, OpDead(key));
      StatusesAfter(rows, OpDead(key));
      hide FindRow, UpdateWhere;
      rows := UpdateWhere(rows, (r: Row) => r.key == key, (r: Row) => r.(state := RowDead, claimedAt := None));
    }

    method ReclaimStale(olderThan: int) returns (count: nat)
      requires Valid()
      modifies this
      ensures Valid() && rows == SqlApply(old(rows), OpReclaim(olderThan))
      ensures forall k :: SqlStatus(rows, k) == Reclaimed(SqlStatus(old(rows), k), olderThan)
      ensures count == StaleCount(old(rows), olderThan)
      ensures forall k :: ContentIn(rows, k) == ContentIn(old(rows), k)
    {
      TimesAfter(rows, OpReclaim(olderThan));
      StaysKeyed(rows, OpReclaim(olderThan));
      StatusesAfter(rows, OpReclaim(olderThan));
      StaleStatuses(rows, olderThan);
      hide FindRow, UpdateWhere;
      count := StaleCount(rows, olderThan);
      rows := UpdateWhere(rows, (r: Row) => StaleRow(r, olderThan), (r: Row) => r.(state := RowPending, claimedAt := None));
    }
  }

  lemma ClaimIsLeased(rows: Table, limit: nat, now: int)
    ensures SqlApply(rows, OpClaim(limit, now)) == Leased(rows, RowKeys(SelectDue(rows, limit, now)), now)
  {
  }

  lemma {:induction false} UpdateNothing(rows: Table, now: int)
    ensures Leased(rows, RowKeys([]), now) == rows
  {
    var keys := RowKeys([]);
    UpdatedRow(rows, (r: Row) => r.key in keys, (r: Row) => r.(state := RowClaiming, claimedAt := Some(now)), "");
  }
}
