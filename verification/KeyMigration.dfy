/** Revision 0014: idempotency keys become unique per tenant or per Execution, and DISPATCHED goes. */
module KeyMigration {
  import opened Sql

  /** Rows; `rest` stands for the columns no statement touches, and a column that is not there is null. */
  datatype Execution = Execution(tenant: Value, key: Value, cancelKey: Value, status: Value, rest: Value)

  /** A row of `execution_operations` or `execution_retries`. */
  datatype Command = Command(execution: Value, key: Value, rest: Value)

  /** `execution` is the `execution_id` text of the receipt's result, null when there is none. */
  datatype Receipt = Receipt(key: Value, command: string, execution: Value, scope: Value, rest: Value)

  /** Whether keys are unique on their own or only within their scope. */
  datatype Reach = Global | Scoped

  datatype Schema = Schema(
    dispatched: bool, submit: Reach, cancelUnique: bool, operation: Reach, retry: Reach, receipt: Reach, scope: bool)

  datatype Database = Database(
    executions: map<nat, Execution>, operations: map<nat, Command>, retries: map<nat, Command>,
    receipts: map<nat, Receipt>, schema: Schema)

  const STATUSES := {"QUEUED", "RUNNING", "WAITING_FOR_OPERATION", "FINALIZING", "CANCEL_REQUESTED", "CANCELLED",
                     "SUCCEEDED", "FAILED"}
  const DISPATCHED := "DISPATCHED"

  function NewStatus(e: Execution): Truth {
    OneOf(e.status, STATUSES)
  }

  function OldStatus(e: Execution): Truth {
    OneOf(e.status, {DISPATCHED} + STATUSES)
  }

  function SubmitKey(e: Execution): seq<Value> {
    [e.key]
  }

  function TenantKey(e: Execution): seq<Value> {
    [e.tenant, e.key]
  }

  function CancelKey(e: Execution): seq<Value> {
    [e.cancelKey]
  }

  function CommandKey(c: Command): seq<Value> {
    [c.key]
  }

  function ExecutionKey(c: Command): seq<Value> {
    [c.execution, c.key]
  }

  function ReceiptKey(r: Receipt): seq<Value> {
    [r.key]
  }

  function ScopeKey(r: Receipt): seq<Value> {
    [r.scope, r.key]
  }

  predicate CommandsHold(rows: map<nat, Command>, reach: Reach) {
    match reach
    case Global => Unique(rows, CommandKey)
    case Scoped => Unique(rows, ExecutionKey)
  }

  predicate ExecutionsHold(d: Database) {
    && (forall a :: a in d.executions ==> d.executions[a].status.Text?)
    && Admitted(d.executions, if d.schema.dispatched then OldStatus else NewStatus)
    && Unique(d.executions, if d.schema.submit.Global? then SubmitKey else TenantKey)
    && (d.schema.cancelUnique ==> Unique(d.executions, CancelKey))
  }

  predicate ReceiptsHold(d: Database) {
    && Unique(d.receipts, if d.schema.receipt.Global? then ReceiptKey else ScopeKey)
    && (d.schema.scope || forall a :: a in d.receipts ==> d.receipts[a].scope == Null)
  }

  /** Every constraint the schema lists holds. */
  predicate Holds(d: Database) {
    ExecutionsHold(d) && CommandsHold(d.operations, d.schema.operation) && CommandsHold(d.retries, d.schema.retry)
    && ReceiptsHold(d)
  }

  const GLOBAL := Schema(true, Global, true, Global, Global, Global, false)
  const SCOPED := Schema(false, Scoped, false, Scoped, Scoped, Scoped, true)

  // ----------------------------------------------------------- the scope update

  const LIMIT := 64

  predicate Blank(s: string) {
    forall i :: 0 <= i < |s| ==> s[i] == ' '
  }

  /** Whether a text fits a 64-character column: what is too much may only be blanks, which are cut. */
  predicate Fits(s: string) {
    |s| <= LIMIT || Blank(s[LIMIT..])
  }

  predicate OnExecution(r: Receipt) {
    (r.command == "execution_finalize" || r.command == "execution_operation_create") && r.execution.Text?
  }

  function ScopeText(r: Receipt): string
    requires OnExecution(r)
  {
    "execution:" + r.execution.s
  }

  function InScope(r: Receipt): Receipt {
    if !OnExecution(r) then r.(scope := Text(""))
    else if |ScopeText(r)| <= LIMIT then r.(scope := Text(ScopeText(r)))
    else r.(scope := Text(ScopeText(r)[..LIMIT]))
  }

  /** The update can write every scope. */
  predicate ScopesFit(receipts: map<nat, Receipt>) {
    forall a :: a in receipts && OnExecution(receipts[a]) ==> Fits(ScopeText(receipts[a]))
  }

  predicate NoneDispatched(d: Database) {
    forall a :: a in d.executions ==> d.executions[a].status != Text(DISPATCHED)
  }

  /** Revision 0014 as one move each way. */
  function Upgraded(d: Database): Database {
    d.(receipts := map a | a in d.receipts :: InScope(d.receipts[a]), schema := SCOPED)
  }

  function Downgraded(d: Database): Database {
    d.(receipts := map a | a in d.receipts :: d.receipts[a].(scope := Null), schema := GLOBAL)
  }

  /** Every key is unique without its scope. */
  predicate GloballyUnique(d: Database) {
    && Unique(d.executions, SubmitKey) && Unique(d.executions, CancelKey)
    && Unique(d.operations, CommandKey) && Unique(d.retries, CommandKey)
    && Unique(d.receipts, ReceiptKey)
  }

  // ------------------------------------------------------------------- lemmas

  lemma StatusesDiffer()
    ensures DISPATCHED !in STATUSES
  {
    assert DISPATCHED[0] == 'D';
    assert forall s :: s in STATUSES ==> s[0] != 'D';
  }

  /** The narrower status check passes exactly when no Execution is DISPATCHED. */
  lemma StatusCheck(d: Database)
    requires Holds(d) && d.schema == GLOBAL
    ensures Admitted(d.executions, NewStatus) <==> NoneDispatched(d)
  {
    StatusesDiffer();
    if NoneDispatched(d) {
      forall a | a in d.executions ensures NewStatus(d.executions[a]) != No {
        assert OldStatus(d.executions[a]) != No;
      }
    } else {
      var a :| a in d.executions && d.executions[a].status == Text(DISPATCHED);
      assert NewStatus(d.executions[a]) == No;
    }
  }

  /** A pair of keys that clash inside a scope clash globally. */
  lemma ScopedClash(scope: Value, key: Value, otherScope: Value, otherKey: Value)
    requires Same([scope, key], [otherScope, otherKey])
    ensures Same([key], [otherKey])
  {
    assert [scope, key][1] == key && [otherScope, otherKey][1] == otherKey;
  }

  lemma SubmitScoped(rows: map<nat, Execution>)
    requires Unique(rows, SubmitKey)
    ensures Unique(rows, TenantKey)
  {
    forall a, b | a in rows && b in rows && Same(TenantKey(rows[a]), TenantKey(rows[b]))
      ensures Same(SubmitKey(rows[a]), SubmitKey(rows[b]))
    {
      ScopedClash(rows[a].tenant, rows[a].key, rows[b].tenant, rows[b].key);
    }
    UniqueStays(rows, SubmitKey, rows, TenantKey);
  }

  lemma CommandScoped(rows: map<nat, Command>)
    requires Unique(rows, CommandKey)
    ensures Unique(rows, ExecutionKey)
  {
    forall a, b | a in rows && b in rows && Same(ExecutionKey(rows[a]), ExecutionKey(rows[b]))
      ensures Same(CommandKey(rows[a]), CommandKey(rows[b]))
    {
      ScopedClash(rows[a].execution, rows[a].key, rows[b].execution, rows[b].key);
    }
    UniqueStays(rows, CommandKey, rows, ExecutionKey);
  }

  lemma ReceiptClash(rows: map<nat, Receipt>, a: nat, b: nat)
    requires a in rows && b in rows && Same(ScopeKey(InScope(rows[a])), ScopeKey(InScope(rows[b])))
    ensures Same(ReceiptKey(rows[a]), ReceiptKey(rows[b]))
  {
    var s, t := InScope(rows[a]), InScope(rows[b]);
    assert s.key == rows[a].key && t.key == rows[b].key;
    ScopedClash(s.scope, s.key, t.scope, t.key);
  }

  lemma ReceiptScoped(rows: map<nat, Receipt>, scoped: map<nat, Receipt>)
    requires Unique(rows, ReceiptKey)
    requires scoped == map a | a in rows :: InScope(rows[a])
    ensures Unique(scoped, ScopeKey)
  {
    forall a, b | a in scoped && b in scoped && Same(ScopeKey(scoped[a]), ScopeKey(scoped[b]))
      ensures Same(ReceiptKey(rows[a]), ReceiptKey(rows[b]))
    {
      ReceiptClash(rows, a, b);
    }
    UniqueStays(rows, ReceiptKey, scoped, ScopeKey);
  }

  lemma ReceiptStays(rows: map<nat, Receipt>, scoped: map<nat, Receipt>)
    requires Unique(rows, ReceiptKey)
    requires scoped == map a | a in rows :: InScope(rows[a])
    ensures Unique(scoped, ReceiptKey)
  {
    forall a | a in scoped ensures scoped[a].key == rows[a].key {
      assert scoped[a] == InScope(rows[a]);
    }
    UniqueStays(rows, ReceiptKey, scoped, ReceiptKey);
  }

  /** Global uniqueness implies every scoped one. */
  lemma UpgradeUniques(d: Database)
    requires Holds(d) && d.schema == GLOBAL
    ensures Unique(d.executions, TenantKey) && Unique(d.operations, ExecutionKey) && Unique(d.retries, ExecutionKey)
    ensures Unique(Upgraded(d).receipts, ScopeKey)
    ensures GloballyUnique(Upgraded(d))
  {
    SubmitScoped(d.executions);
    CommandScoped(d.operations);
    CommandScoped(d.retries);
    ReceiptScoped(d.receipts, Upgraded(d).receipts);
    ReceiptStays(d.receipts, Upgraded(d).receipts);
  }

  lemma OldStatusWider(d: Database)
    requires Admitted(d.executions, NewStatus)
    ensures Admitted(d.executions, OldStatus)
  {
    forall a | a in d.executions ensures OldStatus(d.executions[a]) != No {
      assert NewStatus(d.executions[a]) != No;
    }
  }

  lemma DowngradeReceipts(d: Database)
    ensures Unique(Downgraded(d).receipts, ReceiptKey) <==> Unique(d.receipts, ReceiptKey)
  {
    var rows := Downgraded(d).receipts;
    if Unique(d.receipts, ReceiptKey) {
      UniqueStays(d.receipts, ReceiptKey, rows, ReceiptKey);
    }
    if Unique(rows, ReceiptKey) {
      UniqueStays(rows, ReceiptKey, d.receipts, ReceiptKey);
    }
  }

  /** Execution ids are UUIDs, so their scopes fit and only DISPATCHED can stop the upgrade. */
  lemma UuidScopesFit(receipts: map<nat, Receipt>)
    requires forall a :: a in receipts && OnExecution(receipts[a]) ==> |receipts[a].execution.s| == 36
    ensures ScopesFit(receipts)
  {
  }

  /** Nothing in the schema makes the id in a result a UUID: a long one stops the upgrade although no
      Execution is DISPATCHED. */
  lemma LongScopeBlocksUpgrade(id: string)
    requires |id| > 54 && id[54] != ' '
    ensures var r := Receipt(Text("k"), "execution_finalize", Text(id), Null, Null);
      var d := Database(map[], map[], map[], map[0 := r], GLOBAL);
      Holds(d) && NoneDispatched(d) && !ScopesFit(d.receipts)
  {
    var r := Receipt(Text("k"), "execution_finalize", Text(id), Null, Null);
    assert ScopeText(r)[LIMIT..][0] == id[54];
    assert OnExecution(map[0 := r][0]);
  }

  /** A downgrade straight after an upgrade restores the database. */
  lemma DowngradeUndoesUpgrade(d: Database)
    requires Holds(d) && d.schema == GLOBAL
    ensures GloballyUnique(Upgraded(d)) && Downgraded(Upgraded(d)) == d
  {
    UpgradeUniques(d);
    assert Downgraded(Upgraded(d)).receipts == d.receipts;
  }

  // -------------------------------------------------------------- the migration

  /** The tables inside a migration transaction: a statement that fails rolls everything back. */
  class Transaction {
    var data: Database

    constructor (d: Database)
      ensures data == d
    {
      data := d;
    }

    method Upgrade() returns (ok: bool)
      requires Holds(data) && data.schema == GLOBAL
      modifies this
      ensures ok <==> NoneDispatched(old(data)) && ScopesFit(old(data).receipts)
      ensures ok ==> data == Upgraded(old(data)) && Holds(data)
      ensures !ok ==> data == old(data)
    {
      var start := data;
      StatusCheck(start);
      UpgradeUniques(start);
      ok := Admitted(data.executions, NewStatus);
      if ok {
        data := data.(schema := data.schema.(dispatched := false));
        ok := Unique(data.executions, TenantKey);
      }
      if ok {
        data := data.(schema := data.schema.(submit := Scoped, cancelUnique := false));
        ok := Unique(data.operations, ExecutionKey);
      }
      if ok {
        data := data.(schema := data.schema.(operation := Scoped));
        ok := Unique(data.retries, ExecutionKey);
      }
      if ok {
        data := data.(schema := data.schema.(retry := Scoped));
        ok := ScopesFit(data.receipts);
      }
      if ok {
        data := data.(receipts := map a | a in data.receipts :: InScope(data.receipts[a]),
                      schema := data.schema.(scope := true));
        ok := Unique(data.receipts, ScopeKey);
      }
      data := if ok then data.(schema := data.schema.(receipt := Scoped)) else start;
    }

    method Downgrade() returns (ok: bool)
      requires Holds(data) && data.schema == SCOPED
      modifies this
      ensures ok <==> GloballyUnique(old(data))
      ensures ok ==> data == Downgraded(old(data)) && Holds(data)
      ensures !ok ==> data == old(data)
    {
      var start := data;
      OldStatusWider(start);
      DowngradeReceipts(start);
      ok := Unique(data.receipts, ReceiptKey);
      if ok {
        data := data.(receipts := map a | a in data.receipts :: data.receipts[a].(scope := Null),
                      schema := data.schema.(receipt := Global, scope := false));
        ok := Unique(data.retries, CommandKey);
      }
      if ok {
        data := data.(schema := data.schema.(retry := Global));
        ok := Unique(data.operations, CommandKey);
      }
      if ok {
        data := data.(schema := data.schema.(operation := Global));
        ok := Unique(data.executions, CancelKey);
      }
      if ok {
        data := data.(schema := data.schema.(cancelUnique := true));
        ok := Unique(data.executions, SubmitKey);
      }
      if ok {
        data := data.(schema := data.schema.(submit := Global));
        ok := Admitted(data.executions, OldStatus);
      }
      data := if ok then data.(schema := data.schema.(dispatched := true)) else start;
    }
  }
}
