/** Revision 0010: the outbox keeps public events only. */
module OutboxMigration {
  import opened Sql

  /** One row. `rest` stands for the columns no statement touches; a dropped column reads as null. */
  datatype Row = Row(
    aggregateType: Value, aggregateId: Value, sequence: Value, event: Value, destination: Value, payload: Value,
    rest: Value)

  datatype Order = Unordered | ByDestination | ByAggregate

  /** Which columns and constraints the table has. */
  datatype Schema = Schema(
    destination: bool, payload: bool, sequenceRequired: bool, eventRequired: bool,
    contentCheck: bool, destinationCheck: bool, sequenceCheck: bool, order: Order)

  datatype Outbox = Outbox(rows: map<nat, Row>, schema: Schema)

  const WORK := Text("WORK")
  const EVENTS := Text("EVENTS")

  function Content(r: Row): Truth {
    Or(And(Equals(r.destination, EVENTS), And(AtLeast(r.sequence, 1), And(NotNull(r.event), IsNull(r.payload)))),
       And(Equals(r.destination, WORK), And(IsNull(r.sequence), And(IsNull(r.event), NotNull(r.payload)))))
  }

  function Destination(r: Row): Truth {
    OneOf(r.destination, {"WORK", "EVENTS"})
  }

  function Sequence(r: Row): Truth {
    AtLeast(r.sequence, 1)
  }

  function OldKey(r: Row): seq<Value> {
    [r.aggregateType, r.aggregateId, r.destination, r.sequence]
  }

  function NewKey(r: Row): seq<Value> {
    [r.aggregateType, r.aggregateId, r.sequence]
  }

  function EventKey(r: Row): seq<Value> {
    [r.event]
  }

  /** Every constraint the schema lists holds, and the columns have their types. */
  predicate Holds(t: Outbox) {
    && Unique(t.rows, EventKey)
    && (forall a :: a in t.rows ==> (t.rows[a].sequence.Null? || t.rows[a].sequence.Int?)
                                    && (t.rows[a].destination.Null? || t.rows[a].destination.Text?))
    && (if t.schema.destination then Filled(t.rows, (r: Row) => r.destination)
        else forall a :: a in t.rows ==> t.rows[a].destination == Null)
    && (t.schema.payload || forall a :: a in t.rows ==> t.rows[a].payload == Null)
    && (t.schema.sequenceRequired ==> Filled(t.rows, (r: Row) => r.sequence))
    && (t.schema.eventRequired ==> Filled(t.rows, (r: Row) => r.event))
    && (t.schema.contentCheck ==> Admitted(t.rows, Content))
    && (t.schema.destinationCheck ==> Admitted(t.rows, Destination))
    && (t.schema.sequenceCheck ==> Admitted(t.rows, Sequence))
    && (t.schema.order.ByDestination? ==> Unique(t.rows, OldKey))
    && (t.schema.order.ByAggregate? ==> Unique(t.rows, NewKey))
  }

  /** The baseline's schema, and the one the revision leaves. */
  const BASELINE := Schema(true, true, false, false, true, true, false, ByDestination)
  const EVENTS_ONLY := Schema(false, false, true, true, false, false, true, ByAggregate)

  function Narrow(r: Row): Row {
    r.(destination := Null, payload := Null)
  }

  function Widen(r: Row): Row {
    r.(destination := EVENTS, payload := Null)
  }

  function Events(rows: map<nat, Row>): map<nat, Row> {
    map a | a in rows && rows[a].destination == EVENTS :: rows[a]
  }

  function Upgraded(t: Outbox): Outbox {
    Outbox(map a | a in Events(t.rows) :: Narrow(t.rows[a]), EVENTS_ONLY)
  }

  function Downgraded(t: Outbox): Outbox {
    Outbox(map a | a in t.rows :: Widen(t.rows[a]), BASELINE)
  }

  /** The baseline lets an event row carry no sequence: its content check is then unknown, not false. */
  predicate Numbered(t: Outbox) {
    forall a :: a in Events(t.rows) ==> t.rows[a].sequence != Null
  }

  // ----------------------------------------------------- what the baseline says

  /** A row the baseline admits is a work row, or an event row complete but for its sequence. */
  lemma BaselineRow(t: Outbox, a: nat)
    requires Holds(t) && t.schema == BASELINE && a in t.rows
    ensures a in Events(t.rows) <==> Equals(t.rows[a].destination, WORK) != Yes
    ensures a in Events(t.rows) ==>
      t.rows[a].event != Null && t.rows[a].payload == Null && Sequence(t.rows[a]) != No
  {
    var r := t.rows[a];
    assert ((r: Row) => r.destination)(r) != Null;
    assert Content(r) != No && Destination(r) != No;
    assert WORK.s[0] == 'W' && EVENTS.s[0] == 'E';
  }

  // ------------------------------------------------------------- the two moves

  lemma UpgradedUnique(t: Outbox)
    requires Holds(t) && t.schema == BASELINE
    ensures Unique(Upgraded(t).rows, NewKey) && Unique(Upgraded(t).rows, EventKey)
  {
    var rows := Upgraded(t).rows;
    forall a, b | a in rows && b in rows && Same(NewKey(rows[a]), NewKey(rows[b]))
      ensures Same(OldKey(t.rows[a]), OldKey(t.rows[b]))
    {
      SameKey(rows[a], rows[b]);
      SameOldKey(t.rows[a], t.rows[b]);
    }
    UniqueStays(t.rows, OldKey, rows, NewKey);
    UniqueStays(t.rows, EventKey, rows, EventKey);
  }

  lemma SameKey(r: Row, s: Row)
    ensures Same(NewKey(r), NewKey(s)) <==>
      && r.aggregateType == s.aggregateType != Null && r.aggregateId == s.aggregateId != Null
      && r.sequence == s.sequence != Null
  {
    assert NewKey(r)[0] == r.aggregateType && NewKey(r)[1] == r.aggregateId && NewKey(r)[2] == r.sequence;
    assert NewKey(s)[0] == s.aggregateType && NewKey(s)[1] == s.aggregateId && NewKey(s)[2] == s.sequence;
  }

  lemma SameOldKey(r: Row, s: Row)
    ensures Same(OldKey(r), OldKey(s)) <==>
      && r.aggregateType == s.aggregateType != Null && r.aggregateId == s.aggregateId != Null
      && r.sequence == s.sequence != Null && r.destination == s.destination != Null
  {
    var k, l := OldKey(r), OldKey(s);
    assert k[0] == r.aggregateType && k[1] == r.aggregateId && k[2] == r.destination && k[3] == r.sequence;
    assert l[0] == s.aggregateType && l[1] == s.aggregateId && l[2] == s.destination && l[3] == s.sequence;
  }

  /** The new constraints hold of the kept rows exactly when every event row is numbered. */
  lemma UpgradeEstablishes(t: Outbox)
    requires Holds(t) && t.schema == BASELINE
    ensures Filled(Upgraded(t).rows, (r: Row) => r.sequence) <==> Numbered(t)
    ensures Filled(Upgraded(t).rows, (r: Row) => r.event) && Admitted(Upgraded(t).rows, Sequence)
    ensures Unique(Upgraded(t).rows, NewKey)
    ensures Numbered(t) ==> Holds(Upgraded(t))
  {
    UpgradedUnique(t);
    forall a | a in Upgraded(t).rows
      ensures Upgraded(t).rows[a].event != Null && Sequence(Upgraded(t).rows[a]) != No
    {
      BaselineRow(t, a);
    }
    if Filled(Upgraded(t).rows, (r: Row) => r.sequence) {
      forall a | a in Events(t.rows) ensures t.rows[a].sequence != Null {
        assert ((r: Row) => r.sequence)(Upgraded(t).rows[a]) != Null;
      }
    }
  }

  lemma DowngradedRow(t: Outbox, a: nat)
    requires Holds(t) && t.schema == EVENTS_ONLY && a in t.rows
    ensures Content(Widen(t.rows[a])) != No && Destination(Widen(t.rows[a])) != No && t.rows[a].sequence != Null
  {
    assert ((r: Row) => r.sequence)(t.rows[a]) != Null && ((r: Row) => r.event)(t.rows[a]) != Null;
    assert Sequence(t.rows[a]) != No;
  }

  lemma DowngradedUnique(t: Outbox)
    requires Holds(t) && t.schema == EVENTS_ONLY
    ensures Unique(Downgraded(t).rows, OldKey) && Unique(Downgraded(t).rows, EventKey)
  {
    var rows := Downgraded(t).rows;
    forall a, b | a in rows && b in rows && Same(OldKey(rows[a]), OldKey(rows[b]))
      ensures Same(NewKey(t.rows[a]), NewKey(t.rows[b]))
    {
      SameOldKey(rows[a], rows[b]);
      SameKey(t.rows[a], t.rows[b]);
    }
    UniqueStays(t.rows, NewKey, rows, OldKey);
    UniqueStays(t.rows, EventKey, rows, EventKey);
  }

  /** The old constraints hold of every downgraded table. */
  lemma DowngradeEstablishes(t: Outbox)
    requires Holds(t) && t.schema == EVENTS_ONLY
    ensures Holds(Downgraded(t)) && Numbered(Downgraded(t))
  {
    DowngradedUnique(t);
    forall a | a in t.rows
      ensures Content(Widen(t.rows[a])) != No && Destination(Widen(t.rows[a])) != No && t.rows[a].sequence != Null
    {
      DowngradedRow(t, a);
    }
  }

  // ---------------------------------------------------------------- round trips

  lemma UpgradeUndoesDowngrade(t: Outbox)
    requires Holds(t) && t.schema == EVENTS_ONLY
    ensures Upgraded(Downgraded(t)) == t
  {
    assert Upgraded(Downgraded(t)).rows == t.rows;
  }

  lemma DowngradeUndoesUpgrade(t: Outbox)
    requires Holds(t) && t.schema == BASELINE && Numbered(t)
    ensures Downgraded(Upgraded(t)) == t.(rows := Events(t.rows))
  {
    forall a | a in Events(t.rows) ensures Widen(Narrow(t.rows[a])) == t.rows[a] {
      BaselineRow(t, a);
    }
    assert Downgraded(Upgraded(t)).rows == Events(t.rows);
  }

  /** A table the baseline accepts and the upgrade refuses. */
  lemma UnnumberedEventBlocksUpgrade(r: Row)
    requires r.destination == EVENTS && r.sequence == Null && r.event != Null && r.payload == Null
    ensures Holds(Outbox(map[0 := r], BASELINE)) && !Numbered(Outbox(map[0 := r], BASELINE))
  {
    assert 0 in Events(map[0 := r]);
  }

  // -------------------------------------------------------------- the migration

  function DeleteWork(t: Outbox): Outbox {
    t.(rows := map a | a in t.rows && Equals(t.rows[a].destination, WORK) != Yes :: t.rows[a])
  }

  function DropDestination(t: Outbox): Outbox {
    Outbox(map a | a in t.rows :: t.rows[a].(destination := Null), t.schema.(destination := false))
  }

  function DropPayload(t: Outbox): Outbox {
    Outbox(map a | a in t.rows :: t.rows[a].(payload := Null), t.schema.(payload := false))
  }

  function AddPayload(t: Outbox): Outbox {
    Outbox(map a | a in t.rows :: t.rows[a].(payload := Null), t.schema.(payload := true))
  }

  function AddDestination(t: Outbox): Outbox {
    Outbox(map a | a in t.rows :: t.rows[a].(destination := EVENTS), t.schema.(destination := true))
  }

  lemma DeletedRows(t: Outbox)
    requires Holds(t) && t.schema == BASELINE
    ensures DeleteWork(t).rows == Events(t.rows)
  {
    forall a | a in t.rows ensures a in Events(t.rows) <==> Equals(t.rows[a].destination, WORK) != Yes {
      BaselineRow(t, a);
    }
  }

  lemma NarrowedRows(t: Outbox)
    ensures DropPayload(DropDestination(t)).rows == map a | a in t.rows :: Narrow(t.rows[a])
  {
  }

  /** What the dropping statements leave, whatever the constraints in between. */
  lemma DroppedRows(t: Outbox, schema: Schema)
    requires Holds(t) && t.schema == BASELINE
    ensures DropPayload(DropDestination(DeleteWork(t).(schema := schema)))
            == Outbox(Upgraded(t).rows, schema.(destination := false, payload := false))
  {
    DeletedRows(t);
    var kept := Outbox(Events(t.rows), schema);
    assert DeleteWork(t).(schema := schema) == kept;
    NarrowedRows(kept);
    UpgradedRows(t);
  }

  lemma UpgradedRows(t: Outbox)
    ensures Upgraded(t).rows == map a | a in Events(t.rows) :: Narrow(Events(t.rows)[a])
  {
  }

  lemma AddedRows(t: Outbox, schema: Schema)
    ensures AddDestination(AddPayload(t.(schema := schema)))
            == Outbox(Downgraded(t).rows, schema.(destination := true, payload := true))
  {
    assert AddDestination(AddPayload(t.(schema := schema))).rows == Downgraded(t).rows;
  }

  /** The table inside a migration transaction: a statement that fails rolls everything back. */
  class Transaction {
    var table: Outbox

    constructor (t: Outbox)
      ensures table == t
    {
      table := t;
    }

    method Upgrade() returns (ok: bool)
      requires Holds(table) && table.schema == BASELINE
      modifies this
      ensures ok <==> Numbered(old(table))
      ensures ok ==> table == Upgraded(old(table)) && Holds(table)
      ensures !ok ==> table == old(table)
    {
      var start := table;
      UpgradeEstablishes(start);
      table := DeleteWork(table);
      table := table.(schema := table.schema.(contentCheck := false));
      table := table.(schema := table.schema.(destinationCheck := false));
      table := table.(schema := table.schema.(order := Unordered));
      DroppedRows(start, table.schema);
      table := DropDestination(table);
      table := DropPayload(table);
      ok := Filled(table.rows, (r: Row) => r.sequence);
      if ok {
        table := table.(schema := table.schema.(sequenceRequired := true));
        ok := Filled(table.rows, (r: Row) => r.event);
      }
      if ok {
        table := table.(schema := table.schema.(eventRequired := true));
        ok := Admitted(table.rows, Sequence);
      }
      if ok {
        table := table.(schema := table.schema.(sequenceCheck := true));
        ok := Unique(table.rows, NewKey);
      }
      table := if ok then table.(schema := table.schema.(order := ByAggregate)) else start;
    }

    method Downgrade() returns (ok: bool)
      requires Holds(table) && table.schema == EVENTS_ONLY
      modifies this
      ensures ok && table == Downgraded(old(table)) && Holds(table)
    {
      var start := table;
      DowngradeEstablishes(start);
      table := table.(schema := table.schema.(order := Unordered));
      table := table.(schema := table.schema.(sequenceCheck := false));
      table := table.(schema := table.schema.(eventRequired := false));
      table := table.(schema := table.schema.(sequenceRequired := false));
      AddedRows(start, table.schema);
      table := AddPayload(table);
      table := AddDestination(table);
      ok := Unique(table.rows, OldKey);
      if ok {
        table := table.(schema := table.schema.(order := ByDestination));
        ok := Admitted(table.rows, Destination);
      }
      if ok {
        table := table.(schema := table.schema.(destinationCheck := true));
        ok := Admitted(table.rows, Content);
      }
      table := if ok then table.(schema := table.schema.(contentCheck := true)) else start;
    }
  }
}
