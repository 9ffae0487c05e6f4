/** Execution events and the Agent's local store of consumed events. */
module Events {
  import opened Json

  type Uuid = nat

  /** One public event; `sequence` counts from 1 within its Execution. */
  datatype Event = Event(id: Uuid, execution: Uuid, sequence: nat, eventType: string, payload: Json, occurredAt: nat)

  /** The unique key of `execution_events` and `outbox_events`. */
  datatype Key = Key(execution: Uuid, sequence: nat)

  function KeyOf(e: Event): Key {
    Key(e.execution, e.sequence)
  }

  // ---------------------------------------------------------- the Agent store

  /** A row of `consumed_executor_events`; `eventId` is its primary key. */
  datatype ConsumedRow = ConsumedRow(eventId: Uuid, execution: Uuid, sequence: nat, eventType: string, payload: string)

  /** A row of `agent_execution_state`. */
  datatype StateRow = StateRow(lastSequence: nat, eventType: string, status: Json, payload: string)

  datatype AgentDb = AgentDb(consumed: seq<ConsumedRow>, states: map<Uuid, StateRow>)

  const EMPTY_DB := AgentDb([], map[])

  function LastSequence(db: AgentDb, execution: Uuid): nat {
    if execution in db.states then db.states[execution].lastSequence else 0
  }

  /** `payload.get("status")`; an absent key is null. */
  function Status(payload: Json): Json {
    if payload.Obj? then Lookup(payload.fields, "status") else Null
  }

  function RowOf(e: Event): ConsumedRow {
    ConsumedRow(e.id, e.execution, e.sequence, e.eventType, Encode(e.payload))
  }

  function StateOf(e: Event): StateRow {
    StateRow(e.sequence, e.eventType, Status(e.payload), Encode(e.payload))
  }

  /** The primary-key test an INSERT into `consumed_executor_events` makes. */
  predicate Recorded(db: AgentDb, id: Uuid) {
    exists i :: 0 <= i < |db.consumed| && db.consumed[i].eventId == id
  }

  datatype Verdict = Duplicate | Gap | Next

  /** What the sequence of an event says against the last one applied. */
  function Judge(sequence: nat, last: nat): Verdict {
    if sequence <= last then Duplicate else if sequence != last + 1 then Gap else Next
  }

  function Record(db: AgentDb, e: Event): AgentDb {
    AgentDb(db.consumed + [RowOf(e)], db.states[e.execution := StateOf(e)])
  }

  /** The write transaction: insert the row and upsert the state, or roll back on the primary key. */
  function Write(db: AgentDb, e: Event): AgentDb {
    if Recorded(db, e.id) then db else Record(db, e)
  }

  /** The rows of one Execution, in insertion order. */
  function RowsOf(consumed: seq<ConsumedRow>, execution: Uuid): seq<ConsumedRow> {
    if |consumed| == 0 then []
    else
      var last := consumed[|consumed| - 1];
      RowsOf(consumed[..|consumed| - 1], execution) + (if last.execution == execution then [last] else [])
  }

  function Rows(events: seq<Event>): (rows: seq<ConsumedRow>)
    ensures |rows| == |events|
    ensures forall i :: 0 <= i < |rows| ==> rows[i] == RowOf(events[i])
  {
    seq(|events|, i requires 0 <= i < |events| => RowOf(events[i]))
  }

  lemma RowsOfAppend(consumed: seq<ConsumedRow>, row: ConsumedRow, execution: Uuid)
    ensures RowsOf(consumed + [row], execution)
         == RowsOf(consumed, execution) + (if row.execution == execution then [row] else [])
  {
    assert (consumed + [row])[..|consumed|] == consumed;
  }

  lemma {:induction false} RowsOfMember(consumed: seq<ConsumedRow>, row: ConsumedRow, execution: Uuid)
    ensures row in RowsOf(consumed, execution) <==> row in consumed && row.execution == execution
  {
    if |consumed| > 0 {
      RowsOfMember(consumed[..|consumed| - 1], row, execution);
      assert consumed == consumed[..|consumed| - 1] + [consumed[|consumed| - 1]];
    }
  }
}
