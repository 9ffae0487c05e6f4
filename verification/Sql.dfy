/** What the migrations rely on of SQL: three-valued conditions, CHECK constraints that admit a row
    unless they evaluate to false, and UNIQUE constraints that ignore keys with a null in them. Rows are
    found by their primary key. */
module Sql {
  import Json

  datatype Value = Null | Int(i: int) | Text(s: string) | Id(id: nat) | Doc(json: Json.Json)

  datatype Truth = Yes | No | Unknown

  function And(a: Truth, b: Truth): Truth {
    if a == No || b == No then No else if a == Yes && b == Yes then Yes else Unknown
  }

  function Or(a: Truth, b: Truth): Truth {
    if a == Yes || b == Yes then Yes else if a == No && b == No then No else Unknown
  }

  function Truly(b: bool): Truth {
    if b then Yes else No
  }

  function Equals(v: Value, w: Value): Truth {
    if v == Null || w == Null then Unknown else Truly(v == w)
  }

  function AtLeast(v: Value, bound: int): Truth {
    if v.Int? then Truly(v.i >= bound) else Unknown
  }

  /** `v IN (...)`. */
  function OneOf(v: Value, values: set<string>): Truth {
    if v.Text? then Truly(v.s in values) else Unknown
  }

  function IsNull(v: Value): Truth {
    Truly(v == Null)
  }

  function NotNull(v: Value): Truth {
    Truly(v != Null)
  }

  /** Two keys that a UNIQUE constraint takes for the same. */
  predicate Same(a: seq<Value>, b: seq<Value>) {
    a == b && Null !in a
  }

  /** `UNIQUE (key)` over rows found by primary key. */
  predicate Unique<R>(rows: map<nat, R>, key: R -> seq<Value>) {
    forall a, b :: a in rows && b in rows && a != b ==> !Same(key(rows[a]), key(rows[b]))
  }

  predicate Filled<R>(rows: map<nat, R>, column: R -> Value) {
    forall a :: a in rows ==> column(rows[a]) != Null
  }

  /** `CHECK (condition)`. */
  predicate Admitted<R>(rows: map<nat, R>, condition: R -> Truth) {
    forall a :: a in rows ==> condition(rows[a]) != No
  }

  /** Rows whose keys clash no more often than before stay unique. */
  lemma UniqueStays<R, S>(rows: map<nat, R>, key: R -> seq<Value>, others: map<nat, S>, other: S -> seq<Value>)
    requires Unique(rows, key) && others.Keys <= rows.Keys
    requires forall a, b :: a in others && b in others && Same(other(others[a]), other(others[b]))
               ==> Same(key(rows[a]), key(rows[b]))
    ensures Unique(others, other)
  {
  }
}
