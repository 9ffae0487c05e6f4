/** Revision 0008: one Runtime Target per normalized endpoint. */
module TargetMigration {
  import opened Endpoint
  import opened EndpointNormal
  import Json
  import Sql

  /** One row of `runtime_targets`; `rest` stands for the columns no statement touches. */
  datatype Target = Target(name: string, config: Json.Json, key: Sql.Value, rest: Sql.Value)

  const MAX_KEY := 2048

  /** The normal form of a target's endpoint; `Invalid` where reading it raises. */
  function NormalOf(t: Target, literal: string -> bool): Normal {
    if !t.config.Obj? then Invalid
    else
      var endpoint := Json.Lookup(t.config.fields, "endpoint");
      if endpoint.Str? then Normalize(endpoint.s, literal) else Invalid
  }

  function NormalForms(rows: seq<Target>, literal: string -> bool): (forms: seq<Normal>)
    ensures |forms| == |rows| && forall i :: 0 <= i < |rows| ==> forms[i] == NormalOf(rows[i], literal)
  {
    seq(|rows|, i requires 0 <= i < |rows| => NormalOf(rows[i], literal))
  }

  function Keyed(t: Target, form: Normal): Target {
    match form
    case Invalid => t
    case Normal(text) =>
      t.(config := Json.Obj([Json.Field("endpoint", Json.Str(text))]), key := Sql.Text(text))
  }

  predicate Fits(form: Normal) {
    form.Normal? && |form.text| <= MAX_KEY
  }

  /** The first `n` endpoints are well-formed, fit the column, and differ from each other. */
  predicate UpgradableTo(forms: seq<Normal>, n: nat)
    requires n <= |forms|
  {
    && (forall i :: 0 <= i < n ==> Fits(forms[i]))
    && (forall i, j :: 0 <= i < j < n ==> forms[i] != forms[j])
  }

  predicate Upgradable(forms: seq<Normal>) {
    UpgradableTo(forms, |forms|)
  }

  function Upgraded(rows: seq<Target>, forms: seq<Normal>): (now: seq<Target>)
    requires |forms| == |rows|
  {
    seq(|rows|, i requires 0 <= i < |rows| => Keyed(rows[i], forms[i]))
  }

  /** The keys a NOT NULL and a UNIQUE constraint accept. */
  predicate KeysHold(rows: seq<Target>) {
    && (forall i :: 0 <= i < |rows| ==> rows[i].key != Sql.Null)
    && (forall i, j :: 0 <= i < j < |rows| ==> rows[i].key != rows[j].key)
  }

  lemma UpgradedKeys(rows: seq<Target>, forms: seq<Normal>)
    requires |forms| == |rows| && Upgradable(forms)
    ensures KeysHold(Upgraded(rows, forms))
  {
    var now := Upgraded(rows, forms);
    forall i, j | 0 <= i < j < |now| ensures now[i].key != now[j].key {
      assert Fits(forms[i]) && Fits(forms[j]) && forms[i] != forms[j];
    }
    forall i | 0 <= i < |now| ensures now[i].key != Sql.Null {
      assert Fits(forms[i]);
    }
  }

  /** The loop over the rows; it raises at the first row it cannot give a key of its own. */
  method FillKeys(rows: seq<Target>, forms: seq<Normal>) returns (ok: bool, now: seq<Target>)
    requires |forms| == |rows|
    ensures ok <==> Upgradable(forms)
    ensures ok ==> now == Upgraded(rows, forms)
  {
    now := rows;
    var owners: map<string, string> := map[];
    ok := true;
    for n := 0 to |rows|
      invariant |now| == |rows| && (forall i :: 0 <= i < n ==> now[i] == Keyed(rows[i], forms[i]))
      invariant forall i :: n <= i < |rows| ==> now[i] == rows[i]
      invariant ok && UpgradableTo(forms, n)
      invariant forall e :: e in owners <==> exists i :: 0 <= i < n && forms[i] == Normal(e)
    {
      var form := forms[n];
      if !Fits(form) || form.text in owners {
        assert !Fits(forms[n]) || exists i :: 0 <= i < n && forms[i] == forms[n];
        return false, now;
      }
      assert forall i :: 0 <= i < n ==> forms[i] != form;
      owners := owners[form.text := rows[n].name];
      now := now[n := Keyed(rows[n], form)];
    }
    assert now == Upgraded(rows, forms);
  }

  /** An upgraded row's endpoint has the row's key as its normal form, exactly when the endpoint it was
      given does not end in a blank but for its slashes and its host does not have a bracket but no colon. */
  lemma UpgradedStaysIff(rows: seq<Target>, i: nat, literal: string -> bool)
    requires Addresses(literal) && i < |rows|
    ensures NormalOf(rows[i], literal).Normal? && IsWeb(Clean(Json.Lookup(rows[i].config.fields, "endpoint").s)) ==>
      var now := Upgraded(rows, NormalForms(rows, literal))[i];
      NormalOf(now, literal) == Normal(now.key.s)
      <==> Stable(ServiceOf(Json.Lookup(rows[i].config.fields, "endpoint").s, literal))
  {
    if NormalOf(rows[i], literal).Normal? && IsWeb(Clean(Json.Lookup(rows[i].config.fields, "endpoint").s)) {
      NormalizeTwiceIff(Json.Lookup(rows[i].config.fields, "endpoint").s, literal);
      var now := Upgraded(rows, NormalForms(rows, literal))[i];
      assert now.config.fields[0].key == "endpoint";
    }
  }

  /** The table inside the migration transaction: whatever raises rolls everything back. */
  class Transaction {
    var rows: seq<Target>
    var constrained: bool

    constructor (targets: seq<Target>)
      ensures rows == targets && !constrained
    {
      rows, constrained := targets, false;
    }

    method Upgrade(literal: string -> bool) returns (ok: bool)
      requires !constrained
      modifies this
      ensures ok <==> Upgradable(NormalForms(old(rows), literal))
      ensures ok ==> rows == Upgraded(old(rows), NormalForms(old(rows), literal)) && KeysHold(rows)
      ensures constrained == ok
      ensures !ok ==> rows == old(rows)
    {
      var forms := NormalForms(rows, literal);
      var now;
      ok, now := FillKeys(rows, forms);
      if ok {
        UpgradedKeys(rows, forms);
        rows, constrained := now, KeysHold(now);
      }
    }
  }
}
