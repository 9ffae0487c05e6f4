/** Sorting the keys at every depth decides equality of decoded values: two values have the same
    canonical form exactly when they are the same up to the order of object keys. */
module JsonCanon {
  import opened Json

  lemma InsertMultiset(f: Field, fields: seq<Field>)
    ensures multiset(Insert(f, fields)) == multiset{f} + multiset(fields)
  {
    if |fields| != 0 {
      assert fields == [fields[0]] + fields[1..];
    }
  }

  lemma SortMultiset(fields: seq<Field>)
    ensures multiset(SortFields(fields)) == multiset(fields)
  {
    if |fields| != 0 {
      assert fields == [fields[0]] + fields[1..];
      SortMultiset(fields[1..]);
      InsertMultiset(fields[0], SortFields(fields[1..]));
    }
  }

  lemma SortMembers(fields: seq<Field>, f: Field)
    ensures f in SortFields(fields) <==> f in fields
  {
    SortMultiset(fields);
    assert f in SortFields(fields) <==> f in multiset(SortFields(fields));
  }

  lemma {:induction false} InsertSorted(f: Field, fields: seq<Field>)
    requires Sorted(fields)
    requires forall i :: 0 <= i < |fields| ==> fields[i].key != f.key
    ensures Sorted(Insert(f, fields))
  {
    if |fields| != 0 {
      LessTotal(f.key, fields[0].key);
      if Less(f.key, fields[0].key) {
        forall i | 0 < i < |fields| ensures Less(f.key, fields[i].key) {
          LessTransitive(f.key, fields[0].key, fields[i].key);
        }
      } else {
        var tail := Insert(f, fields[1..]);
        InsertSorted(f, fields[1..]);
        InsertMultiset(f, fields[1..]);
        forall j | 0 <= j < |tail| ensures Less(fields[0].key, tail[j].key) {
          assert tail[j] in multiset(tail);
        }
      }
    }
  }

  lemma {:induction false} SortSorted(fields: seq<Field>)
    requires UniqueKeys(fields)
    ensures Sorted(SortFields(fields))
  {
    if |fields| != 0 {
      var rest := SortFields(fields[1..]);
      SortSorted(fields[1..]);
      forall i | 0 <= i < |rest| ensures rest[i].key != fields[0].key {
        SortMembers(fields[1..], rest[i]);
      }
      InsertSorted(fields[0], rest);
    }
  }

  /** Positions of a sorted sequence inside another sorted sequence never run backwards. */
  lemma {:induction false} PositionAtLeast(a: seq<Field>, b: seq<Field>, i: nat, j: nat)
    requires Sorted(a) && Sorted(b) && forall f :: f in a ==> f in b
    requires i < |a| && j < |b| && a[i] == b[j]
    ensures i <= j
  {
    if i > 0 {
      assert a[i - 1] in b;
      var k :| 0 <= k < |b| && b[k] == a[i - 1];
      PositionAtLeast(a, b, i - 1, k);
      LessAsymmetric(b[k].key, b[j].key);
    }
  }

  lemma {:induction false} PositionAtMost(a: seq<Field>, b: seq<Field>, i: nat, j: nat)
    requires Sorted(a) && Sorted(b) && |a| == |b| && forall f :: f in a ==> f in b
    requires i < |a| && j < |b| && a[i] == b[j]
    ensures j <= i
    decreases |a| - i
  {
    if i + 1 < |a| {
      assert a[i + 1] in b;
      var k :| 0 <= k < |b| && b[k] == a[i + 1];
      PositionAtMost(a, b, i + 1, k);
      LessAsymmetric(b[j].key, b[k].key);
    }
  }

  lemma SortedSubsetEqual(a: seq<Field>, b: seq<Field>)
    requires Sorted(a) && Sorted(b) && |a| == |b| && forall f :: f in a ==> f in b
    ensures a == b
  {
    forall i | 0 <= i < |a| ensures a[i] == b[i] {
      assert a[i] in b;
      var j :| 0 <= j < |b| && b[j] == a[i];
      PositionAtLeast(a, b, i, j);
      PositionAtMost(a, b, i, j);
    }
  }

  /** Sorting forgets the order the fields were inserted in, and nothing else. */
  lemma SortForgetsOrder(fs: seq<Field>, gs: seq<Field>)
    requires UniqueKeys(fs) && UniqueKeys(gs) && |fs| == |gs|
    requires forall f :: f in fs ==> f in gs
    ensures SortFields(fs) == SortFields(gs)
  {
    forall f | f in SortFields(fs) ensures f in SortFields(gs) {
      SortMembers(fs, f);
      SortMembers(gs, f);
    }
    SortSorted(fs);
    SortSorted(gs);
    SortedSubsetEqual(SortFields(fs), SortFields(gs));
  }

  /** Key order never shows in the canonical form. */
  lemma {:induction false} SameCanon(a: Json, b: Json)
    requires WellFormed(a) && WellFormed(b) && Same(a, b)
    ensures Canon(a) == Canon(b)
    decreases a
  {
    if a.Arr? {
      forall i | 0 <= i < |a.items| ensures Canon(a.items[i]) == Canon(b.items[i]) {
        SameCanon(a.items[i], b.items[i]);
      }
      assert CanonItems(a.items) == CanonItems(b.items);
    } else if a.Obj? {
      SameCanonFields(a, b);
      SortForgetsOrder(CanonFields(a.fields), CanonFields(b.fields));
    }
  }

  lemma {:induction false} SameCanonFields(a: Json, b: Json)
    requires WellFormed(a) && WellFormed(b) && Same(a, b) && a.Obj?
    ensures b.Obj? && forall f :: f in CanonFields(a.fields) ==> f in CanonFields(b.fields)
    decreases a, 0
  {
    var fs, gs := a.fields, b.fields;
    forall f | f in CanonFields(fs) ensures f in CanonFields(gs) {
      var i :| 0 <= i < |fs| && CanonFields(fs)[i] == f;
      var j :| 0 <= j < |gs| && fs[i].key == gs[j].key && Same(fs[i].value, gs[j].value);
      SameCanon(fs[i].value, gs[j].value);
      assert CanonFields(gs)[j] == f;
    }
  }

  /** The canonical form keeps everything else. */
  lemma {:induction false} CanonSame(a: Json, b: Json)
    requires Canon(a) == Canon(b)
    ensures Same(a, b)
    decreases a
  {
    if a.Arr? {
      assert CanonItems(a.items) == CanonItems(b.items);
      forall i | 0 <= i < |a.items| ensures Same(a.items[i], b.items[i]) {
        assert CanonItems(a.items)[i] == CanonItems(b.items)[i];
        CanonSame(a.items[i], b.items[i]);
      }
    } else if a.Obj? {
      assert SortFields(CanonFields(a.fields)) == SortFields(CanonFields(b.fields));
      forall i | 0 <= i < |a.fields|
        ensures exists j :: 0 <= j < |b.fields| && a.fields[i].key == b.fields[j].key
                            && Same(a.fields[i].value, b.fields[j].value)
      {
        var j := SortedMatch(a.fields, b.fields, i);
        CanonSame(a.fields[i].value, b.fields[j].value);
      }
    }
  }

  lemma SortedMatch(fs: seq<Field>, gs: seq<Field>, i: nat) returns (j: nat)
    requires SortFields(CanonFields(fs)) == SortFields(CanonFields(gs)) && i < |fs|
    ensures j < |gs| && gs[j].key == fs[i].key && Canon(gs[j].value) == Canon(fs[i].value)
  {
    var f := CanonFields(fs)[i];
    SortMembers(CanonFields(fs), f);
    SortMembers(CanonFields(gs), f);
    j :| 0 <= j < |gs| && CanonFields(gs)[j] == f;
  }

  lemma {:induction false} CanonWellFormed(v: Json)
    requires WellFormed(v)
    ensures WellFormed(Canon(v))
  {
    match v {
      case Arr(items) =>
        forall i | 0 <= i < |items| ensures WellFormed(CanonItems(items)[i]) {
          CanonWellFormed(items[i]);
        }
      case Obj(fields) =>
        var cf := CanonFields(fields);
        var sorted := SortFields(cf);
        SortSorted(cf);
        forall i, j | 0 <= i < j < |sorted| ensures sorted[i].key != sorted[j].key {
          LessAsymmetric(sorted[i].key, sorted[j].key);
        }
        forall i | 0 <= i < |sorted| ensures WellFormed(sorted[i].value) {
          SortMembers(cf, sorted[i]);
          var k :| 0 <= k < |cf| && cf[k] == sorted[i];
          CanonWellFormed(fields[k].value);
        }
      case _ =>
    }
  }

  /** Sorting twice changes nothing. */
  lemma {:induction false} CanonIdempotent(v: Json)
    requires WellFormed(v)
    ensures Canon(Canon(v)) == Canon(v)
  {
    if v.Arr? {
      forall i | 0 <= i < |v.items| ensures Canon(CanonItems(v.items)[i]) == CanonItems(v.items)[i] {
        CanonIdempotent(v.items[i]);
      }
      assert CanonItems(CanonItems(v.items)) == CanonItems(v.items);
    } else if v.Obj? {
      var cf := CanonFields(v.fields);
      var sorted := SortFields(cf);
      forall i | 0 <= i < |sorted| ensures Canon(sorted[i].value) == sorted[i].value {
        SortMembers(cf, sorted[i]);
        var k :| 0 <= k < |cf| && cf[k] == sorted[i];
        CanonIdempotent(v.fields[k].value);
      }
      assert CanonFields(sorted) == sorted;
      SortSorted(cf);
      forall i, j | 0 <= i < j < |sorted| ensures sorted[i].key != sorted[j].key {
        LessAsymmetric(sorted[i].key, sorted[j].key);
      }
      SortSorted(sorted);
      forall f | f in sorted ensures f in SortFields(sorted) {
        SortMembers(sorted, f);
      }
      SortedSubsetEqual(sorted, SortFields(sorted));
    }
  }
}
