/** The UPDATE and the DELETE of one supplied row (store/database.go), by the key that is found in
    it (datamodel/config.go). What is asked for is the rows that have the supplied key, where a
    value that is missing asks for NULL. */
module RowStatements {
  import opened Wrappers
  import opened QueryBuilder

  type Row = map<string, Value>

  /** The fields of a model's keys; the unique ones in the order the map range gave them, which
      may be any. */
  datatype Keys = Keys(primary: Option<string>, uniques: seq<seq<string>>)

  /** All fields are in the row, if only as no value. */
  predicate Complete(row: Row, fields: seq<string>) {
    fields != [] && forall f :: f in fields ==> f in row
  }

  predicate HasPrimary(row: Row, keys: Keys) {
    keys.primary.Some? && keys.primary.value in row
  }

  /** The primary key if the row has it, else the first unique key that is complete. */
  method FindRowKeyFields(row: Row, keys: Keys) returns (fields: Option<seq<string>>)
    ensures fields.Some? ==> Complete(row, fields.value)
    ensures HasPrimary(row, keys) ==> fields == Some([keys.primary.value])
    ensures fields.Some? && !HasPrimary(row, keys) ==>
              exists i :: 0 <= i < |keys.uniques| && fields.value == keys.uniques[i] && forall j :: 0 <= j < i ==> !Complete(row, keys.uniques[j])
    ensures fields.None? <==> !HasPrimary(row, keys) && forall u :: u in keys.uniques ==> !Complete(row, u)
  {
    if keys.primary.Some? {
      if keys.primary.value in row {
        return Some([keys.primary.value]);
      }
    }
    var i := 0;
    while i < |keys.uniques|
      invariant 0 <= i <= |keys.uniques|
      invariant forall j :: 0 <= j < i ==> !Complete(row, keys.uniques[j])
    {
      var present := AllPresent(row, keys.uniques[i]);
      if present && |keys.uniques[i]| > 0 {
        return Some(keys.uniques[i]);
      }
      i := i + 1;
    }
    return None;
  }

  method AllPresent(row: Row, fields: seq<string>) returns (present: bool)
    ensures present <==> forall f :: f in fields ==> f in row
  {
    var i := 0;
    while i < |fields|
      invariant 0 <= i <= |fields|
      invariant forall j :: 0 <= j < i ==> fields[j] in row
    {
      if fields[i] !in row {
        return false;
      }
      i := i + 1;
    }
    return true;
  }

  // ---- The statements ----

  /** The fields to set, and the conditions that are set, once the range has come to these. */
  ghost function ValuesFor(row: Row, key: seq<string>, fields: set<string>): (r: Row)
    ensures AreValuesFor(r, row, key, fields)
  {
    var r := Tabulate(set f | f in row && f in fields && f !in key, (f: string) => Supplied(row, f));
    assert AreValuesFor(r, row, key, fields);
    var r' :| AreValuesFor(r', row, key, fields);
    r'
  }

  ghost predicate AreValuesFor(r: Row, row: Row, key: seq<string>, fields: set<string>) {
    && (forall f {:trigger f in r} :: f in r <==> f in row && f in fields && f !in key)
    && (forall f {:trigger r[f]} :: f in r ==> r[f] == row[f])
  }

  ghost function CondsFor(row: Row, key: seq<string>, fields: set<string>): (r: map<string, Cond>)
    ensures AreCondsFor(r, row, key, fields)
  {
    var r := Tabulate(set f | f in row && f in fields && f in key && row[f] != Nil, (f: string) => Cond("=", Supplied(row, f)));
    assert AreCondsFor(r, row, key, fields);
    var r' :| AreCondsFor(r', row, key, fields);
    r'
  }

  ghost predicate AreCondsFor(r: map<string, Cond>, row: Row, key: seq<string>, fields: set<string>) {
    && (forall f {:trigger f in r} :: f in r <==> f in row && f in fields && f in key && row[f] != Nil)
    && (forall f {:trigger r[f]} :: f in r ==> r[f] == Cond("=", row[f]))
  }

  function Supplied(row: Row, f: string): Value {
    if f in row then row[f] else Nil
  }

  lemma OneMoreField(row: Row, key: seq<string>, fields: set<string>, f: string)
    requires f in row
    ensures ValuesFor(row, key, fields + {f}) == if f in key then ValuesFor(row, key, fields) else ValuesFor(row, key, fields)[f := row[f]]
    ensures CondsFor(row, key, fields + {f})
            == if f in key && row[f] != Nil then CondsFor(row, key, fields)[f := Cond("=", row[f])] else CondsFor(row, key, fields)
  {
  }

  lemma SameFor(row: Row, key: seq<string>, fields: set<string>)
    requires forall j :: 0 <= j < |key| ==> key[j] in fields
    ensures CondsFor(row, key, fields) == CondsFor(row, key, row.Keys)
  {
  }

  /** The statement is the UPDATE of the row: it sets what is not of the key, on the condition of
      the part of the key that has a value. */
  ghost predicate UpdatesRow(st: Statement, args: seq<Value>, row: Row, key: seq<string>) {
    Builds(st, args, ValuesFor(row, key, row.Keys), CondsFor(row, key, row.Keys), false)
  }

  ghost predicate DeletesRow(st: Statement, args: seq<Value>, row: Row, key: seq<string>, soft: bool) {
    if soft then Builds(st, args, map[DELETED_FLAG := TRUE], CondsFor(row, key, row.Keys), false)
    else BuildsDelete(st, args, CondsFor(row, key, row.Keys), false)
  }

  /** The range over the row, and the UPDATE it builds. */
  method UpdateRow(row: Row, key: seq<string>) returns (st: Statement, args: seq<Value>)
    requires Complete(row, key)
    ensures UpdatesRow(st, args, row, key)
  {
    var qb := new Builder();
    var fields := row.Keys;
    ghost var done := {};
    while fields != {}
      invariant fields + done == row.Keys && fresh(qb) && qb.Valid() && qb.built.None? && !qb.Spare()
      invariant qb.Values() == ValuesFor(row, key, done) && qb.Conds() == CondsFor(row, key, done)
      decreases fields
    {
      var k :| k in fields;
      fields := fields - {k};
      OneMoreField(row, key, done, k);
      done := done + {k};
      if k in key {
        qb.SetWhereAbsolute(k, row[k]);
      } else {
        qb.SetValue(k, row[k]);
      }
    }
    assert done == row.Keys;
    st := qb.BuildUpdate();
    args := qb.args;
  }

  /** The range over the key, and the DELETE it builds, or the UPDATE of the deleted flag. */
  method DeleteRow(row: Row, key: seq<string>, soft: bool) returns (st: Statement, args: seq<Value>)
    requires Complete(row, key)
    ensures DeletesRow(st, args, row, key, soft)
  {
    var qb := new Builder();
    var i := 0;
    ghost var done := {};
    while i < |key|
      invariant 0 <= i <= |key| && (forall j :: 0 <= j < i ==> key[j] in done) && fresh(qb) && qb.Valid() && qb.built.None? && !qb.Spare()
      invariant qb.Values() == map[] && qb.Conds() == CondsFor(row, key, done)
    {
      OneMoreField(row, key, done, key[i]);
      qb.SetWhereAbsolute(key[i], row[key[i]]);
      done := done + {key[i]};
      i := i + 1;
    }
    SameFor(row, key, done);
    st := qb.BuildDelete(soft);
    args := qb.args;
  }

  // ---- The rows they touch ----

  /** A database row has the supplied row's key. */
  ghost predicate HasKey(a: Answers, row: Row, key: seq<string>) {
    forall f :: f in key && f in row ==> if row[f] == Nil then a.isNull(f) else a.compare(f, "=", row[f])
  }

  /** It has the part of the key that has a value. */
  ghost predicate HasValues(a: Answers, row: Row, key: seq<string>) {
    forall f :: f in key && f in row && row[f] != Nil ==> a.compare(f, "=", row[f])
  }

  predicate AllNil(row: Row, key: seq<string>) {
    forall f :: f in key && f in row ==> row[f] == Nil
  }

  predicate NoneNil(row: Row, key: seq<string>) {
    forall f :: f in key && f in row ==> row[f] != Nil
  }

  /** The statement runs and touches exactly the rows that have the key, whatever the database
      answers. */
  ghost predicate TouchesKey(st: Statement, args: seq<Value>, row: Row, key: seq<string>) {
    Runs(st, args) && forall a :: SaysAll(a, args, st.wheres) <==> HasKey(a, row, key)
  }

  /** The conditions hold of the rows that have the part of the key with a value, and say nothing
      if no part has one. */
  lemma SaysValues(w: seq<Clause>, args: seq<Value>, row: Row, key: seq<string>)
    requires Complete(row, key) && EqualsOf(w, args, CondsFor(row, key, row.Keys))
    ensures w != [] <==> !AllNil(row, key)
    ensures forall a :: SaysAll(a, args, w) <==> HasValues(a, row, key)
  {
    var conds := CondsFor(row, key, row.Keys);
    EqualitiesMeanIff(w, args, conds);
    if f :| f in key && f in row && row[f] != Nil {
      assert f in conds;
    }
    assert conds != map[] ==> exists f :: f in conds;
    forall a ensures SaysAll(a, args, w) <==> HasValues(a, row, key) {
      EqualitiesSay(a, w, args, conds);
      EqualsAreValues(a, row, key);
    }
  }

  lemma EqualsAreValues(a: Answers, row: Row, key: seq<string>)
    ensures EqualsAll(a, CondsFor(row, key, row.Keys)) <==> HasValues(a, row, key)
  {
    var conds := CondsFor(row, key, row.Keys);
    assert forall f :: f in key && f in row && row[f] != Nil ==> f in conds && conds[f].value == row[f];
  }

  /** Those are the rows with the key exactly if no part of it lacks its value. */
  lemma ValuesAreKeyIff(row: Row, key: seq<string>)
    ensures (forall a :: HasValues(a, row, key) <==> HasKey(a, row, key)) <==> NoneNil(row, key)
  {
    if f :| f in key && f in row && row[f] == Nil {
      var a := AllBut("", "", Nil, false);
      assert HasValues(a, row, key) by {
        assert forall g :: g in row && row[g] != Nil ==> a.compare(g, "=", row[g]);
      }
      assert !HasKey(a, row, key) by { assert !a.isNull(f); }
    }
  }

  /** The UPDATE of a row runs and touches exactly the rows with its key if and only if the row
      has a field besides the key, and no field of the key lacks its value. */
  lemma UpdateTouchesKeyIff(st: Statement, args: seq<Value>, row: Row, key: seq<string>)
    requires Complete(row, key) && UpdatesRow(st, args, row, key)
    ensures TouchesKey(st, args, row, key) <==> (exists f :: f in row && f !in key) && NoneNil(row, key)
  {
    var values := ValuesFor(row, key, row.Keys);
    SaysValues(st.wheres, args, row, key);
    ValuesAreKeyIff(row, key);
    SetsSomethingIff(st, args, values, CondsFor(row, key, row.Keys), false);
    ValuesIff(row, key);
    KeyNotEmpty(row, key);
  }

  lemma ValuesIff(row: Row, key: seq<string>)
    ensures ValuesFor(row, key, row.Keys) != map[] <==> exists f :: f in row && f !in key
  {
    var values := ValuesFor(row, key, row.Keys);
    if f :| f in row && f !in key {
      assert f in values;
    }
    assert values != map[] ==> exists f :: f in values;
  }

  lemma KeyNotEmpty(row: Row, key: seq<string>)
    requires Complete(row, key)
    ensures NoneNil(row, key) ==> !AllNil(row, key)
  {
    assert key[0] in key;
  }

  /** The DELETE of a row, soft or not, does if and only if no field of the key lacks its value. */
  lemma DeleteTouchesKeyIff(st: Statement, args: seq<Value>, row: Row, key: seq<string>, soft: bool)
    requires Complete(row, key) && DeletesRow(st, args, row, key, soft)
    ensures TouchesKey(st, args, row, key) <==> NoneNil(row, key)
  {
    SaysValues(st.wheres, args, row, key);
    ValuesAreKeyIff(row, key);
    KeyNotEmpty(row, key);
    if soft { FlagIsSet(st, args, row, key); }
  }

  lemma FlagIsSet(st: Statement, args: seq<Value>, row: Row, key: seq<string>)
    requires DeletesRow(st, args, row, key, true)
    ensures st.Update? && st.sets != []
  {
    assert DELETED_FLAG in map[DELETED_FLAG := TRUE];
    SetsSomethingIff(st, args, map[DELETED_FLAG := TRUE], CondsFor(row, key, row.Keys), false);
  }

  // ---- Where they do not ----

  /** A key without any value, as a null primary key, leaves nothing behind WHERE: neither
      statement runs. */
  lemma NullKeyRunsNothing(st: Statement, args: seq<Value>, row: Row, key: seq<string>, soft: bool)
    requires Complete(row, key) && AllNil(row, key)
    requires UpdatesRow(st, args, row, key) || DeletesRow(st, args, row, key, soft)
    ensures !Runs(st, args)
  {
    SaysValues(st.wheres, args, row, key);
  }

  /** A row that is only its key leaves nothing behind SET. */
  lemma KeyOnlyRunsNothing(st: Statement, args: seq<Value>, row: Row, key: seq<string>)
    requires Complete(row, key) && UpdatesRow(st, args, row, key) && forall f :: f in row ==> f in key
    ensures !Runs(st, args)
  {
    ValuesIff(row, key);
    SetsSomethingIff(st, args, ValuesFor(row, key, row.Keys), CondsFor(row, key, row.Keys), false);
  }

  /** With a key of two fields one of which is null, the statement runs on every row that has the
      other one. */
  lemma HalfNullKeyTouchesMore(st: Statement, args: seq<Value>, soft: bool, update: bool)
    requires var row := map["a" := Other(7), "b" := Nil, "name" := Other(8)];
             if update then UpdatesRow(st, args, row, ["a", "b"]) else DeletesRow(st, args, row, ["a", "b"], soft)
    ensures var row := map["a" := Other(7), "b" := Nil, "name" := Other(8)];
            && Complete(row, ["a", "b"]) && Runs(st, args)
            && (forall a :: SaysAll(a, args, st.wheres) <==> a.compare("a", "=", Other(7)))
            && exists a :: SaysAll(a, args, st.wheres) && !HasKey(a, row, ["a", "b"])
  {
    var row, key := map["a" := Other(7), "b" := Nil, "name" := Other(8)], ["a", "b"];
    assert key[0] == "a" && key[1] == "b" && row["a"] == Other(7) && row["b"] == Nil;
    SaysValues(st.wheres, args, row, key);
    if update {
      assert "name" in row && "name" !in key;
      ValuesIff(row, key);
      SetsSomethingIff(st, args, ValuesFor(row, key, row.Keys), CondsFor(row, key, row.Keys), false);
    } else if soft {
      FlagIsSet(st, args, row, key);
    }
    forall a ensures HasValues(a, row, key) <==> a.compare("a", "=", Other(7)) {
      OnlyFirst(a);
    }
    var a := AllBut("", "", Nil, false);
    assert SaysAll(a, args, st.wheres) && !HasKey(a, row, key) by { assert !a.isNull("b"); }
  }

  lemma OnlyFirst(a: Answers)
    ensures HasValues(a, map["a" := Other(7), "b" := Nil, "name" := Other(8)], ["a", "b"]) <==> a.compare("a", "=", Other(7))
  {
    var row, key := map["a" := Other(7), "b" := Nil, "name" := Other(8)], ["a", "b"];
    assert key[0] == "a" && row["a"] == Other(7);
    forall f | f in key && f in row && row[f] != Nil ensures f == "a" {
    }
  }
}
