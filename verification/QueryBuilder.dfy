/** The placeholders of a query and the values they stand for (querybuilder/queryManager.go).

    The builder keeps, for each field, the number of its placeholder and, beside that, one list
    of arguments. What a caller means is plainer: a field to be set to a value, a field to be
    compared by an operator with a value. */
module QueryBuilder {
  import opened Wrappers
  import LP = ListPatch

  /** What the builder tells apart among argument values. */
  datatype Value = Nil | Text(text: string) | List(items: seq<string>) | Patch(patch: LP.Patch) | Other(id: int)

  /** A condition on a field: an operator and a value. */
  datatype Cond = Cond(op: string, value: Value)

  datatype Extra = Extra(field: string, op: string, value: Value)

  /** One condition as emitted; slot is a placeholder's number. */
  datatype Clause =
    | Compare(field: string, op: string, slot: nat)
    | In(field: string, slot: nat)
    | IsNull(field: string)
    | IsNotNull(field: string)

  /** One assignment of an UPDATE as emitted. */
  datatype Assignment = Assign(field: string, slot: nat) | PatchList(field: string, addSlot: nat, removeSlot: nat)

  datatype Statement =
    | Update(sets: seq<Assignment>, wheres: seq<Clause>, returning: seq<string>)
    | Delete(wheres: seq<Clause>)

  const DELETED_FLAG := "deleted_flag"
  const TRUE := Other(1)

  /** Who a slot belongs to. */
  datatype Owner = ValueOf(field: string) | WhereOf(field: string) | ExtraAt(index: nat) | Loose

  // ---- What a condition means ----

  /** How a row answers a comparison, an IN and a NULL test: whatever the database does. */
  datatype Answers = Answers(compare: (string, string, Value) -> bool, within: (string, Value) -> bool, isNull: string -> bool)

  predicate ListOperator(op: string) {
    op == "&&" || op == "@>"
  }

  /** What the caller asked for. IS with any value other than the two it knows asks nothing. */
  predicate Meets(a: Answers, field: string, c: Cond) {
    if ListOperator(c.op) then a.compare(field, c.op, c.value)
    else if c.value.List? then a.within(field, c.value)
    else if c.op == "IS" then
      if c.value == Text("NULL") then a.isNull(field) else if c.value == Text("NOT NULL") then !a.isNull(field) else true
    else a.compare(field, c.op, c.value)
  }

  /** What an emitted clause says, read against the arguments. */
  predicate Says(a: Answers, args: seq<Value>, c: Clause) {
    match c
    case Compare(field, op, slot) => 1 <= slot <= |args| && a.compare(field, op, args[slot - 1])
    case In(field, slot) => 1 <= slot <= |args| && a.within(field, args[slot - 1])
    case IsNull(field) => a.isNull(field)
    case IsNotNull(field) => !a.isNull(field)
  }

  ghost predicate SaysAll(a: Answers, args: seq<Value>, cs: seq<Clause>) {
    forall c :: c in cs ==> Says(a, args, c)
  }

  ghost predicate MeetsAll(a: Answers, conds: map<string, Cond>, extras: seq<Extra>) {
    && (forall f :: f in conds ==> Meets(a, f, conds[f]))
    && (forall x :: x in extras ==> a.compare(x.field, x.op, x.value))
  }

  /** The clause of one condition, if it has one. */
  function ClauseOf(field: string, op: string, value: Value, slot: nat): seq<Clause> {
    if ListOperator(op) then [Compare(field, op, slot)]
    else if value.List? then [In(field, slot)]
    else if op == "IS" then
      if value == Text("NULL") then [IsNull(field)] else if value == Text("NOT NULL") then [IsNotNull(field)] else []
    else [Compare(field, op, slot)]
  }

  lemma ClauseSays(a: Answers, args: seq<Value>, field: string, op: string, slot: nat)
    requires 1 <= slot <= |args|
    ensures SaysAll(a, args, ClauseOf(field, op, args[slot - 1], slot)) <==> Meets(a, field, Cond(op, args[slot - 1]))
  {
    var cs := ClauseOf(field, op, args[slot - 1], slot);
    if cs != [] {
      assert cs[0] in cs;
    }
  }

  // ---- When a statement runs ----

  predicate Refers(c: Clause, slot: nat) {
    (c.Compare? || c.In?) && c.slot == slot
  }

  predicate SomeRefers(cs: seq<Clause>, slot: nat) {
    exists c :: c in cs && Refers(c, slot)
  }

  predicate Uses(x: Assignment, slot: nat) {
    match x
    case Assign(_, s) => s == slot
    case PatchList(_, addSlot, removeSlot) => addSlot == slot || removeSlot == slot
  }

  predicate SomeUses(v: seq<Assignment>, slot: nat) {
    exists x :: x in v && Uses(x, slot)
  }

  predicate StatementRefers(st: Statement, slot: nat) {
    SomeRefers(st.wheres, slot) || (st.Update? && SomeUses(st.sets, slot))
  }

  /** A query runs if it refers to every argument, as the driver wants, and does not say WHERE
      with nothing behind it. */
  ghost predicate QueryRuns(w: Option<seq<Clause>>, args: seq<Value>) {
    match w
    case None => args == []
    case Some(cs) => cs != [] && forall slot :: 1 <= slot <= |args| ==> SomeRefers(cs, slot)
  }

  /** An UPDATE always says SET and WHERE and a DELETE always says WHERE, so there must be
      something behind each. */
  ghost predicate Runs(st: Statement, args: seq<Value>) {
    st.wheres != [] && (st.Update? ==> st.sets != []) && forall slot :: 1 <= slot <= |args| ==> StatementRefers(st, slot)
  }

  // ---- The builder ----

  predicate Owns(owners: seq<Owner>, slot: nat, owner: Owner) {
    1 <= slot <= |owners| && owners[slot - 1] == owner
  }

  predicate Bound(args: seq<Value>, slot: nat) {
    1 <= slot <= |args| && args[slot - 1] != Nil
  }

  ghost predicate ValuesSound(values: map<string, nat>, owners: seq<Owner>) {
    forall f :: f in values ==> Owns(owners, values[f], ValueOf(f))
  }

  ghost predicate WheresSound(wheres: map<string, nat>, mods: map<string, string>, args: seq<Value>, owners: seq<Owner>) {
    && mods.Keys == wheres.Keys
    && (forall f :: f in wheres ==> Owns(owners, wheres[f], WhereOf(f)))
    && (forall f :: f in wheres ==> Bound(args, wheres[f]))
  }

  ghost predicate ExtrasSound(extras: seq<Clause>, owners: seq<Owner>) {
    forall i :: 0 <= i < |extras| ==> extras[i].Compare? && Owns(owners, extras[i].slot, ExtraAt(i))
  }

  /** The owner is one the builder still knows under this slot. */
  predicate OwnerKnown(o: Owner, slot: nat, values: map<string, nat>, wheres: map<string, nat>, extras: seq<Clause>) {
    match o
    case ValueOf(f) => f in values && values[f] == slot
    case WhereOf(f) => f in wheres && wheres[f] == slot
    case ExtraAt(i) => i < |extras| && extras[i].Compare? && extras[i].slot == slot
    case Loose => true
  }

  ghost predicate OwnersKnown(owners: seq<Owner>, values: map<string, nat>, wheres: map<string, nat>, extras: seq<Clause>) {
    forall k :: 0 <= k < |owners| ==> OwnerKnown(owners[k], k + 1, values, wheres, extras)
  }

  lemma OwnersKnownMore(owners: seq<Owner>, o: Owner, values: map<string, nat>, values': map<string, nat>, wheres: map<string, nat>,
                        wheres': map<string, nat>, extras: seq<Clause>, extras': seq<Clause>)
    requires OwnersKnown(owners, values, wheres, extras) && OwnerKnown(o, |owners| + 1, values', wheres', extras') && extras <= extras'
    requires forall f :: f in values ==> f in values' && values'[f] == values[f]
    requires forall f :: f in wheres ==> f in wheres' && wheres'[f] == wheres[f]
    ensures OwnersKnown(owners + [o], values', wheres', extras')
  {
    forall k | 0 <= k < |owners| ensures OwnerKnown(owners[k], k + 1, values', wheres', extras') {
      assert OwnerKnown(owners[k], k + 1, values, wheres, extras);
    }
  }

  /** The fields to set, with their values. */
  ghost function ValuesOf(values: map<string, nat>, args: seq<Value>): (r: map<string, Value>)
    ensures AreValues(r, values, args)
  {
    SomeValues(values, args);
    var r :| AreValues(r, values, args);
    r
  }

  ghost predicate AreValues(r: map<string, Value>, values: map<string, nat>, args: seq<Value>) {
    && (forall f {:trigger f in r} :: f in r <==> f in values && 1 <= values[f] <= |args|)
    && (forall f {:trigger r[f]} :: f in r ==> r[f] == args[values[f] - 1])
  }

  lemma SomeValues(values: map<string, nat>, args: seq<Value>)
    ensures exists r :: AreValues(r, values, args)
  {
    var r := Tabulate(set f | f in values && 1 <= values[f] <= |args|,
                      (f: string) => if f in values && 1 <= values[f] <= |args| then args[values[f] - 1] else Nil);
    assert AreValues(r, values, args);
  }

  ghost function CondsOf(wheres: map<string, nat>, mods: map<string, string>, args: seq<Value>): (r: map<string, Cond>)
    ensures AreConds(r, wheres, mods, args)
  {
    SomeConds(wheres, mods, args);
    var r :| AreConds(r, wheres, mods, args);
    r
  }

  ghost predicate AreConds(r: map<string, Cond>, wheres: map<string, nat>, mods: map<string, string>, args: seq<Value>) {
    && (forall f {:trigger f in r} :: f in r <==> f in wheres && f in mods && 1 <= wheres[f] <= |args|)
    && (forall f {:trigger r[f]} :: f in r ==> r[f] == Cond(mods[f], args[wheres[f] - 1]))
  }

  lemma SomeConds(wheres: map<string, nat>, mods: map<string, string>, args: seq<Value>)
    ensures exists r :: AreConds(r, wheres, mods, args)
  {
    var r := Tabulate(set f | f in wheres && f in mods && 1 <= wheres[f] <= |args|,
                      (f: string) => if f in wheres && f in mods && 1 <= wheres[f] <= |args| then Cond(mods[f], args[wheres[f] - 1]) else Cond("", Nil));
    assert AreConds(r, wheres, mods, args);
  }

  function ExtraOf(c: Clause, args: seq<Value>): Extra {
    if c.Compare? && 1 <= c.slot <= |args| then Extra(c.field, c.op, args[c.slot - 1]) else Extra("", "", Nil)
  }

  function ExtrasOf(extras: seq<Clause>, args: seq<Value>): (r: seq<Extra>)
    ensures |r| == |extras| && forall i :: 0 <= i < |r| ==> r[i] == ExtraOf(extras[i], args)
  {
    seq(|extras|, i requires 0 <= i < |extras| => ExtraOf(extras[i], args))
  }

  /** No slot serves two fields, or a field's value and a condition, or an appended clause too. */
  lemma SlotsApart(values: map<string, nat>, wheres: map<string, nat>, mods: map<string, string>, extras: seq<Clause>,
                   args: seq<Value>, owners: seq<Owner>, f: string, g: string, i: nat, j: nat)
    requires ValuesSound(values, owners) && WheresSound(wheres, mods, args, owners) && ExtrasSound(extras, owners)
    ensures f in values && g in values && f != g ==> values[f] != values[g]
    ensures f in wheres && g in wheres && f != g ==> wheres[f] != wheres[g]
    ensures f in values && g in wheres ==> values[f] != wheres[g]
    ensures i < |extras| && f in values ==> values[f] != extras[i].slot
    ensures i < |extras| && g in wheres ==> wheres[g] != extras[i].slot
    ensures i < j < |extras| ==> extras[i].slot != extras[j].slot
  {
    assert i < |extras| ==> Owns(owners, extras[i].slot, ExtraAt(i));
    assert j < |extras| ==> Owns(owners, extras[j].slot, ExtraAt(j));
  }

  /** s' is s but for slot k, which may be new. */
  ghost predicate SameBut<T>(s: seq<T>, s': seq<T>, k: nat) {
    1 <= k <= |s'| && |s| <= |s'| && forall i :: 0 <= i < |s| && i != k - 1 ==> s'[i] == s[i]
  }

  /** Slot k is new, or was and stays one of owner's. */
  ghost predicate Changes(owners: seq<Owner>, owners': seq<Owner>, args: seq<Value>, args': seq<Value>, k: nat, owner: Owner) {
    && |owners| == |args| && |owners'| == |args'| && SameBut(owners, owners', k) && SameBut(args, args', k)
    && Owns(owners', k, owner) && (k <= |owners| ==> owners[k - 1] == owner)
  }

  lemma OtherSlot(owners: seq<Owner>, owners': seq<Owner>, args: seq<Value>, args': seq<Value>, k: nat, owner: Owner, slot: nat, other: Owner)
    requires Changes(owners, owners', args, args', k, owner) && Owns(owners, slot, other) && other != owner
    ensures Owns(owners', slot, other) && slot <= |args| && args'[slot - 1] == args[slot - 1]
  {
  }

  lemma ValuesElsewhere(values: map<string, nat>, owners: seq<Owner>, owners': seq<Owner>, args: seq<Value>, args': seq<Value>, k: nat, owner: Owner)
    requires ValuesSound(values, owners) && Changes(owners, owners', args, args', k, owner) && !owner.ValueOf?
    ensures ValuesSound(values, owners') && ValuesOf(values, args') == ValuesOf(values, args)
  {
    forall f | f in values ensures Owns(owners', values[f], ValueOf(f)) && values[f] <= |args| && args'[values[f] - 1] == args[values[f] - 1] {
      OtherSlot(owners, owners', args, args', k, owner, values[f], ValueOf(f));
    }
  }

  lemma ValuesHere(values: map<string, nat>, owners: seq<Owner>, owners': seq<Owner>, args: seq<Value>, args': seq<Value>, k: nat, f: string)
    requires ValuesSound(values, owners) && Changes(owners, owners', args, args', k, ValueOf(f))
    requires f in values ==> values[f] == k
    ensures ValuesSound(values[f := k], owners') && ValuesOf(values[f := k], args') == ValuesOf(values, args)[f := args'[k - 1]]
  {
    forall g | g in values && g != f ensures Owns(owners', values[g], ValueOf(g)) && SameAt(args, args', values[g]) {
      OtherSlot(owners, owners', args, args', k, ValueOf(f), values[g], ValueOf(g));
    }
    OneValue(values, args, args', k, f);
  }

  predicate SameAt(args: seq<Value>, args': seq<Value>, slot: nat) {
    1 <= slot <= |args| && slot <= |args'| && args[slot - 1] == args'[slot - 1]
  }

  lemma OneValue(values: map<string, nat>, args: seq<Value>, args': seq<Value>, k: nat, f: string)
    requires 1 <= k <= |args'| && forall g :: g in values && g != f ==> SameAt(args, args', values[g])
    ensures ValuesOf(values[f := k], args') == ValuesOf(values, args)[f := args'[k - 1]]
  {
  }

  lemma OneCond(wheres: map<string, nat>, mods: map<string, string>, args: seq<Value>, args': seq<Value>, k: nat, f: string, op: string)
    requires 1 <= k <= |args'| && mods.Keys == wheres.Keys && forall g :: g in wheres && g != f ==> SameAt(args, args', wheres[g])
    ensures CondsOf(wheres[f := k], mods[f := op], args') == CondsOf(wheres, mods, args)[f := Cond(op, args'[k - 1])]
  {
  }

  lemma WheresElsewhere(wheres: map<string, nat>, mods: map<string, string>, owners: seq<Owner>, owners': seq<Owner>,
                        args: seq<Value>, args': seq<Value>, k: nat, owner: Owner)
    requires WheresSound(wheres, mods, args, owners) && Changes(owners, owners', args, args', k, owner) && !owner.WhereOf?
    ensures WheresSound(wheres, mods, args', owners') && CondsOf(wheres, mods, args') == CondsOf(wheres, mods, args)
  {
    forall f | f in wheres ensures Owns(owners', wheres[f], WhereOf(f)) && SameAt(args, args', wheres[f]) {
      OtherSlot(owners, owners', args, args', k, owner, wheres[f], WhereOf(f));
    }
    forall f | f in wheres ensures Bound(args', wheres[f]) {
      assert Bound(args, wheres[f]);
    }
    SameConds(wheres, mods, args, args');
  }

  lemma SameConds(wheres: map<string, nat>, mods: map<string, string>, args: seq<Value>, args': seq<Value>)
    requires forall f :: f in wheres ==> SameAt(args, args', wheres[f])
    ensures CondsOf(wheres, mods, args') == CondsOf(wheres, mods, args)
  {
  }

  lemma WheresHere(wheres: map<string, nat>, mods: map<string, string>, owners: seq<Owner>, owners': seq<Owner>,
                   args: seq<Value>, args': seq<Value>, k: nat, f: string, op: string)
    requires WheresSound(wheres, mods, args, owners) && Changes(owners, owners', args, args', k, WhereOf(f))
    requires (f in wheres ==> wheres[f] == k) && args'[k - 1] != Nil
    ensures WheresSound(wheres[f := k], mods[f := op], args', owners')
    ensures CondsOf(wheres[f := k], mods[f := op], args') == CondsOf(wheres, mods, args)[f := Cond(op, args'[k - 1])]
  {
    forall g | g in wheres && g != f
      ensures Owns(owners', wheres[g], WhereOf(g)) && SameAt(args, args', wheres[g]) && Bound(args', wheres[g])
    {
      OtherWhere(wheres, mods, owners, owners', args, args', k, f, g);
    }
    OneWhere(wheres, mods, args', owners', k, f, op);
    OneCond(wheres, mods, args, args', k, f, op);
  }

  lemma OneWhere(wheres: map<string, nat>, mods: map<string, string>, args: seq<Value>, owners: seq<Owner>, k: nat, f: string, op: string)
    requires mods.Keys == wheres.Keys && Owns(owners, k, WhereOf(f)) && Bound(args, k)
    requires forall g :: g in wheres && g != f ==> Owns(owners, wheres[g], WhereOf(g)) && Bound(args, wheres[g])
    ensures WheresSound(wheres[f := k], mods[f := op], args, owners)
  {
  }

  lemma OtherWhere(wheres: map<string, nat>, mods: map<string, string>, owners: seq<Owner>, owners': seq<Owner>,
                   args: seq<Value>, args': seq<Value>, k: nat, f: string, g: string)
    requires WheresSound(wheres, mods, args, owners) && Changes(owners, owners', args, args', k, WhereOf(f)) && g in wheres && g != f
    ensures Owns(owners', wheres[g], WhereOf(g)) && SameAt(args, args', wheres[g]) && Bound(args', wheres[g])
  {
    OtherSlot(owners, owners', args, args', k, WhereOf(f), wheres[g], WhereOf(g));
    assert Bound(args, wheres[g]);
  }

  lemma ExtrasElsewhere(extras: seq<Clause>, owners: seq<Owner>, owners': seq<Owner>, args: seq<Value>, args': seq<Value>, k: nat, owner: Owner)
    requires ExtrasSound(extras, owners) && Changes(owners, owners', args, args', k, owner)
    requires owner.ExtraAt? ==> k == |args| + 1
    ensures ExtrasSound(extras, owners') && ExtrasOf(extras, args') == ExtrasOf(extras, args)
  {
    forall i | 0 <= i < |extras| ensures Owns(owners', extras[i].slot, ExtraAt(i)) && ExtraOf(extras[i], args') == ExtraOf(extras[i], args) {
      assert Owns(owners, extras[i].slot, ExtraAt(i));
    }
  }

  /** A slot of a field's value changes only what is set for that field. */
  lemma ValueChanges(values: map<string, nat>, wheres: map<string, nat>, mods: map<string, string>, extras: seq<Clause>,
                     owners: seq<Owner>, owners': seq<Owner>, args: seq<Value>, args': seq<Value>, k: nat, f: string)
    requires ValuesSound(values, owners) && WheresSound(wheres, mods, args, owners) && ExtrasSound(extras, owners)
    requires Changes(owners, owners', args, args', k, ValueOf(f)) && (f in values ==> values[f] == k)
    ensures ValuesSound(values[f := k], owners') && WheresSound(wheres, mods, args', owners') && ExtrasSound(extras, owners')
    ensures ValuesOf(values[f := k], args') == ValuesOf(values, args)[f := args'[k - 1]]
    ensures CondsOf(wheres, mods, args') == CondsOf(wheres, mods, args) && ExtrasOf(extras, args') == ExtrasOf(extras, args)
  {
    ValuesHere(values, owners, owners', args, args', k, f);
    WheresElsewhere(wheres, mods, owners, owners', args, args', k, ValueOf(f));
    ExtrasElsewhere(extras, owners, owners', args, args', k, ValueOf(f));
  }

  /** A slot of a field's condition changes only that condition. */
  lemma WhereChanges(values: map<string, nat>, wheres: map<string, nat>, mods: map<string, string>, extras: seq<Clause>,
                     owners: seq<Owner>, owners': seq<Owner>, args: seq<Value>, args': seq<Value>, k: nat, f: string, op: string)
    requires ValuesSound(values, owners) && WheresSound(wheres, mods, args, owners) && ExtrasSound(extras, owners)
    requires Changes(owners, owners', args, args', k, WhereOf(f)) && (f in wheres ==> wheres[f] == k) && args'[k - 1] != Nil
    ensures ValuesSound(values, owners') && WheresSound(wheres[f := k], mods[f := op], args', owners') && ExtrasSound(extras, owners')
    ensures CondsOf(wheres[f := k], mods[f := op], args') == CondsOf(wheres, mods, args)[f := Cond(op, args'[k - 1])]
    ensures ValuesOf(values, args') == ValuesOf(values, args) && ExtrasOf(extras, args') == ExtrasOf(extras, args)
  {
    ValuesElsewhere(values, owners, owners', args, args', k, WhereOf(f));
    WheresHere(wheres, mods, owners, owners', args, args', k, f, op);
    ExtrasElsewhere(extras, owners, owners', args, args', k, WhereOf(f));
  }

  lemma ChangedValue(values: map<string, nat>, wheres: map<string, nat>, mods: map<string, string>, extras: seq<Clause>,
                     owners: seq<Owner>, args: seq<Value>, args': seq<Value>, f: string, value: Value)
    requires |owners| == |args| && ValuesSound(values, owners) && WheresSound(wheres, mods, args, owners) && ExtrasSound(extras, owners)
    requires f in values && 1 <= values[f] <= |args| && args' == args[values[f] - 1 := value]
    ensures WheresSound(wheres, mods, args', owners)
    ensures ValuesOf(values, args') == ValuesOf(values, args)[f := value]
    ensures CondsOf(wheres, mods, args') == CondsOf(wheres, mods, args) && ExtrasOf(extras, args') == ExtrasOf(extras, args)
  {
    assert Owns(owners, values[f], ValueOf(f)) && values[f := values[f]] == values;
    ValueChanges(values, wheres, mods, extras, owners, owners, args, args', values[f], f);
  }

  lemma NewWhere(values: map<string, nat>, wheres: map<string, nat>, mods: map<string, string>, extras: seq<Clause>,
                 owners: seq<Owner>, args: seq<Value>, f: string, value: Value, op: string)
    requires |owners| == |args| && ValuesSound(values, owners) && WheresSound(wheres, mods, args, owners) && ExtrasSound(extras, owners)
    requires OwnersKnown(owners, values, wheres, extras) && f !in wheres && value != Nil
    ensures var k, owners', args' := |args| + 1, owners + [WhereOf(f)], args + [value];
            && ValuesSound(values, owners') && WheresSound(wheres[f := k], mods[f := op], args', owners') && ExtrasSound(extras, owners')
            && OwnersKnown(owners', values, wheres[f := k], extras)
            && ValuesOf(values, args') == ValuesOf(values, args) && ExtrasOf(extras, args') == ExtrasOf(extras, args)
            && CondsOf(wheres[f := k], mods[f := op], args') == CondsOf(wheres, mods, args)[f := Cond(op, value)]
  {
    var k := |args| + 1;
    OwnersKnownMore(owners, WhereOf(f), values, values, wheres, wheres[f := k], extras, extras);
    WhereChanges(values, wheres, mods, extras, owners, owners + [WhereOf(f)], args, args + [value], k, f, op);
  }

  lemma ChangedWhere(values: map<string, nat>, wheres: map<string, nat>, mods: map<string, string>, mods': map<string, string>, extras: seq<Clause>,
                     owners: seq<Owner>, args: seq<Value>, args': seq<Value>, f: string, value: Value, op: string)
    requires |owners| == |args| && ValuesSound(values, owners) && WheresSound(wheres, mods, args, owners) && ExtrasSound(extras, owners)
    requires f in wheres && value != Nil && 1 <= wheres[f] <= |args|
    requires args' == args[wheres[f] - 1 := value] && mods' == mods[f := op]
    ensures WheresSound(wheres, mods', args', owners)
    ensures ValuesOf(values, args') == ValuesOf(values, args) && ExtrasOf(extras, args') == ExtrasOf(extras, args)
    ensures CondsOf(wheres, mods', args') == CondsOf(wheres, mods, args)[f := Cond(op, value)]
  {
    assert Owns(owners, wheres[f], WhereOf(f)) && wheres[f := wheres[f]] == wheres;
    WhereChanges(values, wheres, mods, extras, owners, owners, args, args', wheres[f], f, op);
  }

  class Builder {
    var values: map<string, nat>
    var wheres: map<string, nat>
    var wheremod: map<string, string>
    var whereExtras: seq<Clause>
    var args: seq<Value>
    var pos: nat
    var listPatched: seq<string>
    var built: Option<Statement>
    ghost var owners: seq<Owner>

    /** Placeholder numbers follow the arguments, and each slot has one owner. */
    ghost predicate Valid()
      reads this
    {
      && pos == |args| + 1 && |owners| == |args|
      && ValuesSound(values, owners) && WheresSound(wheres, wheremod, args, owners) && ExtrasSound(whereExtras, owners)
      && OwnersKnown(owners, values, wheres, whereExtras)
    }

    /** Some argument is neither a field's value nor in a condition of a field's own. */
    ghost predicate Spare()
      reads this
    {
      whereExtras != [] || Loose in owners
    }

    ghost function Values(): map<string, Value>
      reads this
    {
      ValuesOf(values, args)
    }

    ghost function Conds(): map<string, Cond>
      reads this
    {
      CondsOf(wheres, wheremod, args)
    }

    ghost function Extras(): seq<Extra>
      reads this
    {
      ExtrasOf(whereExtras, args)
    }

    constructor ()
      ensures Valid() && built == None && listPatched == [] && !Spare()
      ensures Values() == map[]
      ensures Conds() == map[]
      ensures Extras() == []
    {
      values, wheres, wheremod, whereExtras, args, pos := map[], map[], map[], [], [], 1;
      listPatched, built, owners := [], None, [];
    }

    /** The last value set for a field is the one its slot holds. */
    method SetValue(field: string, value: Value)
      requires Valid()
      modifies this`values, this`args, this`pos, this`owners
      ensures Valid() && Values() == old(Values())[field := value] && Conds() == old(Conds()) && Extras() == old(Extras())
      ensures (field in old(values) ==> values == old(values)) && LooseKept(old(owners), owners, old(args), args)
      ensures Spare() == old(Spare())
    {
      ghost var values0, args0, owners0 := values, args, owners;
      if field !in values {
        values := values[field := pos];
        args := args + [value];
        owners := owners + [ValueOf(field)];
        OwnersKnownMore(owners0, ValueOf(field), values0, values, wheres, wheres, whereExtras, whereExtras);
        pos := pos + 1;
      } else {
        assert Owns(owners, values[field], ValueOf(field));
        args := args[values[field] - 1 := value];
      }
      assert values == values0[field := values[field]];
      ValueChanges(values0, wheres, wheremod, whereExtras, owners0, owners, args0, args, values[field], field);
    }

    /** The number of the new placeholder, or -1 for no value. */
    method SaveArbitraryValue(value: Value) returns (slot: int)
      requires Valid()
      modifies this`args, this`pos, this`owners
      ensures Valid() && Values() == old(Values()) && Conds() == old(Conds()) && Extras() == old(Extras())
      ensures value == Nil ==> slot == -1 && args == old(args) && owners == old(owners)
      ensures value != Nil ==> slot == |args| && args == old(args) + [value] && owners == old(owners) + [Loose]
    {
      if value == Nil {
        return -1;
      }
      ghost var args0, owners0 := args, owners;
      args := args + [value];
      owners := owners + [Loose];
      ValuesElsewhere(values, owners0, owners, args0, args, pos, Loose);
      WheresElsewhere(wheres, wheremod, owners0, owners, args0, args, pos, Loose);
      ExtrasElsewhere(whereExtras, owners0, owners, args0, args, pos, Loose);
      pos := pos + 1;
      slot := pos - 1;
    }

    /** The last condition set on a field is the one that counts; no value sets none. */
    method InnerSetWhere(field: string, value: Value, op: string)
      requires Valid()
      modifies this`wheres, this`wheremod, this`args, this`pos, this`owners
      ensures Valid() && Values() == old(Values()) && Extras() == old(Extras()) && Spare() == old(Spare())
      ensures Conds() == if value == Nil then old(Conds()) else old(Conds())[field := Cond(op, value)]
    {
      if value == Nil {
        return;
      }
      if field !in wheres {
        AddWhere(field, value, op);
      } else {
        ReplaceWhere(field, value, op);
      }
    }

    method AddWhere(field: string, value: Value, op: string)
      requires Valid() && field !in wheres && value != Nil
      modifies this`wheres, this`wheremod, this`args, this`pos, this`owners
      ensures Valid() && Values() == old(Values()) && Extras() == old(Extras()) && Spare() == old(Spare())
      ensures Conds() == old(Conds())[field := Cond(op, value)]
    {
      NewWhere(values, wheres, wheremod, whereExtras, owners, args, field, value, op);
      wheres := wheres[field := pos];
      wheremod := wheremod[field := op];
      args := args + [value];
      owners := owners + [WhereOf(field)];
      pos := pos + 1;
    }

    method ReplaceWhere(field: string, value: Value, op: string)
      requires Valid() && field in wheres && value != Nil
      modifies this`wheremod, this`args
      ensures Valid() && Values() == old(Values()) && Extras() == old(Extras()) && Spare() == old(Spare())
      ensures Conds() == old(Conds())[field := Cond(op, value)]
    {
      assert Owns(owners, wheres[field], WhereOf(field));
      args := args[wheres[field] - 1 := value];
      wheremod := wheremod[field := op];
      ChangedWhere(values, wheres, old(wheremod), wheremod, whereExtras, owners, old(args), args, field, value, op);
    }

    method SetWhereAbsolute(field: string, value: Value)
      requires Valid()
      modifies this`wheres, this`wheremod, this`args, this`pos, this`owners
      ensures Valid() && Values() == old(Values()) && Extras() == old(Extras()) && Spare() == old(Spare())
      ensures Conds() == if value == Nil then old(Conds()) else old(Conds())[field := Cond("=", value)]
    {
      InnerSetWhere(field, value, "=");
    }

    method AppendWhere(field: string, op: string, value: Value)
      requires Valid()
      modifies this`whereExtras, this`args, this`pos, this`owners
      ensures Valid() && Values() == old(Values()) && Conds() == old(Conds()) && Spare() == (value != Nil || old(Spare()))
      ensures Extras() == if value == Nil then old(Extras()) else old(Extras()) + [Extra(field, op, value)]
    {
      if value == Nil {
        return;
      }
      ghost var args0, owners0, owner := args, owners, ExtraAt(|whereExtras|);
      args := args + [value];
      owners := owners + [owner];
      ValuesElsewhere(values, owners0, owners, args0, args, pos, owner);
      WheresElsewhere(wheres, wheremod, owners0, owners, args0, args, pos, owner);
      ExtrasElsewhere(whereExtras, owners0, owners, args0, args, pos, owner);
      OwnersKnownMore(owners0, owner, values, values, wheres, wheres, whereExtras, whereExtras + [Compare(field, op, pos)]);
      whereExtras := whereExtras + [Compare(field, op, pos)];
      pos := pos + 1;
      assert ExtrasOf(whereExtras, args) == old(ExtrasOf(whereExtras, args)) + [Extra(field, op, value)];
    }

    /** The conditions in the order the map ranges gave them, then the appended ones; None when
        there are none at all. */
    method BuildWhereClause() returns (w: Option<seq<Clause>>)
      requires Valid()
      ensures EmittedWhole(w, wheres, wheremod, whereExtras, args)
    {
      if |wheres| == 0 && |whereExtras| == 0 {
        return None;
      }
      assert forall f :: f in wheres ==> Bound(args, wheres[f]);
      var clauses := Conditions(wheres, wheremod, args);
      EmittedExtras(clauses, wheres.Keys, wheres, wheremod, whereExtras, args);
      w := Some(clauses + whereExtras);
    }

    /** The range over the fields' conditions. */
    static method Conditions(wheres: map<string, nat>, mods: map<string, string>, args: seq<Value>) returns (clauses: seq<Clause>)
      requires mods.Keys == wheres.Keys && forall f :: f in wheres ==> Bound(args, wheres[f])
      ensures Emitted(clauses, wheres.Keys, wheres, mods, [], args)
    {
      clauses := [];
      var keys := wheres.Keys;
      ghost var done := {};
      while keys != {}
        invariant keys + done == wheres.Keys
        invariant Emitted(clauses, done, wheres, mods, [], args)
        decreases |keys|
      {
        var key :| key in keys;
        keys := keys - {key};
        assert Bound(args, wheres[key]);
        EmittedOneMore(clauses, done, key, wheres, mods, args);
        done := done + {key};
        clauses := clauses + ClauseOf(key, mods[key], args[wheres[key] - 1], wheres[key]);
      }
      assert done == wheres.Keys;
    }

    /** Builds the UPDATE once. Every set field gets one assignment; a list patch takes the
        field's slot for what it adds and a new one for what it removes. Every condition
        becomes an equality, and appended clauses are not used. */
    method BuildUpdate() returns (u: Statement)
      requires Valid()
      modifies this`args, this`pos, this`owners, this`listPatched, this`built
      ensures Valid() && built == Some(u)
      ensures old(built).Some? ==> u == old(built).value && args == old(args)
      ensures old(built).None? ==>
                && Builds(u, args, old(Values()), old(Conds()), old(Spare())) && Conds() == old(Conds())
                && PatchedAre(u.returning, old(listPatched), values.Keys, old(Values()))
    {
      if built.Some? {
        return built.value;
      }
      var w := EqualityClauses();
      ghost var asked, conds, owners0 := Values(), Conds(), owners;
      ValuesKeys(values, owners, args);
      var v := PlaceAll();
      u := Update(v, w, listPatched);
      UpdateBuilt(u, values, wheres, wheremod, whereExtras, asked, args, owners0, owners);
      built := Some(u);
    }

    /** A soft delete is an UPDATE of the deleted flag. Any other is built once and has only the
        conditions, each as an equality. */
    method BuildDelete(soft: bool) returns (d: Statement)
      requires Valid()
      modifies this`values, this`args, this`pos, this`owners, this`listPatched, this`built
      ensures Valid() && built == Some(d)
      ensures old(built).Some? ==> d == old(built).value
      ensures old(built).None? && soft ==> Builds(d, args, old(Values())[DELETED_FLAG := TRUE], old(Conds()), old(Spare()))
      ensures old(built).None? && !soft ==> BuildsDelete(d, args, old(Conds()), old(Spare()) || old(Values()) != map[])
    {
      if soft {
        SetValue(DELETED_FLAG, TRUE);
        d := BuildUpdate();
        return;
      }
      if built.Some? {
        return built.value;
      }
      var w := EqualityClauses();
      d := Delete(w);
      DeleteBuilt(d, values, wheres, wheremod, whereExtras, args, owners);
      built := Some(d);
    }

    /** The range over the fields to set. */
    method PlaceAll() returns (v: seq<Assignment>)
      requires Valid()
      modifies this`args, this`pos, this`owners, this`listPatched
      ensures Valid() && Conds() == old(Conds())
      ensures AllPlaced(v, values.Keys, old(Values()), Values(), values, args, owners)
      ensures old(owners) <= owners && NewSlots(v, |old(owners)|, |args|)
      ensures PatchedAre(listPatched, old(listPatched), values.Keys, old(Values()))
    {
      ValuesKeys(values, owners, args);
      RangingStart(values.Keys, Values(), values, args, owners);
      v := PlaceEach(Values(), owners, listPatched);
      RangingEnd(v, values.Keys, old(Values()), Values(), values, args, old(owners), owners);
    }

    method PlaceEach(ghost asked: map<string, Value>, ghost owners0: seq<Owner>, ghost listPatched0: seq<string>) returns (v: seq<Assignment>)
      requires Valid() && asked.Keys == values.Keys && listPatched == listPatched0
      requires Ranging([], values.Keys, {}, asked, Values(), values, args, owners0, owners)
      modifies this`args, this`pos, this`owners, this`listPatched
      ensures Valid() && Conds() == old(Conds())
      ensures Ranging(v, {}, values.Keys, asked, Values(), values, args, owners0, owners)
      ensures PatchedAre(listPatched, listPatched0, values.Keys, asked)
    {
      v := [];
      var keys := values.Keys;
      ghost var conds, done := Conds(), {};
      while keys != {}
        invariant Valid() && Conds() == conds
        invariant Ranging(v, keys, done, asked, Values(), values, args, owners0, owners)
        invariant PatchedAre(listPatched, listPatched0, done, asked)
        decreases keys
      {
        var key :| key in keys;
        v := PlaceNext(key, v, keys, done, asked, owners0, listPatched0);
        keys := keys - {key};
        done := done + {key};
      }
      assert keys + done == done;
    }

    /** One turn of the range. */
    method PlaceNext(key: string, v: seq<Assignment>, ghost keys: set<string>, ghost done: set<string>, ghost asked: map<string, Value>,
                     ghost owners0: seq<Owner>, ghost listPatched0: seq<string>) returns (v': seq<Assignment>)
      requires Valid() && key in keys && asked.Keys == values.Keys
      requires Ranging(v, keys, done, asked, Values(), values, args, owners0, owners)
      requires PatchedAre(listPatched, listPatched0, done, asked)
      modifies this`args, this`pos, this`owners, this`listPatched
      ensures Valid() && Conds() == old(Conds())
      ensures Ranging(v', keys - {key}, done + {key}, asked, Values(), values, args, owners0, owners)
      ensures PatchedAre(listPatched, listPatched0, done + {key}, asked)
    {
      UnplacedKept(v, keys, done, asked, Values(), values, args, owners, key);
      var x := PlaceField(key);
      PatchedStep(listPatched, listPatched0, done, asked, key, old(listPatched));
      RangingStep(v, x, keys, done, asked, old(Values()), Values(), values, old(args), args, owners0, old(owners), owners);
      v' := v + [x];
    }

    /** One set field's assignment. */
    method PlaceField(key: string) returns (x: Assignment)
      requires Valid() && key in values
      modifies this`args, this`pos, this`owners, this`listPatched
      ensures Valid() && Conds() == old(Conds())
      ensures key in old(Values()) && SameFields(old(Values()), Values(), key)
      ensures listPatched == old(listPatched) + if old(Values())[key].Patch? then [key] else []
      ensures x.field == key && InPlace(x, old(Values())[key], Values(), values, args, owners)
      ensures LooseKept(old(owners), owners, old(args), args) && old(owners) <= owners && OneNewSlot(x, |old(args)|, |args|)
    {
      var slot := values[key];
      assert Owns(owners, slot, ValueOf(key));
      var value := args[slot - 1];
      assert Values()[key] == value;
      if value.Patch? {
        var removePos := PlacePatch(key, value.patch);
        x := PatchList(key, slot, removePos);
        assert InPlace(x, value, Values(), values, args, owners);
      } else {
        x := Assign(key, slot);
        assert InPlace(x, value, Values(), values, args, owners);
      }
    }

    method PlacePatch(key: string, patch: LP.Patch) returns (removePos: nat)
      requires Valid() && key in values
      modifies this`args, this`pos, this`owners, this`listPatched
      ensures Valid() && Conds() == old(Conds()) && Values() == old(Values())[key := List(patch.add)]
      ensures Owns(owners, removePos, Loose) && args[removePos - 1] == List(patch.remove)
      ensures listPatched == old(listPatched) + [key]
      ensures LooseKept(old(owners), owners, old(args), args)
      ensures owners == old(owners) + [Loose] && removePos == |args| == |old(args)| + 1
    {
      assert Owns(owners, values[key], ValueOf(key));
      args := args[values[key] - 1 := List(patch.add)];
      ChangedValue(values, wheres, wheremod, whereExtras, owners, old(args), args, key, List(patch.add));
      ghost var args1 := args;
      removePos := SaveArbitraryValue(List(patch.remove));
      PatchKeepsLoose(old(owners), old(args), args1, values[key] - 1, List(patch.remove));
      listPatched := listPatched + [key];
    }

    method EqualityClauses() returns (w: seq<Clause>)
      ensures Equalities(w, wheres)
    {
      w := [];
      var keys := wheres.Keys;
      while keys != {}
        invariant keys <= wheres.Keys
        invariant forall f :: f in wheres && f !in keys ==> Compare(f, "=", wheres[f]) in w
        invariant forall c :: c in w ==> c.field in wheres && c == Compare(c.field, "=", wheres[c.field])
        decreases |keys|
      {
        var key :| key in keys;
        keys := keys - {key};
        w := w + [Compare(key, "=", wheres[key])];
      }
    }
  }

  /** The list names the fields a patch was asked for. */
  ghost predicate PatchedAre(list: seq<string>, before: seq<string>, fields: set<string>, asked: map<string, Value>) {
    forall f :: f in list <==> f in before || (f in fields && f in asked && asked[f].Patch?)
  }

  lemma PatchedStep(list: seq<string>, before: seq<string>, done: set<string>, asked: map<string, Value>, key: string, shorter: seq<string>)
    requires PatchedAre(shorter, before, done, asked) && key in asked && list == shorter + if asked[key].Patch? then [key] else []
    ensures PatchedAre(list, before, done + {key}, asked)
  {
  }

  ghost predicate SameFields(before: map<string, Value>, after: map<string, Value>, key: string) {
    after.Keys == before.Keys && forall f :: f in before && f != key ==> after[f] == before[f]
  }

  /** The arguments nobody's field names stay as they are. */
  ghost predicate LooseKept(owners: seq<Owner>, owners': seq<Owner>, args: seq<Value>, args': seq<Value>) {
    && |owners| == |args| && |owners'| == |args'| && |owners| <= |owners'|
    && forall k :: 0 <= k < |owners| && owners[k] == Loose ==> owners'[k] == Loose && args'[k] == args[k]
  }

  lemma PatchKeepsLoose(owners: seq<Owner>, args: seq<Value>, args': seq<Value>, k: nat, last: Value)
    requires |owners| == |args| && k < |args| && owners[k] != Loose && |args'| == |args| && args' == args[k := args'[k]]
    ensures LooseKept(owners, owners + [Loose], args, args' + [last])
  {
  }

  // ---- The WHERE clause ----

  /** The clause of a field's condition, if it has one. */
  function OwnClause(f: string, wheres: map<string, nat>, mods: map<string, string>, args: seq<Value>): seq<Clause> {
    if f in wheres && f in mods && Bound(args, wheres[f]) then ClauseOf(f, mods[f], args[wheres[f] - 1], wheres[f]) else []
  }

  predicate IsOwnClause(c: Clause, f: string, wheres: map<string, nat>, mods: map<string, string>, args: seq<Value>) {
    c in OwnClause(f, wheres, mods, args)
  }

  ghost predicate FromField(c: Clause, fields: set<string>, wheres: map<string, nat>, mods: map<string, string>, args: seq<Value>) {
    exists f :: f in fields && IsOwnClause(c, f, wheres, mods, args)
  }

  /** The clauses are those of the fields' conditions, and the appended ones. */
  ghost predicate Emitted(w: seq<Clause>, fields: set<string>, wheres: map<string, nat>, mods: map<string, string>, extras: seq<Clause>, args: seq<Value>) {
    && (forall c :: c in w ==> c in extras || FromField(c, fields, wheres, mods, args))
    && (forall c :: c in extras ==> c in w)
    && (forall f, c :: f in fields && IsOwnClause(c, f, wheres, mods, args) ==> c in w)
  }

  lemma EmittedOneMore(w: seq<Clause>, fields: set<string>, f: string, wheres: map<string, nat>, mods: map<string, string>, args: seq<Value>)
    requires Emitted(w, fields, wheres, mods, [], args)
    ensures Emitted(w + OwnClause(f, wheres, mods, args), fields + {f}, wheres, mods, [], args)
  {
    var more := OwnClause(f, wheres, mods, args);
    forall c | c in w + more ensures FromField(c, fields + {f}, wheres, mods, args) {
      if c in more {
        assert IsOwnClause(c, f, wheres, mods, args);
      } else {
        assert FromField(c, fields, wheres, mods, args);
      }
    }
  }

  lemma EmittedExtras(w: seq<Clause>, fields: set<string>, wheres: map<string, nat>, mods: map<string, string>, extras: seq<Clause>, args: seq<Value>)
    requires Emitted(w, fields, wheres, mods, [], args)
    ensures Emitted(w + extras, fields, wheres, mods, extras, args)
  {
  }

  lemma EmittedSays(a: Answers, w: seq<Clause>, fields: set<string>, wheres: map<string, nat>, mods: map<string, string>, extras: seq<Clause>, args: seq<Value>)
    requires Emitted(w, fields, wheres, mods, extras, args)
    ensures SaysAll(a, args, w) <==> SaysAll(a, args, extras) && forall f :: f in fields ==> SaysAll(a, args, OwnClause(f, wheres, mods, args))
  {
    if SaysAll(a, args, w) {
      forall f, c | f in fields && c in OwnClause(f, wheres, mods, args) ensures Says(a, args, c) {
        assert IsOwnClause(c, f, wheres, mods, args);
      }
    }
    if SaysAll(a, args, extras) && forall f :: f in fields ==> SaysAll(a, args, OwnClause(f, wheres, mods, args)) {
      forall c | c in w ensures Says(a, args, c) {
        if c !in extras {
          assert FromField(c, fields, wheres, mods, args);
          var f :| f in fields && IsOwnClause(c, f, wheres, mods, args);
          assert SaysAll(a, args, OwnClause(f, wheres, mods, args));
        }
      }
    }
  }

  lemma ExtrasSay(a: Answers, extras: seq<Clause>, args: seq<Value>, owners: seq<Owner>)
    requires |owners| == |args| && ExtrasSound(extras, owners)
    ensures SaysAll(a, args, extras) <==> forall x :: x in ExtrasOf(extras, args) ==> a.compare(x.field, x.op, x.value)
  {
    var plain := ExtrasOf(extras, args);
    forall i | 0 <= i < |extras|
      ensures extras[i] in extras && plain[i] in plain && (Says(a, args, extras[i]) <==> a.compare(plain[i].field, plain[i].op, plain[i].value))
    {
      assert Owns(owners, extras[i].slot, ExtraAt(i));
    }
  }

  /** Whatever the order of the clauses, and however the database answers each, the WHERE holds
      of exactly the rows that meet every condition set last on a field and every appended one. */
  lemma WhereMeansConditions(a: Answers, w: seq<Clause>, wheres: map<string, nat>, mods: map<string, string>,
                             extras: seq<Clause>, args: seq<Value>, owners: seq<Owner>)
    requires |owners| == |args| && WheresSound(wheres, mods, args, owners) && ExtrasSound(extras, owners)
    requires Emitted(w, wheres.Keys, wheres, mods, extras, args)
    ensures SaysAll(a, args, w) <==> MeetsAll(a, CondsOf(wheres, mods, args), ExtrasOf(extras, args))
  {
    CondsSay(a, wheres, mods, args, owners);
    EmittedSays(a, w, wheres.Keys, wheres, mods, extras, args);
    ExtrasSay(a, extras, args, owners);
  }

  lemma CondSays(a: Answers, f: string, wheres: map<string, nat>, mods: map<string, string>, args: seq<Value>, owners: seq<Owner>)
    requires WheresSound(wheres, mods, args, owners) && f in wheres
    ensures f in CondsOf(wheres, mods, args)
    ensures SaysAll(a, args, OwnClause(f, wheres, mods, args)) <==> Meets(a, f, CondsOf(wheres, mods, args)[f])
  {
    assert Bound(args, wheres[f]);
    ClauseSays(a, args, f, mods[f], wheres[f]);
  }

  lemma CondsSay(a: Answers, wheres: map<string, nat>, mods: map<string, string>, args: seq<Value>, owners: seq<Owner>)
    requires WheresSound(wheres, mods, args, owners)
    ensures var conds := CondsOf(wheres, mods, args);
            (forall f :: f in wheres.Keys ==> SaysAll(a, args, OwnClause(f, wheres, mods, args))) <==> (forall f :: f in conds ==> Meets(a, f, conds[f]))
  {
    var conds := CondsOf(wheres, mods, args);
    forall f | f in wheres.Keys
      ensures f in conds && (SaysAll(a, args, OwnClause(f, wheres, mods, args)) <==> Meets(a, f, conds[f]))
    {
      CondSays(a, f, wheres, mods, args, owners);
    }
  }

  /** What BuildWhereClause gives. */
  ghost predicate EmittedWhole(w: Option<seq<Clause>>, wheres: map<string, nat>, mods: map<string, string>, extras: seq<Clause>, args: seq<Value>) {
    && (w.None? <==> wheres == map[] && extras == [])
    && (w.Some? ==> Emitted(w.value, wheres.Keys, wheres, mods, extras, args))
  }

  /** A NULL test, or IS with a value that means nothing: no argument is referred to. */
  predicate NoArgument(c: Cond) {
    c.op == "IS" && !c.value.List?
  }

  /** The argument in this slot is one that the WHERE clause refers to. */
  predicate InWhere(owner: Owner, conds: map<string, Cond>) {
    match owner
    case WhereOf(f) => f in conds && !NoArgument(conds[f])
    case ExtraAt(_) => true
    case _ => false
  }

  /** Only a field's own clause refers to its slot. */
  lemma OnlyOwnRefers(c: Clause, w: seq<Clause>, wheres: map<string, nat>, mods: map<string, string>,
                      extras: seq<Clause>, args: seq<Value>, owners: seq<Owner>, slot: nat)
    requires WheresSound(wheres, mods, args, owners) && ExtrasSound(extras, owners) && 1 <= slot <= |owners|
    requires Emitted(w, wheres.Keys, wheres, mods, extras, args) && c in w && Refers(c, slot)
    ensures match owners[slot - 1]
            case WhereOf(f) => f in wheres && IsOwnClause(c, f, wheres, mods, args)
            case ExtraAt(_) => true
            case _ => false
  {
    if c in extras {
      var i :| 0 <= i < |extras| && extras[i] == c;
      assert Owns(owners, extras[i].slot, ExtraAt(i));
    } else {
      assert FromField(c, wheres.Keys, wheres, mods, args);
      var g :| g in wheres.Keys && IsOwnClause(c, g, wheres, mods, args);
      assert Owns(owners, wheres[g], WhereOf(g));
    }
  }

  /** The clauses refer to a slot exactly when it is an appended condition's, or that of a
      field's condition other than a NULL test. */
  lemma ReferredIff(w: seq<Clause>, values: map<string, nat>, wheres: map<string, nat>, mods: map<string, string>, extras: seq<Clause>,
                    args: seq<Value>, owners: seq<Owner>, slot: nat)
    requires |owners| == |args| && WheresSound(wheres, mods, args, owners) && ExtrasSound(extras, owners) && 1 <= slot <= |args|
    requires OwnerKnown(owners[slot - 1], slot, values, wheres, extras) && Emitted(w, wheres.Keys, wheres, mods, extras, args)
    ensures SomeRefers(w, slot) <==> InWhere(owners[slot - 1], CondsOf(wheres, mods, args))
  {
    match owners[slot - 1]
    case WhereOf(f) =>
      assert Bound(args, wheres[f]);
      OwnRefers(f, wheres, mods, args);
      var own := OwnClause(f, wheres, mods, args);
      if !NoArgument(CondsOf(wheres, mods, args)[f]) {
        assert IsOwnClause(own[0], f, wheres, mods, args);
      }
      if c :| c in w && Refers(c, slot) {
        OnlyOwnRefers(c, w, wheres, mods, extras, args, owners, slot);
      }
    case ExtraAt(i) =>
      assert extras[i] in w && Refers(extras[i], slot);
    case _ =>
      if c :| c in w && Refers(c, slot) {
        OnlyOwnRefers(c, w, wheres, mods, extras, args, owners, slot);
      }
  }

  /** A query runs exactly when no condition is a NULL test and nothing but conditions was given
      to the builder. Whether or not it runs, its clause means what was asked. */
  lemma QueryRunsIff(a: Answers, w: Option<seq<Clause>>, values: map<string, nat>, wheres: map<string, nat>, mods: map<string, string>,
                     extras: seq<Clause>, args: seq<Value>, owners: seq<Owner>)
    requires |owners| == |args| && ValuesSound(values, owners) && WheresSound(wheres, mods, args, owners) && ExtrasSound(extras, owners)
    requires OwnersKnown(owners, values, wheres, extras) && EmittedWhole(w, wheres, mods, extras, args)
    ensures QueryRuns(w, args) <==>
              && values == map[] && Loose !in owners
              && forall f :: f in CondsOf(wheres, mods, args) ==> !NoArgument(CondsOf(wheres, mods, args)[f])
    ensures w.Some? ==> (SaysAll(a, args, w.value) <==> MeetsAll(a, CondsOf(wheres, mods, args), ExtrasOf(extras, args)))
    ensures w.None? ==> MeetsAll(a, CondsOf(wheres, mods, args), ExtrasOf(extras, args))
  {
    var conds := CondsOf(wheres, mods, args);
    if w.None? {
      NoneOwned(values, wheres, extras, args, owners);
      assert conds == map[];
    } else {
      WhereMeansConditions(a, w.value, wheres, mods, extras, args, owners);
      AllReferredIff(w.value, values, wheres, mods, extras, args, owners);
      AllInWhereIff(values, wheres, mods, extras, args, owners);
      if forall slot :: 1 <= slot <= |args| ==> SomeRefers(w.value, slot) {
        NotBare(w.value, wheres, mods, extras, args, owners);
      }
    }
  }

  lemma AllReferredIff(w: seq<Clause>, values: map<string, nat>, wheres: map<string, nat>, mods: map<string, string>, extras: seq<Clause>,
                       args: seq<Value>, owners: seq<Owner>)
    requires |owners| == |args| && WheresSound(wheres, mods, args, owners) && ExtrasSound(extras, owners)
    requires OwnersKnown(owners, values, wheres, extras) && Emitted(w, wheres.Keys, wheres, mods, extras, args)
    ensures (forall slot :: 1 <= slot <= |args| ==> SomeRefers(w, slot)) <==> forall k :: 0 <= k < |owners| ==> InWhere(owners[k], CondsOf(wheres, mods, args))
  {
    var conds := CondsOf(wheres, mods, args);
    forall k | 0 <= k < |owners| ensures SomeRefers(w, k + 1) <==> InWhere(owners[k], conds) {
      assert OwnerKnown(owners[k], k + 1, values, wheres, extras);
      ReferredIff(w, values, wheres, mods, extras, args, owners, k + 1);
    }
    if forall k :: 0 <= k < |owners| ==> InWhere(owners[k], conds) {
      forall slot | 1 <= slot <= |args| ensures SomeRefers(w, slot) {
        assert InWhere(owners[slot - 1], conds) && SomeRefers(w, slot - 1 + 1);
      }
    }
  }

  lemma NoneOwned(values: map<string, nat>, wheres: map<string, nat>, extras: seq<Clause>, args: seq<Value>, owners: seq<Owner>)
    requires |owners| == |args| && ValuesSound(values, owners) && OwnersKnown(owners, values, wheres, extras)
    requires wheres == map[] && extras == []
    ensures args == [] <==> values == map[] && Loose !in owners
  {
    if args != [] {
      assert OwnerKnown(owners[0], 1, values, wheres, extras);
    }
    if f :| f in values {
      assert Owns(owners, values[f], ValueOf(f));
    }
  }

  lemma AllInWhereIff(values: map<string, nat>, wheres: map<string, nat>, mods: map<string, string>, extras: seq<Clause>,
                      args: seq<Value>, owners: seq<Owner>)
    requires |owners| == |args| && ValuesSound(values, owners) && WheresSound(wheres, mods, args, owners)
    requires OwnersKnown(owners, values, wheres, extras)
    ensures (forall k :: 0 <= k < |owners| ==> InWhere(owners[k], CondsOf(wheres, mods, args))) <==>
              && values == map[] && Loose !in owners
              && forall f :: f in CondsOf(wheres, mods, args) ==> !NoArgument(CondsOf(wheres, mods, args)[f])
  {
    var conds := CondsOf(wheres, mods, args);
    assert forall f :: f in values ==> Owns(owners, values[f], ValueOf(f));
    assert forall f :: f in conds ==> Owns(owners, wheres[f], WhereOf(f));
    if !forall k :: 0 <= k < |owners| ==> InWhere(owners[k], conds) {
      var k :| 0 <= k < |owners| && !InWhere(owners[k], conds);
      assert OwnerKnown(owners[k], k + 1, values, wheres, extras);
      if owners[k].WhereOf? { assert Bound(args, k + 1); }
    }
  }

  /** A WHERE with nothing behind it leaves its conditions' arguments unreferred to. */
  lemma NotBare(w: seq<Clause>, wheres: map<string, nat>, mods: map<string, string>, extras: seq<Clause>, args: seq<Value>, owners: seq<Owner>)
    requires |owners| == |args| && WheresSound(wheres, mods, args, owners) && (wheres != map[] || extras != [])
    requires Emitted(w, wheres.Keys, wheres, mods, extras, args)
    requires forall slot :: 1 <= slot <= |args| ==> SomeRefers(w, slot)
    ensures w != []
  {
    if extras != [] {
      assert extras[0] in w;
    } else {
      var f :| f in wheres;
      assert Bound(args, wheres[f]) && SomeRefers(w, wheres[f]);
    }
  }

  lemma OwnRefers(f: string, wheres: map<string, nat>, mods: map<string, string>, args: seq<Value>)
    requires f in wheres && f in mods && Bound(args, wheres[f])
    ensures var own := OwnClause(f, wheres, mods, args);
            if !NoArgument(Cond(mods[f], args[wheres[f] - 1])) then |own| == 1 && Refers(own[0], wheres[f])
            else forall c :: c in own ==> !Refers(c, wheres[f])
  {
  }

  // ---- The UPDATE ----

  /** What an assignment gives a column, read against the arguments. */
  function Sets(x: Assignment, current: Option<seq<string>>, args: seq<Value>): Value {
    match x
    case Assign(_, slot) => if 1 <= slot <= |args| then args[slot - 1] else Nil
    case PatchList(_, addSlot, removeSlot) =>
      if 1 <= addSlot <= |args| && 1 <= removeSlot <= |args| && args[addSlot - 1].List? && args[removeSlot - 1].List?
      then List(LP.Applied(current, LP.Patch(args[addSlot - 1].items, args[removeSlot - 1].items)))
      else Nil
  }

  /** The value asked for, a patch meaning the patched list. */
  function Asked(value: Value, current: Option<seq<string>>): Value {
    if value.Patch? then List(LP.Applied(current, value.patch)) else value
  }

  /** Whatever the column holds, the assignment gives it what was asked for. */
  ghost predicate Carries(x: Assignment, value: Value, args: seq<Value>) {
    forall current :: Sets(x, current, args) == Asked(value, current)
  }

  /** Each field's condition is emitted as an equality with its slot, whatever its operator. */
  ghost predicate Equalities(w: seq<Clause>, wheres: map<string, nat>) {
    && (forall f :: f in wheres ==> Compare(f, "=", wheres[f]) in w)
    && (forall c :: c in w ==> c.field in wheres && c == Compare(c.field, "=", wheres[c.field]))
  }

  /** The clauses are an equality for each condition, with its value. */
  ghost predicate EqualsOf(w: seq<Clause>, args: seq<Value>, conds: map<string, Cond>) {
    && (forall f :: f in conds ==> Tests(w, f))
    && (forall c :: c in w ==> c.Compare? && c.op == "=" && c.field in conds && 1 <= c.slot <= |args| && args[c.slot - 1] == conds[c.field].value)
  }

  predicate Tests(w: seq<Clause>, f: string) {
    exists c :: c in w && c.field == f
  }

  /** The UPDATE of a builder that was asked for these values and conditions: one assignment for
      each field, which gives the column what was asked for, and an equality for each condition.
      It refers to every argument unless the builder was given a spare one. */
  ghost predicate Builds(u: Statement, args: seq<Value>, values: map<string, Value>, conds: map<string, Cond>, spare: bool) {
    && u.Update? && NoTwo(u.sets) && (forall f :: f in values ==> SetsField(u.sets, f))
    && (forall x :: x in u.sets ==> x.field in values && Carries(x, values[x.field], args))
    && EqualsOf(u.wheres, args, conds)
    && ((forall slot :: 1 <= slot <= |args| ==> StatementRefers(u, slot)) <==> !spare)
  }

  ghost predicate BuildsDelete(d: Statement, args: seq<Value>, conds: map<string, Cond>, spare: bool) {
    d.Delete? && EqualsOf(d.wheres, args, conds) && ((forall slot :: 1 <= slot <= |args| ==> StatementRefers(d, slot)) <==> !spare)
  }

  /** The slots after n are those of the removals. */
  ghost predicate NewSlots(v: seq<Assignment>, n: nat, m: nat) {
    && (forall slot :: n < slot <= m ==> SomeUses(v, slot))
    && (forall x :: x in v && x.PatchList? ==> x.removeSlot > n)
  }

  ghost predicate OneNewSlot(x: Assignment, m: nat, m': nat) {
    if x.PatchList? then m' == m + 1 && x.removeSlot == m' else m' == m
  }

  lemma NewSlotsStep(v: seq<Assignment>, x: Assignment, n: nat, m: nat, m': nat)
    requires n <= m && NewSlots(v, n, m) && OneNewSlot(x, m, m')
    ensures NewSlots(v + [x], n, m')
  {
    var longer := v + [x];
    assert longer[|v|] == x && x in longer;
    forall slot | n < slot <= m' ensures SomeUses(longer, slot) {
      if slot <= m {
        assert SomeUses(v, slot);
        var y :| y in v && Uses(y, slot);
        assert y in longer;
      } else {
        assert Uses(x, slot);
      }
    }
  }

  /** As Carries, in terms that later arguments do not disturb. */
  ghost predicate InPlace(x: Assignment, value: Value, now: map<string, Value>, values: map<string, nat>, args: seq<Value>, owners: seq<Owner>) {
    && x.field in values && x.field in now && |owners| == |args|
    && match x
       case Assign(f, slot) => slot == values[f] && !value.Patch? && now[f] == value
       case PatchList(f, addSlot, removeSlot) =>
         && addSlot == values[f] && value.Patch? && now[f] == List(value.patch.add)
         && Owns(owners, removeSlot, Loose) && args[removeSlot - 1] == List(value.patch.remove)
  }

  ghost predicate SetsField(v: seq<Assignment>, f: string) {
    exists x :: x in v && x.field == f
  }

  ghost predicate NoTwo(v: seq<Assignment>) {
    forall i, j :: 0 <= i < j < |v| ==> v[i].field != v[j].field
  }

  /** v has one assignment in place for each of the fields, and no other. */
  ghost predicate AllPlaced(v: seq<Assignment>, fields: set<string>, asked: map<string, Value>, now: map<string, Value>, values: map<string, nat>,
                            args: seq<Value>, owners: seq<Owner>)
  {
    && NoTwo(v) && (forall f :: f in fields ==> SetsField(v, f))
    && (forall x :: x in v ==> x.field in fields && x.field in asked && InPlace(x, asked[x.field], now, values, args, owners))
  }

  lemma OneMorePlaced(v: seq<Assignment>, x: Assignment, fields: set<string>, asked: map<string, Value>, now: map<string, Value>, now': map<string, Value>,
                      values: map<string, nat>, args: seq<Value>, args': seq<Value>, owners: seq<Owner>, owners': seq<Owner>)
    requires AllPlaced(v, fields, asked, now, values, args, owners) && LooseKept(owners, owners', args, args')
    requires x.field in asked && InPlace(x, asked[x.field], now', values, args', owners')
    requires x.field !in fields && fields <= now.Keys && SameFields(now, now', x.field)
    ensures AllPlaced(v + [x], fields + {x.field}, asked, now', values, args', owners')
  {
    var v' := v + [x];
    assert v'[|v|] == x && x in v';
    forall f | f in fields + {x.field} ensures SetsField(v', f) {
      if f in fields {
        assert SetsField(v, f);
        var y :| y in v && y.field == f;
        assert y in v';
      }
    }
    forall y | y in v' ensures y.field in fields + {x.field} && y.field in asked && InPlace(y, asked[y.field], now', values, args', owners') {
      if y in v { InPlaceKept(y, asked[y.field], now, now', values, args, args', owners, owners'); }
    }
  }

  /** The range so far: the fields of done are placed, those of keys are as they were. */
  ghost predicate Placing(v: seq<Assignment>, keys: set<string>, done: set<string>, asked: map<string, Value>, now: map<string, Value>,
                          values: map<string, nat>, args: seq<Value>, owners: seq<Owner>)
  {
    && keys !! done && now.Keys == asked.Keys == keys + done
    && (forall f :: f in keys ==> now[f] == asked[f])
    && AllPlaced(v, done, asked, now, values, args, owners)
  }

  lemma PlacingStep(v: seq<Assignment>, x: Assignment, keys: set<string>, done: set<string>, asked: map<string, Value>, now: map<string, Value>,
                    now': map<string, Value>, values: map<string, nat>, args: seq<Value>, args': seq<Value>, owners: seq<Owner>, owners': seq<Owner>)
    requires Placing(v, keys, done, asked, now, values, args, owners) && LooseKept(owners, owners', args, args')
    requires x.field in keys && SameFields(now, now', x.field) && InPlace(x, now[x.field], now', values, args', owners')
    ensures Placing(v + [x], keys - {x.field}, done + {x.field}, asked, now', values, args', owners')
  {
    OneMorePlaced(v, x, done, asked, now, now', values, args, args', owners, owners');
  }

  ghost predicate Ranging(v: seq<Assignment>, keys: set<string>, done: set<string>, asked: map<string, Value>, now: map<string, Value>,
                          values: map<string, nat>, args: seq<Value>, owners0: seq<Owner>, owners: seq<Owner>)
  {
    Placing(v, keys, done, asked, now, values, args, owners) && owners0 <= owners && NewSlots(v, |owners0|, |args|)
  }

  lemma UnplacedKept(v: seq<Assignment>, keys: set<string>, done: set<string>, asked: map<string, Value>, now: map<string, Value>,
                     values: map<string, nat>, args: seq<Value>, owners: seq<Owner>, key: string)
    requires Placing(v, keys, done, asked, now, values, args, owners) && key in keys
    ensures key in now && key in asked && now[key] == asked[key]
  {
  }

  lemma RangingStart(keys: set<string>, asked: map<string, Value>, values: map<string, nat>, args: seq<Value>, owners: seq<Owner>)
    requires keys == asked.Keys && |owners| == |args|
    ensures Ranging([], keys, {}, asked, asked, values, args, owners, owners)
  {
    assert keys + {} == keys;
  }

  lemma RangingEnd(v: seq<Assignment>, done: set<string>, asked: map<string, Value>, now: map<string, Value>, values: map<string, nat>,
                   args: seq<Value>, owners0: seq<Owner>, owners: seq<Owner>)
    requires Ranging(v, {}, done, asked, now, values, args, owners0, owners) && asked.Keys == values.Keys
    ensures done == values.Keys && AllPlaced(v, values.Keys, asked, now, values, args, owners)
    ensures owners0 <= owners && NewSlots(v, |owners0|, |args|)
  {
    assert {} + done == done;
  }

  lemma RangingStep(v: seq<Assignment>, x: Assignment, keys: set<string>, done: set<string>, asked: map<string, Value>, now: map<string, Value>,
                    now': map<string, Value>, values: map<string, nat>, args: seq<Value>, args': seq<Value>,
                    owners0: seq<Owner>, owners: seq<Owner>, owners': seq<Owner>)
    requires Ranging(v, keys, done, asked, now, values, args, owners0, owners) && LooseKept(owners, owners', args, args')
    requires x.field in keys && SameFields(now, now', x.field) && InPlace(x, now[x.field], now', values, args', owners')
    requires owners <= owners' && OneNewSlot(x, |args|, |args'|)
    ensures Ranging(v + [x], keys - {x.field}, done + {x.field}, asked, now', values, args', owners0, owners')
  {
    PlacingStep(v, x, keys, done, asked, now, now', values, args, args', owners, owners');
    NewSlotsStep(v, x, |owners0|, |args|, |args'|);
  }

  lemma AllCarry(v: seq<Assignment>, asked: map<string, Value>, values: map<string, nat>, args: seq<Value>, owners: seq<Owner>)
    requires ValuesSound(values, owners) && AllPlaced(v, values.Keys, asked, ValuesOf(values, args), values, args, owners)
    ensures forall x :: x in v ==> x.field in asked && Carries(x, asked[x.field], args)
  {
    forall x | x in v ensures x.field in asked && Carries(x, asked[x.field], args) {
      PlacedCarries(x, asked[x.field], values, args, owners);
    }
  }

  lemma PlacedCarries(x: Assignment, value: Value, values: map<string, nat>, args: seq<Value>, owners: seq<Owner>)
    requires ValuesSound(values, owners) && InPlace(x, value, ValuesOf(values, args), values, args, owners)
    ensures Carries(x, value, args)
  {
    assert Owns(owners, values[x.field], ValueOf(x.field));
  }

  lemma ValuesKeys(values: map<string, nat>, owners: seq<Owner>, args: seq<Value>)
    requires ValuesSound(values, owners) && |owners| == |args|
    ensures ValuesOf(values, args).Keys == values.Keys
  {
    assert forall f :: f in values ==> Owns(owners, values[f], ValueOf(f));
  }

  lemma InPlaceKept(x: Assignment, value: Value, now: map<string, Value>, now': map<string, Value>, values: map<string, nat>,
                    args: seq<Value>, args': seq<Value>, owners: seq<Owner>, owners': seq<Owner>)
    requires InPlace(x, value, now, values, args, owners) && LooseKept(owners, owners', args, args')
    requires x.field in now' && now'[x.field] == now[x.field]
    ensures InPlace(x, value, now', values, args', owners')
  {
  }

  lemma EqualitiesOf(w: seq<Clause>, wheres: map<string, nat>, mods: map<string, string>, args: seq<Value>, owners: seq<Owner>)
    requires WheresSound(wheres, mods, args, owners) && Equalities(w, wheres)
    ensures EqualsOf(w, args, CondsOf(wheres, mods, args))
  {
    var conds := CondsOf(wheres, mods, args);
    forall f | f in conds ensures Tests(w, f) {
      assert Compare(f, "=", wheres[f]) in w;
    }
    forall c | c in w ensures c.field in conds && 1 <= wheres[c.field] <= |args| && conds[c.field].value == args[wheres[c.field] - 1] {
      FieldCond(c.field, wheres, mods, args, owners);
    }
  }

  lemma FieldCond(f: string, wheres: map<string, nat>, mods: map<string, string>, args: seq<Value>, owners: seq<Owner>)
    requires WheresSound(wheres, mods, args, owners) && f in wheres
    ensures f in CondsOf(wheres, mods, args) && 1 <= wheres[f] <= |args| && CondsOf(wheres, mods, args)[f].value == args[wheres[f] - 1]
  {
    assert Bound(args, wheres[f]);
  }

  lemma EqualityRefersIff(w: seq<Clause>, wheres: map<string, nat>, mods: map<string, string>, values: map<string, nat>, extras: seq<Clause>,
                          args: seq<Value>, owners: seq<Owner>, slot: nat)
    requires WheresSound(wheres, mods, args, owners) && Equalities(w, wheres) && 1 <= slot <= |owners|
    requires OwnerKnown(owners[slot - 1], slot, values, wheres, extras)
    ensures SomeRefers(w, slot) <==> owners[slot - 1].WhereOf?
  {
    if owners[slot - 1].WhereOf? {
      var f := owners[slot - 1].field;
      assert Compare(f, "=", wheres[f]) in w;
    }
    if c :| c in w && Refers(c, slot) {
      assert Owns(owners, wheres[c.field], WhereOf(c.field));
    }
  }

  lemma DeleteBuilt(d: Statement, values: map<string, nat>, wheres: map<string, nat>, mods: map<string, string>, extras: seq<Clause>,
                    args: seq<Value>, owners: seq<Owner>)
    requires |owners| == |args| && ValuesSound(values, owners) && WheresSound(wheres, mods, args, owners) && ExtrasSound(extras, owners)
    requires OwnersKnown(owners, values, wheres, extras) && d.Delete? && Equalities(d.wheres, wheres)
    ensures BuildsDelete(d, args, CondsOf(wheres, mods, args), extras != [] || Loose in owners || ValuesOf(values, args) != map[])
  {
    EqualitiesOf(d.wheres, wheres, mods, args, owners);
    DeleteCoveredIff(d, values, wheres, mods, extras, args, owners);
    NoValuesIff(values, owners, args);
  }

  lemma NoValuesIff(values: map<string, nat>, owners: seq<Owner>, args: seq<Value>)
    requires ValuesSound(values, owners) && |owners| == |args|
    ensures ValuesOf(values, args) == map[] <==> values == map[]
  {
    ValuesKeys(values, owners, args);
    assert values.Keys == {} <==> values == map[];
    assert ValuesOf(values, args).Keys == {} <==> ValuesOf(values, args) == map[];
  }

  lemma DeleteCoveredIff(d: Statement, values: map<string, nat>, wheres: map<string, nat>, mods: map<string, string>, extras: seq<Clause>,
                         args: seq<Value>, owners: seq<Owner>)
    requires |owners| == |args| && ValuesSound(values, owners) && WheresSound(wheres, mods, args, owners) && ExtrasSound(extras, owners)
    requires OwnersKnown(owners, values, wheres, extras) && d.Delete? && Equalities(d.wheres, wheres)
    ensures (forall slot :: 1 <= slot <= |args| ==> StatementRefers(d, slot)) <==> extras == [] && Loose !in owners && values == map[]
  {
    forall k | 0 <= k < |owners| ensures StatementRefers(d, k + 1) <==> owners[k].WhereOf? {
      assert OwnerKnown(owners[k], k + 1, values, wheres, extras);
      EqualityRefersIff(d.wheres, wheres, mods, values, extras, args, owners, k + 1);
    }
    if forall slot :: 1 <= slot <= |args| ==> StatementRefers(d, slot) {
      OnlyWheres(values, extras, owners);
    } else {
      var slot :| 1 <= slot <= |args| && !StatementRefers(d, slot);
      var k := slot - 1;
      assert OwnerKnown(owners[k], k + 1, values, wheres, extras) && !StatementRefers(d, k + 1);
    }
  }

  lemma SomeExtraAt(extras: seq<Clause>, owners: seq<Owner>)
    requires ExtrasSound(extras, owners)
    ensures extras != [] ==> exists k :: 0 <= k < |owners| && owners[k].ExtraAt?
  {
    if extras != [] {
      assert Owns(owners, extras[0].slot, ExtraAt(0));
    }
  }

  lemma OnlyWheres(values: map<string, nat>, extras: seq<Clause>, owners: seq<Owner>)
    requires ValuesSound(values, owners) && ExtrasSound(extras, owners)
    requires forall k :: 0 <= k < |owners| ==> owners[k].WhereOf?
    ensures extras == [] && Loose !in owners && values == map[]
  {
    SomeExtraAt(extras, owners);
    SomeValueOf(values, owners);
  }

  lemma SomeValueOf(values: map<string, nat>, owners: seq<Owner>)
    requires ValuesSound(values, owners)
    ensures values != map[] ==> exists k :: 0 <= k < |owners| && owners[k].ValueOf?
  {
    if f :| f in values {
      assert Owns(owners, values[f], ValueOf(f));
    }
  }

  /** A slot the builder had before is referred to exactly if it is a field's. */
  lemma OldSlotReferredIff(u: Statement, values: map<string, nat>, wheres: map<string, nat>, mods: map<string, string>, extras: seq<Clause>,
                           asked: map<string, Value>, now: map<string, Value>, args: seq<Value>, owners0: seq<Owner>, owners: seq<Owner>, slot: nat)
    requires |owners| == |args| && ValuesSound(values, owners) && WheresSound(wheres, mods, args, owners) && owners0 <= owners
    requires u.Update? && AllPlaced(u.sets, values.Keys, asked, now, values, args, owners) && NewSlots(u.sets, |owners0|, |args|) && Equalities(u.wheres, wheres)
    requires 1 <= slot <= |owners0| && OwnerKnown(owners[slot - 1], slot, values, wheres, extras)
    ensures StatementRefers(u, slot) <==> owners[slot - 1].ValueOf? || owners[slot - 1].WhereOf?
  {
    EqualityRefersIff(u.wheres, wheres, mods, values, extras, args, owners, slot);
    if owners[slot - 1].ValueOf? {
      var f := owners[slot - 1].field;
      assert SetsField(u.sets, f);
      var x :| x in u.sets && x.field == f;
      assert Uses(x, slot);
    }
    if x :| x in u.sets && Uses(x, slot) {
      assert Owns(owners, values[x.field], ValueOf(x.field));
    }
  }

  lemma CoveredIff(u: Statement, values: map<string, nat>, wheres: map<string, nat>, mods: map<string, string>, extras: seq<Clause>,
                   asked: map<string, Value>, now: map<string, Value>, args: seq<Value>, owners0: seq<Owner>, owners: seq<Owner>)
    requires |owners| == |args| && ValuesSound(values, owners) && WheresSound(wheres, mods, args, owners) && owners0 <= owners
    requires u.Update? && AllPlaced(u.sets, values.Keys, asked, now, values, args, owners) && NewSlots(u.sets, |owners0|, |args|) && Equalities(u.wheres, wheres)
    requires ExtrasSound(extras, owners0) && OwnersKnown(owners, values, wheres, extras)
    ensures (forall slot :: 1 <= slot <= |args| ==> StatementRefers(u, slot)) <==> !(extras != [] || Loose in owners0)
  {
    forall slot | 1 <= slot <= |args|
      ensures StatementRefers(u, slot) <==> slot > |owners0| || owners0[slot - 1].ValueOf? || owners0[slot - 1].WhereOf?
    {
      if slot <= |owners0| {
        assert owners[slot - 1] == owners0[slot - 1] && OwnerKnown(owners[slot - 1], slot, values, wheres, extras);
        OldSlotReferredIff(u, values, wheres, mods, extras, asked, now, args, owners0, owners, slot);
      }
    }
    SomeExtraAt(extras, owners0);
    if forall slot :: 1 <= slot <= |args| ==> StatementRefers(u, slot) {
      forall k | 0 <= k < |owners0| ensures owners0[k].ValueOf? || owners0[k].WhereOf? {
        assert StatementRefers(u, k + 1);
      }
    } else {
      var slot :| 1 <= slot <= |args| && !StatementRefers(u, slot);
      assert OwnerKnown(owners[slot - 1], slot, values, wheres, extras);
    }
  }

  lemma UpdateBuilt(u: Statement, values: map<string, nat>, wheres: map<string, nat>, mods: map<string, string>, extras: seq<Clause>,
                    asked: map<string, Value>, args: seq<Value>, owners0: seq<Owner>, owners: seq<Owner>)
    requires |owners| == |args| && ValuesSound(values, owners) && WheresSound(wheres, mods, args, owners) && owners0 <= owners
    requires u.Update? && AllPlaced(u.sets, values.Keys, asked, ValuesOf(values, args), values, args, owners) && asked.Keys == values.Keys
    requires NewSlots(u.sets, |owners0|, |args|) && Equalities(u.wheres, wheres)
    requires ExtrasSound(extras, owners0) && OwnersKnown(owners, values, wheres, extras)
    ensures Builds(u, args, asked, CondsOf(wheres, mods, args), extras != [] || Loose in owners0)
  {
    AllCarry(u.sets, asked, values, args, owners);
    EqualitiesOf(u.wheres, wheres, mods, args, owners);
    CoveredIff(u, values, wheres, mods, extras, asked, ValuesOf(values, args), args, owners0, owners);
  }

  // ---- When an UPDATE or a DELETE touches what was asked for ----

  ghost predicate EqualsAll(a: Answers, conds: map<string, Cond>) {
    forall f :: f in conds ==> a.compare(f, "=", conds[f].value)
  }

  /** The emitted equalities, read against the arguments. */
  lemma EqualitiesSay(a: Answers, w: seq<Clause>, args: seq<Value>, conds: map<string, Cond>)
    requires EqualsOf(w, args, conds)
    ensures SaysAll(a, args, w) <==> EqualsAll(a, conds)
    ensures w != [] <==> conds != map[]
  {
    forall f | f in conds ensures exists c :: c in w && c.field == f && (Says(a, args, c) <==> a.compare(f, "=", conds[f].value)) {
      assert Tests(w, f);
    }
    if w != [] { assert w[0] in w && w[0].field in conds; }
    if f :| f in conds { assert Tests(w, f); }
  }

  /** Equality with a single value. */
  predicate PlainEquality(c: Cond) {
    c.op == "=" && !c.value.List?
  }

  /** Every comparison holds but one, no list holds any field, and every field is NULL or none. */
  function AllBut(f: string, op: string, value: Value, isNull: bool): Answers {
    Answers((g: string, o: string, v: Value) => !(g == f && o == op && v == value), (g: string, v: Value) => false, (g: string) => isNull)
  }

  /** Some rows tell a condition that is no plain equality from the equality with its value. */
  lemma ConditionDiffers(conds: map<string, Cond>, f: string) returns (a: Answers)
    requires f in conds && !PlainEquality(conds[f])
    ensures EqualsAll(a, conds) != MeetsAll(a, conds, [])
  {
    var c := conds[f];
    if c.op == "IS" && !c.value.List? && c.value != Text("NULL") && c.value != Text("NOT NULL") {
      a := OnlyFails(conds, f);
    } else {
      a := AllBut(f, if c.op == "=" then "" else c.op, c.value, c.value != Text("NULL"));
      assert EqualsAll(a, conds) && !Meets(a, f, c);
    }
  }

  /** A row that meets everything asked but not the equality with a value that IS ignores. */
  lemma OnlyFails(conds: map<string, Cond>, f: string) returns (a: Answers)
    requires f in conds && conds[f].op == "IS" && !conds[f].value.List? && conds[f].value != Text("NULL") && conds[f].value != Text("NOT NULL")
    ensures !EqualsAll(a, conds) && MeetsAll(a, conds, [])
  {
    var v := conds[f].value;
    a := Answers((g: string, o: string, x: Value) => !(g == f && o == "=" && x == v), (g: string, x: Value) => true,
                 (g: string) => g in conds && conds[g].value == Text("NULL"));
    assert !a.compare(f, "=", conds[f].value);
  }

  /** The statement does what was asked: it runs, and touches exactly the rows asked for,
      whatever the database answers. */
  ghost predicate DoesAsAsked(st: Statement, args: seq<Value>, conds: map<string, Cond>, extras: seq<Extra>) {
    Runs(st, args) && forall a :: SaysAll(a, args, st.wheres) <==> MeetsAll(a, conds, extras)
  }

  /** An UPDATE does so if and only if a field and a condition were set, nothing was appended or
      saved besides, and every condition is an equality with a single value. */
  lemma UpdateMeansConditionsIff(u: Statement, args: seq<Value>, values: map<string, Value>, conds: map<string, Cond>, extras: seq<Extra>, saved: bool)
    requires Builds(u, args, values, conds, extras != [] || saved)
    ensures DoesAsAsked(u, args, conds, extras) <==>
              && values != map[] && conds != map[] && extras == [] && !saved
              && forall f :: f in conds ==> PlainEquality(conds[f])
  {
    SetsSomethingIff(u, args, values, conds, extras != [] || saved);
    EqualitiesMeanIff(u.wheres, args, conds);
  }

  /** A DELETE does so if and only if a condition was set and nothing else, and every condition
      is an equality with a single value. */
  lemma DeleteMeansConditionsIff(d: Statement, args: seq<Value>, values: map<string, Value>, conds: map<string, Cond>, extras: seq<Extra>, saved: bool)
    requires BuildsDelete(d, args, conds, extras != [] || saved || values != map[])
    ensures DoesAsAsked(d, args, conds, extras) <==>
              && values == map[] && conds != map[] && extras == [] && !saved
              && forall f :: f in conds ==> PlainEquality(conds[f])
  {
    EqualitiesMeanIff(d.wheres, args, conds);
  }

  lemma EqualitiesMeanIff(w: seq<Clause>, args: seq<Value>, conds: map<string, Cond>)
    requires EqualsOf(w, args, conds)
    ensures w != [] <==> conds != map[]
    ensures (forall a :: SaysAll(a, args, w) <==> MeetsAll(a, conds, [])) <==> forall f :: f in conds ==> PlainEquality(conds[f])
  {
    EqualitiesSay(AllBut("", "", Nil, true), w, args, conds);
    if f :| f in conds && !PlainEquality(conds[f]) {
      var a := ConditionDiffers(conds, f);
      EqualitiesSay(a, w, args, conds);
    } else {
      forall a ensures SaysAll(a, args, w) <==> MeetsAll(a, conds, []) {
        EqualitiesSay(a, w, args, conds);
        PlainMeets(a, conds);
      }
    }
  }

  lemma PlainMeets(a: Answers, conds: map<string, Cond>)
    requires forall f :: f in conds ==> PlainEquality(conds[f])
    ensures EqualsAll(a, conds) <==> MeetsAll(a, conds, [])
  {
    assert forall f :: f in conds ==> (Meets(a, f, conds[f]) <==> a.compare(f, "=", conds[f].value));
  }

  lemma SetsSomethingIff(u: Statement, args: seq<Value>, values: map<string, Value>, conds: map<string, Cond>, spare: bool)
    requires Builds(u, args, values, conds, spare)
    ensures u.sets != [] <==> values != map[]
  {
    if u.sets != [] {
      assert u.sets[0] in u.sets && u.sets[0].field in values;
    }
    if f :| f in values {
      assert SetsField(u.sets, f);
    }
  }

  /** A builder that was asked for ages above 17 gives an UPDATE of the rows aged exactly 17. */
  lemma UpdateIgnoresOperator(u: Statement, args: seq<Value>, values: map<string, Value>)
    requires Builds(u, args, values, map["age" := Cond(">", Other(17))], false) && values != map[]
    ensures Runs(u, args)
    ensures forall a :: SaysAll(a, args, u.wheres) <==> a.compare("age", "=", Other(17))
    ensures exists a :: SaysAll(a, args, u.wheres) && !MeetsAll(a, map["age" := Cond(">", Other(17))], [])
  {
    var conds := map["age" := Cond(">", Other(17))];
    SetsSomethingIff(u, args, values, conds, false);
    forall a ensures SaysAll(a, args, u.wheres) <==> a.compare("age", "=", Other(17)) {
      EqualitiesSay(a, u.wheres, args, conds);
      assert conds["age"].value == Other(17);
    }
    var a := AllBut("age", ">", Other(17), true);
    EqualitiesSay(a, u.wheres, args, conds);
    assert SaysAll(a, args, u.wheres) && !Meets(a, "age", conds["age"]);
  }

  /** An UPDATE without a condition, or that sets no field, says nothing behind WHERE or SET and
      does not run: it touches no row, where no condition asks for every row. */
  lemma EmptyPartRunsNothing(u: Statement, args: seq<Value>, values: map<string, Value>, conds: map<string, Cond>, spare: bool)
    requires Builds(u, args, values, conds, spare) && (values == map[] || conds == map[])
    ensures !Runs(u, args)
  {
    EqualitiesMeanIff(u.wheres, args, conds);
    SetsSomethingIff(u, args, values, conds, spare);
  }
}
