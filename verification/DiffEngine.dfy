/** Comparing two tables row by row (tools/structs.go).

    Both sides are sorted in place by the comparator field, then walked together. Values are
    compared through their normalised text, which is left arbitrary here: the results hold for
    any normalisation and any text form of a comparator. Text is ordered as Go orders strings. */
module DiffEngine {
  import opened Wrappers

  /** A stored value, or a Go nil. */
  datatype Value<+T> = Nil | Val(v: T)

  type Row<+T> = map<string, Value<T>>

  /** How values become text: norm for comparing, show for naming a row. */
  datatype Format<!T> = Format(norm: T -> string, show: T -> string)

  datatype ItemDiff<+T> = ItemDiff(comparator: string, supplied: Row<T>, stored: Row<T>)

  datatype Diff<+T> = Diff(missingFromStored: seq<Row<T>>, missingFromSupplied: seq<Row<T>>, diffs: seq<ItemDiff<T>>)

  // ---- Order ----

  predicate Less(a: string, b: string) {
    b != "" && (a == "" || a[0] < b[0] || (a[0] == b[0] && Less(a[1..], b[1..])))
  }

  lemma {:induction false} LessTrichotomy(a: string, b: string)
    ensures (Less(a, b) && a != b && !Less(b, a)) || (a == b && !Less(a, b)) || (Less(b, a) && a != b && !Less(a, b))
  {
    if a != "" && b != "" {
      LessTrichotomy(a[1..], b[1..]);
      assert a == [a[0]] + a[1..] && b == [b[0]] + b[1..];
    }
  }

  lemma {:induction false} LessTransitive(a: string, b: string, c: string)
    requires Less(a, b) && Less(b, c)
    ensures Less(a, c)
  {
    if a != "" && a[0] == b[0] && b[0] == c[0] {
      LessTransitive(a[1..], b[1..], c[1..]);
    }
  }

  /** Text in dictionary order: at the first difference, or a text before what continues it. */
  lemma {:induction false} LessIff(a: string, b: string)
    ensures Less(a, b) <==> exists i: nat :: LessAt(a, b, i)
  {
    if b == "" {
    } else if a == "" || a[0] < b[0] {
      assert LessAt(a, b, 0);
    } else if a[0] == b[0] {
      LessIff(a[1..], b[1..]);
      LessAtRest(a, b);
    } else {
      forall i: nat ensures !LessAt(a, b, i) {
        LessAtFirst(a, b, i);
      }
    }
  }

  lemma LessAtFirst(a: string, b: string, i: nat)
    ensures LessAt(a, b, i) && i > 0 ==> a != "" && b != "" && a[0] == b[0]
  {
    if i <= |a| && i < |b| && a[..i] == b[..i] && i > 0 {
      assert a[..i][0] == b[..i][0];
    }
  }

  lemma LessAtRest(a: string, b: string)
    requires a != "" && b != "" && a[0] == b[0]
    ensures (exists i: nat :: LessAt(a, b, i)) <==> exists i: nat :: LessAt(a[1..], b[1..], i)
  {
    if i: nat :| LessAt(a[1..], b[1..], i) {
      assert a[..i + 1] == [a[0]] + a[1..][..i] && b[..i + 1] == [b[0]] + b[1..][..i];
      assert LessAt(a, b, i + 1);
    }
    if i: nat :| LessAt(a, b, i) {
      assert i > 0;
      assert a[1..][..i - 1] == a[..i][1..] && b[1..][..i - 1] == b[..i][1..];
      assert LessAt(a[1..], b[1..], i - 1);
    }
  }

  predicate LessAt(a: string, b: string, i: nat) {
    i <= |a| && i < |b| && a[..i] == b[..i] && (i == |a| || a[i] < b[i])
  }

  /** The text a field is compared by. A missing field and a nil are both empty. */
  function Norm<T>(f: Format<T>, row: Row<T>, key: string): string {
    if key in row && row[key].Val? then f.norm(row[key].v) else ""
  }

  function Show<T>(f: Format<T>, v: Value<T>): string {
    if v.Nil? then "<nil>" else f.show(v.v)
  }

  /** Comparing takes a missing field, a nil and an empty text as one. */
  lemma MissingIsEmpty<T>(f: Format<T>, row: Row<T>, key: string)
    requires key !in row
    ensures Norm(f, row, key) == Norm(f, row[key := Nil], key) == ""
    ensures forall v: T :: Norm(f, row[key := Val(v)], key) == f.norm(v)
  {
  }

  /** Reading a Go map: a missing field reads as nil. */
  function Get<T>(row: Row<T>, key: string): Value<T> {
    if key in row then row[key] else Nil
  }

  /** The sort's comparison: by the key's text, rows without the key last. */
  predicate Before<T>(f: Format<T>, key: string, x: Row<T>, y: Row<T>) {
    key in x && (key !in y || Less(Norm(f, x, key), Norm(f, y, key)))
  }

  ghost predicate Sorted<T>(f: Format<T>, key: string, rows: seq<Row<T>>) {
    forall i, j :: 0 <= i < j < |rows| ==> !Before(f, key, rows[j], rows[i])
  }

  lemma BeforeTransitive<T>(f: Format<T>, key: string, x: Row<T>, y: Row<T>, z: Row<T>)
    requires !Before(f, key, y, x) && !Before(f, key, z, y)
    ensures !Before(f, key, z, x)
  {
    var a, b, c := Norm(f, x, key), Norm(f, y, key), Norm(f, z, key);
    if key in x && key in y && key in z {
      LessTrichotomy(a, b);
      LessTrichotomy(b, c);
      LessTrichotomy(a, c);
      if Less(a, b) && Less(b, c) { LessTransitive(a, b, c); }
    }
  }

  /** Sorts in place: the same rows, in order. */
  method SortMapSlice<T>(f: Format<T>, a: array<Row<T>>, key: string)
    modifies a
    ensures Sorted(f, key, a[..])
    ensures multiset(a[..]) == multiset(old(a[..]))
  {
    var n := 0;
    while n < a.Length
      invariant 0 <= n <= a.Length
      invariant Sorted(f, key, a[..n])
      invariant multiset(a[..]) == multiset(old(a[..]))
    {
      Sink(f, a, key, n);
      n := n + 1;
    }
    assert a[..n] == a[..];
  }

  /** The rows up to n are in order but for row j, which may have to go before. */
  ghost predicate SortedBut<T>(f: Format<T>, key: string, rows: seq<Row<T>>, n: nat, j: nat)
    requires j <= n < |rows|
  {
    forall p, q :: 0 <= p < q <= n && q != j ==> !Before(f, key, rows[q], rows[p])
  }

  lemma SwapDown<T>(f: Format<T>, key: string, rows: seq<Row<T>>, n: nat, j: nat)
    requires 0 < j <= n < |rows| && SortedBut(f, key, rows, n, j) && Before(f, key, rows[j], rows[j - 1])
    ensures var swapped := rows[j := rows[j - 1]][j - 1 := rows[j]];
            SortedBut(f, key, swapped, n, j - 1) && multiset(swapped) == multiset(rows)
  {
    LessTrichotomy(Norm(f, rows[j], key), Norm(f, rows[j - 1], key));
  }

  lemma InPlace<T>(f: Format<T>, key: string, rows: seq<Row<T>>, n: nat, j: nat)
    requires j <= n < |rows| && SortedBut(f, key, rows, n, j) && (j > 0 ==> !Before(f, key, rows[j], rows[j - 1]))
    ensures Sorted(f, key, rows[..n + 1])
  {
    forall p | 0 <= p < j ensures !Before(f, key, rows[j], rows[p]) {
      if p < j - 1 { BeforeTransitive(f, key, rows[p], rows[j - 1], rows[j]); }
    }
  }

  /** Moves row n down into the sorted rows before it. */
  method Sink<T>(f: Format<T>, a: array<Row<T>>, key: string, n: nat)
    requires n < a.Length && Sorted(f, key, a[..n])
    modifies a
    ensures Sorted(f, key, a[..n + 1])
    ensures multiset(a[..]) == multiset(old(a[..]))
  {
    var j := n;
    assert SortedBut(f, key, a[..], n, j) by {
      assert forall p :: 0 <= p < n ==> a[p] == a[..n][p];
    }
    while j > 0 && Before(f, key, a[j], a[j - 1])
      invariant 0 <= j <= n
      invariant SortedBut(f, key, a[..], n, j)
      invariant multiset(a[..]) == multiset(old(a[..]))
    {
      ghost var before := a[..];
      SwapDown(f, key, before, n, j);
      a[j], a[j - 1] := a[j - 1], a[j];
      assert a[..] == before[j := before[j - 1]][j - 1 := before[j]];
      j := j - 1;
    }
    InPlace(f, key, a[..], n, j);
    assert a[..n + 1] == a[..][..n + 1];
  }

  /** Sorted rows come by their key's text, and those without the key last. */
  lemma SortedIs<T>(f: Format<T>, key: string, rows: seq<Row<T>>, i: nat, j: nat)
    requires Sorted(f, key, rows) && i < j < |rows|
    ensures key in rows[j] ==> key in rows[i] && (Norm(f, rows[i], key) == Norm(f, rows[j], key) || Less(Norm(f, rows[i], key), Norm(f, rows[j], key)))
  {
    assert !Before(f, key, rows[j], rows[i]);
    LessTrichotomy(Norm(f, rows[i], key), Norm(f, rows[j], key));
  }

  // ---- Comparing two rows ----

  /** The fields two rows disagree on, among those compared. */
  function Differing<T>(f: Format<T>, supplied: Row<T>, stored: Row<T>, key: string, exclude: set<string>): set<string> {
    set k | k in supplied.Keys + stored.Keys && k != key && k !in exclude && Norm(f, supplied, k) != Norm(f, stored, k)
  }

  /** One side of the chosen fields. */
  ghost function Picked<T>(row: Row<T>, fields: set<string>): (r: Row<T>)
    ensures ArePicked(r, row, fields)
  {
    var all := Tabulate(fields, (k: string) => Get(row, k));
    assert ArePicked(all, row, fields);
    var r :| ArePicked(r, row, fields);
    r
  }

  ghost predicate ArePicked<T>(r: Row<T>, row: Row<T>, fields: set<string>) {
    r.Keys == fields && forall k {:trigger r[k]} :: k in fields ==> r[k] == Get(row, k)
  }

  lemma PickedMore<T>(row: Row<T>, fields: set<string>, seen: set<string>, k: string, key: string)
    ensures Picked(row, fields * (seen + {k}) + {key})
            == if k in fields then Picked(row, fields * seen + {key})[k := Get(row, k)] else Picked(row, fields * seen + {key})
    ensures fields * (seen + {k}) == if k in fields then fields * seen + {k} else fields * seen
  {
  }

  /** What comparing two rows reports: nothing unless both carry the same comparator, with a
      text form, and a compared field differs; otherwise both sides of every such field. */
  ghost function RowDiff<T>(f: Format<T>, supplied: Row<T>, stored: Row<T>, key: string, exclude: set<string>): Option<ItemDiff<T>> {
    var fields := Differing(f, supplied, stored, key, exclude);
    if key !in supplied || key !in stored || supplied[key] != stored[key] || Show(f, supplied[key]) == "" || fields == {} then None
    else Some(ItemDiff(Show(f, supplied[key]),
                       Picked(supplied, fields + {key}),
                       Picked(stored, fields + {key})))
  }

  /** Two rows have the same text in every field but the comparator and the excluded ones. */
  ghost predicate Agree<T>(f: Format<T>, x: Row<T>, y: Row<T>, key: string, exclude: set<string>) {
    forall k :: k != key && k !in exclude ==> Norm(f, x, k) == Norm(f, y, k)
  }

  /** Both rows carry one comparator, with a text form. */
  predicate Comparable<T(==)>(f: Format<T>, x: Row<T>, y: Row<T>, key: string) {
    key in x && key in y && x[key] == y[key] && Show(f, x[key]) != ""
  }

  /** A comparator that is nil on both sides has a text form, so the rows are compared; one with an
      empty text, or missing on a side, leaves them uncompared. */
  lemma ComparableIff<T>(f: Format<T>, x: Row<T>, y: Row<T>, key: string)
    ensures Comparable(f, x, y, key) <==> key in x && key in y && x[key] == y[key] && (x[key].Val? ==> f.show(x[key].v) != "")
  {
  }

  lemma AgreeIff<T>(f: Format<T>, x: Row<T>, y: Row<T>, key: string, exclude: set<string>)
    ensures Agree(f, x, y, key, exclude) <==> Differing(f, x, y, key, exclude) == {}
  {
    if Differing(f, x, y, key, exclude) == {} {
      forall k | k != key && k !in exclude ensures Norm(f, x, k) == Norm(f, y, k) {
        if k in x.Keys + y.Keys { assert k !in Differing(f, x, y, key, exclude); }
      }
    }
  }

  /** Of two comparable rows a comparison reports nothing exactly when they agree. What it reports
      is both rows' values of the comparator and of just the fields whose texts differ, whether
      or not both rows have the field. Rows that are not comparable give no report. */
  lemma RowDiffIs<T>(f: Format<T>, supplied: Row<T>, stored: Row<T>, key: string, exclude: set<string>)
    ensures Tells(f, supplied, stored, key, exclude, RowDiff(f, supplied, stored, key, exclude))
  {
    AgreeIff(f, supplied, stored, key, exclude);
  }

  ghost predicate Tells<T>(f: Format<T>, supplied: Row<T>, stored: Row<T>, key: string, exclude: set<string>, d: Option<ItemDiff<T>>) {
    && (d.None? <==> !Comparable(f, supplied, stored, key) || Agree(f, supplied, stored, key, exclude))
    && (d.Some? ==>
          && d.value.comparator == Show(f, supplied[key]) && d.value.supplied.Keys == d.value.stored.Keys
          && (forall k :: k in d.value.supplied <==> k == key || (k !in exclude && Norm(f, supplied, k) != Norm(f, stored, k)))
          && (forall k :: k in d.value.supplied ==> d.value.supplied[k] == Get(supplied, k) && d.value.stored[k] == Get(stored, k)))
  }

  method DiffMap<T(==)>(f: Format<T>, supplied: Row<T>, stored: Row<T>, key: string, exclude: set<string>)
    returns (d: Option<ItemDiff<T>>)
    ensures d == RowDiff(f, supplied, stored, key, exclude) && Tells(f, supplied, stored, key, exclude, d)
  {
    RowDiffIs(f, supplied, stored, key, exclude);
    if key !in supplied || key !in stored || supplied[key] != stored[key] {
      return None;
    }
    var comp := Show(f, supplied[key]);
    if comp == "" {
      return None;
    }
    var suppliedDiff, storedDiff := map[key := supplied[key]], map[key := stored[key]];
    var hasDiffs := false;
    var allKeys := supplied.Keys + stored.Keys;
    ghost var fields, seen: set<string> := Differing(f, supplied, stored, key, exclude), {};
    while allKeys != {}
      invariant seen + allKeys == supplied.Keys + stored.Keys
      invariant suppliedDiff == Picked(supplied, fields * seen + {key})
      invariant storedDiff == Picked(stored, fields * seen + {key})
      invariant hasDiffs <==> fields * seen != {}
      decreases allKeys
    {
      var k :| k in allKeys;
      allKeys := allKeys - {k};
      PickedMore(supplied, fields, seen, k, key);
      PickedMore(stored, fields, seen, k, key);
      seen := seen + {k};
      assert k in supplied || k in stored;
      if k == key || k in exclude || Norm(f, supplied, k) == Norm(f, stored, k) {
        assert k !in fields;
        continue;
      }
      assert k in fields;
      suppliedDiff := suppliedDiff[k := Get(supplied, k)];
      storedDiff := storedDiff[k := Get(stored, k)];
      hasDiffs := true;
    }
    assert fields * seen == fields;
    if hasDiffs {
      d := Some(ItemDiff(comp, suppliedDiff, storedDiff));
    } else {
      d := None;
    }
  }

  // ---- The merge walk ----

  datatype Walk<+T> = Walk(leftOnly: seq<Row<T>>, rightOnly: seq<Row<T>>, matched: seq<(Row<T>, Row<T>)>)

  /** Walks two sorted sides together, deciding each row's fate by the rows at the two fronts. */
  function Merge<T>(f: Format<T>, key: string, l: seq<Row<T>>, r: seq<Row<T>>): Walk<T>
    decreases |l| + |r|
  {
    if l == [] || r == [] then Walk(l, r, [])
    else if key !in l[0] then TakeLeft(l[0], Merge(f, key, l[1..], r))
    else if key !in r[0] then TakeRight(r[0], Merge(f, key, l, r[1..]))
    else if Norm(f, l[0], key) == Norm(f, r[0], key) then TakeBoth(l[0], r[0], Merge(f, key, l[1..], r[1..]))
    else if Less(Norm(f, l[0], key), Norm(f, r[0], key)) then TakeLeft(l[0], Merge(f, key, l[1..], r))
    else TakeRight(r[0], Merge(f, key, l, r[1..]))
  }

  function TakeLeft<T>(x: Row<T>, w: Walk<T>): Walk<T> {
    w.(leftOnly := [x] + w.leftOnly)
  }

  function TakeRight<T>(y: Row<T>, w: Walk<T>): Walk<T> {
    w.(rightOnly := [y] + w.rightOnly)
  }

  function TakeBoth<T>(x: Row<T>, y: Row<T>, w: Walk<T>): Walk<T> {
    w.(matched := [(x, y)] + w.matched)
  }

  ghost function Compare<T>(f: Format<T>, matched: seq<(Row<T>, Row<T>)>, key: string, exclude: set<string>): seq<ItemDiff<T>> {
    if matched == [] then []
    else
      var d := RowDiff(f, matched[0].0, matched[0].1, key, exclude);
      (if d.Some? then [d.value] else []) + Compare(f, matched[1..], key, exclude)
  }

  /** The diff of two sides already in the order l and r. */
  ghost function DiffOf<T>(f: Format<T>, l: seq<Row<T>>, r: seq<Row<T>>, key: string, exclude: set<string>): Diff<T> {
    var w := Merge(f, key, l, r);
    Diff(w.leftOnly, w.rightOnly, Compare(f, w.matched, key, exclude))
  }

  function Join<T>(a: Diff<T>, b: Diff<T>): Diff<T> {
    Diff(a.missingFromStored + b.missingFromStored, a.missingFromSupplied + b.missingFromSupplied, a.diffs + b.diffs)
  }

  /** Sorts both sides in place, then walks them. There is no diff when a side is empty. Rows
      with equal keys may be left in any order, so the result is stated of the order left. */
  method DiffMapSlices<T(==)>(f: Format<T>, left: array<Row<T>>, right: array<Row<T>>, key: string, exclude: set<string>)
    returns (d: Option<Diff<T>>)
    modifies left, right
    ensures left.Length == 0 || right.Length == 0 ==> d.None? && left[..] == old(left[..]) && right[..] == old(right[..])
    ensures left.Length > 0 && right.Length > 0 ==>
      && Sorted(f, key, left[..]) && Sorted(f, key, right[..])
      && d == Some(DiffOf(f, left[..], right[..], key, exclude))
    ensures multiset(left[..]) == multiset(old(left[..])) && multiset(right[..]) == multiset(old(right[..]))
  {
    if left.Length < 1 || right.Length < 1 {
      return None;
    }
    SortMapSlice(f, left, key);
    SortMapSlice(f, right, key);
    var result := MergeWalk(f, left, right, key, exclude);
    d := Some(result);
  }

  /** The walk over two sorted slices, collecting unmatched rows and the diffs of matched ones. */
  method MergeWalk<T(==)>(f: Format<T>, left: array<Row<T>>, right: array<Row<T>>, key: string, exclude: set<string>)
    returns (d: Diff<T>)
    ensures d == DiffOf(f, left[..], right[..], key, exclude)
  {
    d := Diff([], [], []);
    var i, j := 0, 0;
    ghost var l, r := left[..], right[..];
    ghost var whole := WalkFrom(f, l, r, 0, 0, key, exclude, d);
    assert whole == DiffOf(f, l, r, key, exclude) by {
      WalkFromIs(f, l, r, 0, 0, key, exclude, d);
      assert l[0..] == l && r[0..] == r;
    }
    while i < left.Length && j < right.Length
      invariant 0 <= i <= left.Length && 0 <= j <= right.Length
      invariant WalkFrom(f, l, r, i, j, key, exclude, d) == whole
      decreases left.Length - i + right.Length - j
    {
      if key !in left[i] {
        d := d.(missingFromStored := d.missingFromStored + [left[i]]);
        i := i + 1;
        continue;
      }
      if key !in right[j] {
        d := d.(missingFromSupplied := d.missingFromSupplied + [right[j]]);
        j := j + 1;
        continue;
      }
      var lStr, rStr := Norm(f, left[i], key), Norm(f, right[j], key);
      if lStr == rStr {
        var item := DiffMap(f, left[i], right[j], key, exclude);
        d := d.(diffs := d.diffs + if item.Some? then [item.value] else []);
        i, j := i + 1, j + 1;
      } else if Less(lStr, rStr) {
        d := d.(missingFromStored := d.missingFromStored + [left[i]]);
        i := i + 1;
      } else {
        d := d.(missingFromSupplied := d.missingFromSupplied + [right[j]]);
        j := j + 1;
      }
    }
    d := Diff(d.missingFromStored + left[i..], d.missingFromSupplied + right[j..], d.diffs);
  }

  /** One turn of the loop: the lists so far afterwards, and how many rows it took off each
      front. */
  ghost function Turn<T>(f: Format<T>, x: Row<T>, y: Row<T>, key: string, exclude: set<string>, acc: Diff<T>): (Diff<T>, nat, nat) {
    var addLeft := (acc.(missingFromStored := acc.missingFromStored + [x]), 1, 0);
    var addRight := (acc.(missingFromSupplied := acc.missingFromSupplied + [y]), 0, 1);
    if key !in x then addLeft
    else if key !in y then addRight
    else if Norm(f, x, key) == Norm(f, y, key) then
      var item := RowDiff(f, x, y, key, exclude);
      (acc.(diffs := acc.diffs + if item.Some? then [item.value] else []), 1, 1)
    else if Less(Norm(f, x, key), Norm(f, y, key)) then addLeft
    else addRight
  }

  /** A turn moves what the walk takes off the fronts onto the lists so far. */
  lemma WalkStep<T>(f: Format<T>, l: seq<Row<T>>, r: seq<Row<T>>, key: string, exclude: set<string>, acc: Diff<T>)
    requires l != [] && r != []
    ensures var t := Turn(f, l[0], r[0], key, exclude, acc);
            Join(acc, DiffOf(f, l, r, key, exclude)) == Join(t.0, DiffOf(f, l[t.1..], r[t.2..], key, exclude))
  {
    var x, y := l[0], r[0];
    assert l[0..] == l && r[0..] == r;
    if key in x && key in y && Norm(f, x, key) == Norm(f, y, key) {
      WalkBoth(f, l, r, key, exclude);
    }
  }

  lemma WalkBoth<T>(f: Format<T>, l: seq<Row<T>>, r: seq<Row<T>>, key: string, exclude: set<string>)
    requires l != [] && r != [] && key in l[0] && key in r[0] && Norm(f, l[0], key) == Norm(f, r[0], key)
    ensures var d := RowDiff(f, l[0], r[0], key, exclude);
            DiffOf(f, l, r, key, exclude)
            == Join(Diff([], [], if d.Some? then [d.value] else []), DiffOf(f, l[1..], r[1..], key, exclude))
  {
    var w := Merge(f, key, l[1..], r[1..]);
    assert ([(l[0], r[0])] + w.matched)[1..] == w.matched;
  }

  /** The loop's end, from any point of it. */
  ghost function WalkFrom<T>(f: Format<T>, l: seq<Row<T>>, r: seq<Row<T>>, i: nat, j: nat, key: string, exclude: set<string>,
                           acc: Diff<T>): Diff<T>
    requires i <= |l| && j <= |r|
    decreases |l| - i + |r| - j
  {
    if i == |l| || j == |r| then Diff(acc.missingFromStored + l[i..], acc.missingFromSupplied + r[j..], acc.diffs)
    else
      var t := Turn(f, l[i], r[j], key, exclude, acc);
      WalkFrom(f, l, r, i + t.1, j + t.2, key, exclude, t.0)
  }

  lemma {:induction false} WalkFromIs<T>(f: Format<T>, l: seq<Row<T>>, r: seq<Row<T>>, i: nat, j: nat, key: string,
                                         exclude: set<string>, acc: Diff<T>)
    requires i <= |l| && j <= |r|
    ensures WalkFrom(f, l, r, i, j, key, exclude, acc) == Join(acc, DiffOf(f, l[i..], r[j..], key, exclude))
    decreases |l| - i + |r| - j
  {
    if i < |l| && j < |r| {
      var t := Turn(f, l[i], r[j], key, exclude, acc);
      WalkFromIs(f, l, r, i + t.1, j + t.2, key, exclude, t.0);
      assert l[i..][0] == l[i] && r[j..][0] == r[j];
      WalkStep(f, l[i..], r[j..], key, exclude, acc);
      assert l[i..][t.1..] == l[i + t.1..] && r[j..][t.2..] == r[j + t.2..];
    }
  }

  // ---- The walk is a multiset difference ----

  /** The comparator texts of the rows that have a comparator, with repeats. */
  function KeyBag<T>(f: Format<T>, key: string, rows: seq<Row<T>>): multiset<string> {
    if rows == [] then multiset{}
    else (if key in rows[0] then multiset{Norm(f, rows[0], key)} else multiset{}) + KeyBag(f, key, rows[1..])
  }

  lemma {:induction false} KeyBagAppend<T>(f: Format<T>, key: string, a: seq<Row<T>>, b: seq<Row<T>>)
    ensures KeyBag(f, key, a + b) == KeyBag(f, key, a) + KeyBag(f, key, b)
  {
    if a == [] {
      assert a + b == b;
    } else {
      assert (a + b)[1..] == a[1..] + b;
      KeyBagAppend(f, key, a[1..], b);
    }
  }

  lemma SameRest<X>(a: seq<X>, b: seq<X>, i: nat)
    requires a != [] && i < |b| && a[0] == b[i] && multiset(a) == multiset(b)
    ensures multiset(a[1..]) == multiset(b[..i] + b[i + 1..])
  {
    WithoutOne(b, i);
    WithoutOne(a, 0);
    assert a[..0] + a[1..] == a[1..];
  }

  lemma WithoutOne<X>(a: seq<X>, i: nat)
    requires i < |a|
    ensures multiset(a[..i] + a[i + 1..]) == multiset(a) - multiset{a[i]}
  {
    assert a == a[..i] + ([a[i]] + a[i + 1..]);
  }

  lemma KeyBagRemoveAt<T>(f: Format<T>, key: string, b: seq<Row<T>>, i: nat)
    requires i < |b|
    ensures KeyBag(f, key, b) == KeyBag(f, key, [b[i]]) + KeyBag(f, key, b[..i] + b[i + 1..])
  {
    assert b == b[..i] + ([b[i]] + b[i + 1..]);
    KeyBagAppend(f, key, b[..i], [b[i]] + b[i + 1..]);
    KeyBagAppend(f, key, [b[i]], b[i + 1..]);
    KeyBagAppend(f, key, b[..i], b[i + 1..]);
  }

  /** The order of the rows does not matter to it. */
  lemma {:induction false} KeyBagPermuted<T>(f: Format<T>, key: string, a: seq<Row<T>>, b: seq<Row<T>>)
    requires multiset(a) == multiset(b)
    ensures KeyBag(f, key, a) == KeyBag(f, key, b)
    decreases |a|
  {
    if a == [] {
      assert |multiset(b)| == 0;
    } else {
      assert a[0] in multiset(b);
      var i :| 0 <= i < |b| && b[i] == a[0];
      SameRest(a, b, i);
      KeyBagPermuted(f, key, a[1..], b[..i] + b[i + 1..]);
      assert a == [b[i]] + a[1..];
      KeyBagAppend(f, key, [b[i]], a[1..]);
      KeyBagRemoveAt(f, key, b, i);
    }
  }

  lemma {:induction false} KeyBagHas<T>(f: Format<T>, key: string, rows: seq<Row<T>>, s: string)
    ensures s in KeyBag(f, key, rows) <==> exists i :: 0 <= i < |rows| && key in rows[i] && Norm(f, rows[i], key) == s
  {
    if rows != [] {
      KeyBagHas(f, key, rows[1..], s);
      if i :| 0 <= i < |rows| && key in rows[i] && Norm(f, rows[i], key) == s {
        if i > 0 { assert rows[1..][i - 1] == rows[i]; }
      }
    }
  }

  /** A sorted side's keys are never below its first; if its first has none, none has. */
  lemma SortedFront<T>(f: Format<T>, key: string, rows: seq<Row<T>>, s: string)
    requires rows != [] && Sorted(f, key, rows)
    ensures key !in rows[0] ==> KeyBag(f, key, rows) == multiset{}
    ensures key in rows[0] && Less(s, Norm(f, rows[0], key)) ==> s !in KeyBag(f, key, rows)
  {
    forall i | 0 <= i < |rows| ensures key !in rows[0] ==> key !in rows[i] {
      assert i > 0 ==> !Before(f, key, rows[i], rows[0]);
    }
    if key !in rows[0] && KeyBag(f, key, rows) != multiset{} {
      var k :| k in KeyBag(f, key, rows);
      KeyBagHas(f, key, rows, k);
    }
    if key in rows[0] && Less(s, Norm(f, rows[0], key)) {
      forall i | 0 <= i < |rows| && key in rows[i] ensures Norm(f, rows[i], key) != s {
        var n0, n := Norm(f, rows[0], key), Norm(f, rows[i], key);
        assert i > 0 ==> !Before(f, key, rows[i], rows[0]);
        LessTrichotomy(n, n0);
        LessTrichotomy(s, n);
        if Less(n0, n) { LessTransitive(s, n0, n); }
      }
      KeyBagHas(f, key, rows, s);
    }
  }

  lemma KeyBagCons<T>(f: Format<T>, key: string, x: Row<T>, rows: seq<Row<T>>)
    ensures KeyBag(f, key, [x] + rows) == (if key in x then multiset{Norm(f, x, key)} else multiset{}) + KeyBag(f, key, rows)
  {
    assert ([x] + rows)[1..] == rows;
  }

  lemma BagTake(x: string, a: multiset<string>, b: multiset<string>)
    requires x !in b
    ensures multiset{x} + a - b == multiset{x} + (a - b)
    ensures b - (multiset{x} + a) == b - a
  {
  }

  /** The unmatched keys are the two multiset differences, repeats included. */
  lemma {:induction false} UnmatchedAreDifferences<T>(f: Format<T>, key: string, l: seq<Row<T>>, r: seq<Row<T>>)
    requires Sorted(f, key, l) && Sorted(f, key, r)
    ensures var w := Merge(f, key, l, r);
            && KeyBag(f, key, w.leftOnly) == KeyBag(f, key, l) - KeyBag(f, key, r)
            && KeyBag(f, key, w.rightOnly) == KeyBag(f, key, r) - KeyBag(f, key, l)
    decreases |l| + |r|
  {
    if l != [] && r != [] {
      var x, y := Norm(f, l[0], key), Norm(f, r[0], key);
      SortedFront(f, key, l, y);
      SortedFront(f, key, r, x);
      LessTrichotomy(x, y);
      if key !in l[0] || (key in r[0] && Less(x, y)) {
        UnmatchedAreDifferences(f, key, l[1..], r);
        KeyBagCons(f, key, l[0], Merge(f, key, l[1..], r).leftOnly);
        if key in l[0] { BagTake(x, KeyBag(f, key, l[1..]), KeyBag(f, key, r)); }
      } else if key !in r[0] || Less(y, x) {
        UnmatchedAreDifferences(f, key, l, r[1..]);
        KeyBagCons(f, key, r[0], Merge(f, key, l, r[1..]).rightOnly);
        if key in r[0] { BagTake(y, KeyBag(f, key, r[1..]), KeyBag(f, key, l)); }
      } else {
        UnmatchedAreDifferences(f, key, l[1..], r[1..]);
      }
    }
  }

  function Lefts<T>(pairs: seq<(Row<T>, Row<T>)>): seq<Row<T>> {
    if pairs == [] then [] else [pairs[0].0] + Lefts(pairs[1..])
  }

  function Rights<T>(pairs: seq<(Row<T>, Row<T>)>): seq<Row<T>> {
    if pairs == [] then [] else [pairs[0].1] + Rights(pairs[1..])
  }

  lemma PairsCons<T>(p: (Row<T>, Row<T>), pairs: seq<(Row<T>, Row<T>)>)
    ensures Lefts([p] + pairs) == [p.0] + Lefts(pairs) && Rights([p] + pairs) == [p.1] + Rights(pairs)
  {
    assert ([p] + pairs)[1..] == pairs;
  }

  lemma BagShift<X>(x: X, all: seq<X>, a: seq<X>, b: seq<X>)
    requires all != [] && all[0] == x && multiset(all[1..]) == multiset(a) + multiset(b)
    ensures multiset(all) == multiset([x] + a) + multiset(b) == multiset(a) + multiset([x] + b)
  {
    assert all == [x] + all[1..];
  }

  /** Every row of either side ends in exactly one of matched or unmatched. */
  lemma {:induction false} EveryRowOnce<T>(f: Format<T>, key: string, l: seq<Row<T>>, r: seq<Row<T>>)
    ensures var w := Merge(f, key, l, r);
            && multiset(l) == multiset(w.leftOnly) + multiset(Lefts(w.matched))
            && multiset(r) == multiset(w.rightOnly) + multiset(Rights(w.matched))
    decreases |l| + |r|
  {
    if l != [] && r != [] {
      var x, y := Norm(f, l[0], key), Norm(f, r[0], key);
      if key !in l[0] || (key in r[0] && x != y && Less(x, y)) {
        var w := Merge(f, key, l[1..], r);
        EveryRowOnce(f, key, l[1..], r);
        BagShift(l[0], l, w.leftOnly, Lefts(w.matched));
      } else if key !in r[0] || x != y {
        var w := Merge(f, key, l, r[1..]);
        EveryRowOnce(f, key, l, r[1..]);
        BagShift(r[0], r, w.rightOnly, Rights(w.matched));
      } else {
        var w := Merge(f, key, l[1..], r[1..]);
        EveryRowOnce(f, key, l[1..], r[1..]);
        PairsCons((l[0], r[0]), w.matched);
        BagShift(l[0], l, w.leftOnly, Lefts(w.matched));
        BagShift(r[0], r, w.rightOnly, Rights(w.matched));
      }
    }
  }

  /** A row is matched only with a row of the other side whose comparator has the same text. */
  lemma {:induction false} MatchedShareKey<T>(f: Format<T>, key: string, l: seq<Row<T>>, r: seq<Row<T>>, p: (Row<T>, Row<T>))
    requires p in Merge(f, key, l, r).matched
    ensures p.0 in l && p.1 in r && key in p.0 && key in p.1 && Norm(f, p.0, key) == Norm(f, p.1, key)
    decreases |l| + |r|
  {
    var x, y := Norm(f, l[0], key), Norm(f, r[0], key);
    if key !in l[0] || (key in r[0] && x != y && Less(x, y)) {
      MatchedShareKey(f, key, l[1..], r, p);
    } else if key !in r[0] || x != y {
      MatchedShareKey(f, key, l, r[1..], p);
    } else if p != (l[0], r[0]) {
      MatchedShareKey(f, key, l[1..], r[1..], p);
    }
  }

  lemma {:induction false} MatchedRowsHaveKeys<T>(f: Format<T>, key: string, pairs: seq<(Row<T>, Row<T>)>, row: Row<T>)
    requires key !in row && forall p :: p in pairs ==> key in p.0 && key in p.1
    ensures row !in Lefts(pairs) && row !in Rights(pairs)
  {
    if pairs != [] {
      MatchedRowsHaveKeys(f, key, pairs[1..], row);
    }
  }

  /** A row without a comparator stays unmatched, as often as it occurs. */
  lemma KeylessStayUnmatched<T>(f: Format<T>, key: string, l: seq<Row<T>>, r: seq<Row<T>>, row: Row<T>)
    requires key !in row
    ensures multiset(Merge(f, key, l, r).leftOnly)[row] == multiset(l)[row]
    ensures multiset(Merge(f, key, l, r).rightOnly)[row] == multiset(r)[row]
  {
    EveryRowOnce(f, key, l, r);
    forall p | p in Merge(f, key, l, r).matched ensures key in p.0 && key in p.1 {
      MatchedShareKey(f, key, l, r, p);
    }
    MatchedRowsHaveKeys(f, key, Merge(f, key, l, r).matched, row);
  }

  // ---- The diff as a patch ----

  ghost predicate Keyed<T>(key: string, rows: seq<Row<T>>) {
    forall row :: row in rows ==> key in row
  }

  ghost predicate Unique<T>(f: Format<T>, key: string, rows: seq<Row<T>>) {
    forall s :: KeyBag(f, key, rows)[s] <= 1
  }

  /** Whether a row of rows has this very comparator value. */
  predicate HasComparator<T(==)>(rows: seq<Row<T>>, key: string, v: Value<T>) {
    exists row :: row in rows && key in row && row[key] == v
  }

  /** The diff entry naming this comparator value. */
  function FindDiff<T(==)>(diffs: seq<ItemDiff<T>>, key: string, v: Value<T>): Option<ItemDiff<T>> {
    if diffs == [] then None
    else if key in diffs[0].supplied && diffs[0].supplied[key] == v then Some(diffs[0])
    else FindDiff(diffs[1..], key, v)
  }

  /** A stored row with its diff entry's supplied fields laid over it. */
  function Patched<T(==)>(row: Row<T>, diffs: seq<ItemDiff<T>>, key: string): Row<T> {
    var d := FindDiff(diffs, key, Get(row, key));
    if d.Some? then row + d.value.supplied else row
  }

  function Kept<T(==)>(stored: seq<Row<T>>, d: Diff<T>, key: string): seq<Row<T>> {
    if stored == [] then []
    else (if HasComparator(d.missingFromSupplied, key, Get(stored[0], key)) then [] else [Patched(stored[0], d.diffs, key)])
         + Kept(stored[1..], d, key)
  }

  /** Applying a diff to the stored rows: drop those missing from the supplied ones, overlay
      the changed ones, add the new ones. */
  function ApplyDiff<T(==)>(stored: seq<Row<T>>, d: Diff<T>, key: string): seq<Row<T>> {
    Kept(stored, d, key) + d.missingFromStored
  }

  lemma {:induction false} SameKeySameRow<T>(f: Format<T>, key: string, rows: seq<Row<T>>, x: Row<T>, y: Row<T>)
    requires Unique(f, key, rows) && x in rows && y in rows && key in x && key in y && Norm(f, x, key) == Norm(f, y, key)
    ensures x == y
  {
    var s := Norm(f, x, key);
    if rows[0] == x || rows[0] == y {
      var z := if rows[0] == x then y else x;
      KeyBagHas(f, key, rows[1..], s);
      assert z in rows[1..] ==> KeyBag(f, key, rows)[s] >= 2;
    } else {
      assert forall t :: KeyBag(f, key, rows[1..])[t] <= KeyBag(f, key, rows)[t];
      SameKeySameRow(f, key, rows[1..], x, y);
    }
  }

  lemma {:induction false} CompareFrom<T>(f: Format<T>, matched: seq<(Row<T>, Row<T>)>, key: string, exclude: set<string>, d: ItemDiff<T>)
    ensures d in Compare(f, matched, key, exclude)
            <==> exists p :: p in matched && RowDiff(f, p.0, p.1, key, exclude) == Some(d)
  {
    if matched != [] {
      CompareFrom(f, matched[1..], key, exclude, d);
    }
  }

  lemma {:induction false} FindDiffIs<T>(diffs: seq<ItemDiff<T>>, key: string, v: Value<T>)
    ensures var d := FindDiff(diffs, key, v);
            && (d.Some? ==> d.value in diffs && key in d.value.supplied && d.value.supplied[key] == v)
            && (d.None? ==> forall e :: e in diffs && key in e.supplied ==> e.supplied[key] != v)
  {
    if diffs != [] {
      FindDiffIs(diffs[1..], key, v);
    }
  }

  lemma {:induction false} LeftsFrom<T>(pairs: seq<(Row<T>, Row<T>)>, x: Row<T>)
    requires x in Lefts(pairs)
    ensures exists p :: p in pairs && p.0 == x
  {
    if pairs[0].0 != x {
      LeftsFrom(pairs[1..], x);
      var p :| p in pairs[1..] && p.0 == x;
      assert p in pairs;
    }
  }

  /** With unique keys, two rows with the same key are matched with each other. */
  lemma MatchedIfSameKey<T>(f: Format<T>, key: string, l: seq<Row<T>>, r: seq<Row<T>>, x: Row<T>, y: Row<T>)
    requires Sorted(f, key, l) && Sorted(f, key, r) && Unique(f, key, l) && Unique(f, key, r)
    requires x in l && y in r && key in x && key in y && Norm(f, x, key) == Norm(f, y, key)
    ensures (x, y) in Merge(f, key, l, r).matched
  {
    var w, s := Merge(f, key, l, r), Norm(f, x, key);
    UnmatchedAreDifferences(f, key, l, r);
    EveryRowOnce(f, key, l, r);
    KeyBagHas(f, key, r, s);
    KeyBagHas(f, key, w.leftOnly, s);
    assert x !in w.leftOnly;
    assert x in multiset(l);
    LeftsFrom(w.matched, x);
    var p :| p in w.matched && p.0 == x;
    MatchedShareKey(f, key, l, r, p);
    SameKeySameRow(f, key, r, p.1, y);
  }

  /** Among matched rows with unique keys, a row's diff entry is the one found by its
      comparator, and there is one exactly when comparing the two rows reports something. */
  lemma FoundDiffIsOwn<T>(f: Format<T>, key: string, l: seq<Row<T>>, r: seq<Row<T>>, exclude: set<string>, x: Row<T>, y: Row<T>)
    requires Sorted(f, key, l) && Sorted(f, key, r) && Unique(f, key, l) && Unique(f, key, r)
    requires x in l && y in r && key in x && key in y && Norm(f, x, key) == Norm(f, y, key)
    ensures FindDiff(DiffOf(f, l, r, key, exclude).diffs, key, y[key]) == RowDiff(f, x, y, key, exclude)
  {
    var matched := Merge(f, key, l, r).matched;
    var diffs := Compare(f, matched, key, exclude);
    var found := FindDiff(diffs, key, y[key]);
    FindDiffIs(diffs, key, y[key]);
    MatchedIfSameKey(f, key, l, r, x, y);
    if found.Some? {
      CompareFrom(f, matched, key, exclude, found.value);
      var p :| p in matched && RowDiff(f, p.0, p.1, key, exclude) == found;
      MatchedShareKey(f, key, l, r, p);
      SameKeySameRow(f, key, l, p.0, x);
      SameKeySameRow(f, key, r, p.1, y);
    } else if RowDiff(f, x, y, key, exclude).Some? {
      CompareFrom(f, matched, key, exclude, RowDiff(f, x, y, key, exclude).value);
    }
  }

  /** Patching keeps the comparator and, of the compared fields, settles every difference that
      was reported: comparing again reports nothing. The two rows then agree on every compared
      field exactly if they did before, or carry the same comparator with a text form. */
  lemma PatchSettlesRow<T>(f: Format<T>, key: string, exclude: set<string>, x: Row<T>, y: Row<T>, diffs: seq<ItemDiff<T>>)
    requires key in x && key in y && FindDiff(diffs, key, y[key]) == RowDiff(f, x, y, key, exclude)
    ensures var y' := Patched(y, diffs, key);
            && key in y' && y'[key] == y[key]
            && RowDiff(f, x, y', key, exclude).None?
            && (Agree(f, x, y', key, exclude) <==> Agree(f, x, y, key, exclude) || Comparable(f, x, y, key))
  {
    var y' := Patched(y, diffs, key);
    var d := RowDiff(f, x, y, key, exclude);
    AgreeIff(f, x, y, key, exclude);
    AgreeIff(f, x, y', key, exclude);
    if d.Some? {
      var fields := Differing(f, x, y, key, exclude);
      assert d.value.supplied.Keys == fields + {key};
      forall k | k != key && k !in exclude ensures Norm(f, x, k) == Norm(f, y', k) {
        if k in x.Keys + y.Keys && k !in fields { assert Norm(f, x, k) == Norm(f, y, k); }
      }
      assert Differing(f, x, y', key, exclude) == {};
    }
  }

  lemma RightOnlyFrom<T>(f: Format<T>, key: string, l: seq<Row<T>>, r: seq<Row<T>>, q: Row<T>)
    requires q in Merge(f, key, l, r).rightOnly
    ensures q in r
  {
    EveryRowOnce(f, key, l, r);
    assert q in multiset(r);
  }

  /** Which stored rows the patch drops: those whose key no supplied row has. */
  lemma DroppedIffUnsupplied<T>(f: Format<T>, key: string, l: seq<Row<T>>, r: seq<Row<T>>, row: Row<T>)
    requires Sorted(f, key, l) && Sorted(f, key, r) && Unique(f, key, r) && Keyed(key, r) && row in r
    ensures HasComparator(Merge(f, key, l, r).rightOnly, key, row[key]) <==> Norm(f, row, key) !in KeyBag(f, key, l)
  {
    var rightOnly, s := Merge(f, key, l, r).rightOnly, Norm(f, row, key);
    UnmatchedAreDifferences(f, key, l, r);
    KeyBagHas(f, key, r, s);
    KeyBagHas(f, key, rightOnly, s);
    assert KeyBag(f, key, rightOnly)[s] == if s in KeyBag(f, key, l) then 0 else 1;
    if s !in KeyBag(f, key, l) {
      var i :| 0 <= i < |rightOnly| && key in rightOnly[i] && Norm(f, rightOnly[i], key) == s;
      RightOnlyFrom(f, key, l, r, rightOnly[i]);
      SameKeySameRow(f, key, r, rightOnly[i], row);
    }
  }

  /** The rows kept have the stored keys that some supplied row has. */
  lemma {:induction false} KeptKeys<T>(f: Format<T>, key: string, stored: seq<Row<T>>, d: Diff<T>, supplied: multiset<string>)
    requires forall row :: row in stored ==>
      && key in row
      && (HasComparator(d.missingFromSupplied, key, row[key]) <==> Norm(f, row, key) !in supplied)
      && key in Patched(row, d.diffs, key) && Patched(row, d.diffs, key)[key] == row[key]
    ensures forall s :: KeyBag(f, key, Kept(stored, d, key))[s] == if s in supplied then KeyBag(f, key, stored)[s] else 0
  {
    if stored != [] {
      KeptKeys(f, key, stored[1..], d, supplied);
      KeyBagCons(f, key, Patched(stored[0], d.diffs, key), Kept(stored[1..], d, key));
      assert [] + Kept(stored[1..], d, key) == Kept(stored[1..], d, key);
    }
  }

  lemma {:induction false} KeptFrom<T>(stored: seq<Row<T>>, d: Diff<T>, key: string, row': Row<T>)
    requires row' in Kept(stored, d, key)
    ensures exists row :: row in stored && row' == Patched(row, d.diffs, key)
                          && !HasComparator(d.missingFromSupplied, key, Get(row, key))
  {
    if HasComparator(d.missingFromSupplied, key, Get(stored[0], key)) || row' != Patched(stored[0], d.diffs, key) {
      KeptFrom(stored[1..], d, key, row');
      var row :| row in stored[1..] && row' == Patched(row, d.diffs, key)
                 && !HasComparator(d.missingFromSupplied, key, Get(row, key));
      assert row in stored;
    }
  }

  /** What the two sides of a diff must satisfy for it to be a patch: every row has a
      comparator, and no two rows of a side share its text. */
  ghost predicate Patchable<T>(f: Format<T>, key: string, l: seq<Row<T>>, r: seq<Row<T>>) {
    Sorted(f, key, l) && Sorted(f, key, r) && Keyed(key, l) && Keyed(key, r) && Unique(f, key, l) && Unique(f, key, r)
  }

  /** A stored row that survives, after patching, compared with the supplied row of its key. */
  lemma SurvivorSettled<T>(f: Format<T>, key: string, exclude: set<string>, l: seq<Row<T>>, r: seq<Row<T>>, x: Row<T>, y: Row<T>)
    requires Patchable(f, key, l, r) && x in l && y in r && Norm(f, x, key) == Norm(f, y, key)
    ensures var y' := Patched(y, DiffOf(f, l, r, key, exclude).diffs, key);
            key in y' && y'[key] == y[key] && RowDiff(f, x, y', key, exclude).None?
  {
    FoundDiffIsOwn(f, key, l, r, exclude, x, y);
    PatchSettlesRow(f, key, exclude, x, y, DiffOf(f, l, r, key, exclude).diffs);
  }

  /** The patched table has the supplied table's keys. */
  lemma PatchedKeys<T>(f: Format<T>, key: string, exclude: set<string>, l: seq<Row<T>>, r: seq<Row<T>>, stored: seq<Row<T>>)
    requires Patchable(f, key, l, r) && multiset(stored) == multiset(r)
    ensures KeyBag(f, key, ApplyDiff(stored, DiffOf(f, l, r, key, exclude), key)) == KeyBag(f, key, l)
  {
    var d := DiffOf(f, l, r, key, exclude);
    forall row | row in stored
      ensures key in row && (HasComparator(d.missingFromSupplied, key, row[key]) <==> Norm(f, row, key) !in KeyBag(f, key, l))
      ensures key in Patched(row, d.diffs, key) && Patched(row, d.diffs, key)[key] == row[key]
    {
      assert row in multiset(stored);
      assert row in r;
      DroppedIffUnsupplied(f, key, l, r, row);
      FindDiffIs(d.diffs, key, row[key]);
    }
    KeptKeys(f, key, stored, d, KeyBag(f, key, l));
    KeyBagPermuted(f, key, stored, r);
    KeyBagAppend(f, key, Kept(stored, d, key), d.missingFromStored);
    UnmatchedAreDifferences(f, key, l, r);
    BagSettles(KeyBag(f, key, l), KeyBag(f, key, r), KeyBag(f, key, Kept(stored, d, key)));
  }

  /** What is kept of b, with what a has beyond b, is a. */
  lemma BagSettles(a: multiset<string>, b: multiset<string>, kept: multiset<string>)
    requires forall s :: a[s] <= 1 && b[s] <= 1
    requires forall s :: kept[s] == if s in a then b[s] else 0
    ensures kept + (a - b) == a
  {
  }

  /** Every row of the patched table agrees with the supplied row of its key. */
  lemma PatchedRowSettled<T>(f: Format<T>, key: string, exclude: set<string>, l: seq<Row<T>>, r: seq<Row<T>>, stored: seq<Row<T>>,
                             x: Row<T>, y': Row<T>)
    requires Patchable(f, key, l, r) && multiset(stored) == multiset(r)
    requires x in l && y' in ApplyDiff(stored, DiffOf(f, l, r, key, exclude), key)
    requires key in y' && Norm(f, x, key) == Norm(f, y', key)
    ensures RowDiff(f, x, y', key, exclude).None?
  {
    var d := DiffOf(f, l, r, key, exclude);
    if y' in d.missingFromStored {
      EveryRowOnce(f, key, l, r);
      assert y' in multiset(l);
      SameKeySameRow(f, key, l, x, y');
    } else {
      KeptFrom(stored, d, key, y');
      var y :| y in stored && y' == Patched(y, d.diffs, key) && !HasComparator(d.missingFromSupplied, key, Get(y, key));
      assert y in multiset(stored);
      assert y in r;
      FindDiffIs(d.diffs, key, y[key]);
      SurvivorSettled(f, key, exclude, l, r, x, y);
    }
  }

  lemma {:induction false} KeptHas<T>(stored: seq<Row<T>>, d: Diff<T>, key: string, row: Row<T>)
    requires row in stored && !HasComparator(d.missingFromSupplied, key, Get(row, key))
    ensures Patched(row, d.diffs, key) in Kept(stored, d, key)
  {
    if stored[0] != row {
      KeptHas(stored[1..], d, key, row);
    }
  }

  /** The stored row of a supplied row's key survives the patch, under the same key. */
  lemma SurvivorIs<T>(f: Format<T>, key: string, exclude: set<string>, l: seq<Row<T>>, r: seq<Row<T>>, stored: seq<Row<T>>, x: Row<T>, y: Row<T>)
    requires Patchable(f, key, l, r) && multiset(stored) == multiset(r)
    requires x in l && y in r && Norm(f, x, key) == Norm(f, y, key)
    ensures var d := DiffOf(f, l, r, key, exclude); var y' := Patched(y, d.diffs, key);
            && y' in ApplyDiff(stored, d, key) && key in y' && Norm(f, y', key) == Norm(f, x, key)
            && (Agree(f, x, y', key, exclude) <==> Agree(f, x, y, key, exclude) || Comparable(f, x, y, key))
  {
    var d := DiffOf(f, l, r, key, exclude);
    assert y in multiset(r);
    assert y in stored;
    KeyBagHas(f, key, l, Norm(f, x, key));
    DroppedIffUnsupplied(f, key, l, r, y);
    KeptHas(stored, d, key, y);
    FoundDiffIsOwn(f, key, l, r, exclude, x, y);
    PatchSettlesRow(f, key, exclude, x, y, d.diffs);
  }

  /** Each supplied row agrees with the patched row of its key. */
  ghost predicate AllAgree<T>(f: Format<T>, key: string, exclude: set<string>, l: seq<Row<T>>, patched: seq<Row<T>>) {
    forall x, y' :: x in l && y' in patched && SameKey(f, key, x, y') ==> Agree(f, x, y', key, exclude)
  }

  /** Each agreed with the stored row of its key before, or is comparable with it. */
  ghost predicate AllCanAgree<T>(f: Format<T>, key: string, exclude: set<string>, l: seq<Row<T>>, r: seq<Row<T>>) {
    forall x, y :: x in l && y in r && SameKey(f, key, x, y) ==> Agree(f, x, y, key, exclude) || Comparable(f, x, y, key)
  }

  /** Diff and apply: the supplied rows agree with the patched ones of their keys, on every field
      that is compared, if and only if they could. */
  lemma DiffThenApplyAgreesIff<T>(f: Format<T>, key: string, exclude: set<string>, l: seq<Row<T>>, r: seq<Row<T>>, stored: seq<Row<T>>)
    requires Patchable(f, key, l, r) && multiset(stored) == multiset(r)
    ensures AllAgree(f, key, exclude, l, ApplyDiff(stored, DiffOf(f, l, r, key, exclude), key)) <==> AllCanAgree(f, key, exclude, l, r)
  {
    var d := DiffOf(f, l, r, key, exclude);
    if AllAgree(f, key, exclude, l, ApplyDiff(stored, d, key)) {
      forall x, y | x in l && y in r && SameKey(f, key, x, y) ensures Agree(f, x, y, key, exclude) || Comparable(f, x, y, key) {
        SurvivorIs(f, key, exclude, l, r, stored, x, y);
        assert SameKey(f, key, x, Patched(y, d.diffs, key));
      }
    }
    if AllCanAgree(f, key, exclude, l, r) {
      forall x, y' | x in l && y' in ApplyDiff(stored, d, key) && SameKey(f, key, x, y') ensures Agree(f, x, y', key, exclude) {
        PatchedRowAgrees(f, key, exclude, l, r, stored, x, y');
      }
    }
  }

  lemma PatchedRowAgrees<T>(f: Format<T>, key: string, exclude: set<string>, l: seq<Row<T>>, r: seq<Row<T>>, stored: seq<Row<T>>,
                            x: Row<T>, y': Row<T>)
    requires Patchable(f, key, l, r) && multiset(stored) == multiset(r) && AllCanAgree(f, key, exclude, l, r)
    requires x in l && y' in ApplyDiff(stored, DiffOf(f, l, r, key, exclude), key) && SameKey(f, key, x, y')
    ensures Agree(f, x, y', key, exclude)
  {
    PatchedRowFrom(f, key, exclude, l, r, stored, x, y');
    if y' != x {
      var y :| y in r && SameKey(f, key, x, y) && y' == Patched(y, DiffOf(f, l, r, key, exclude).diffs, key);
      SurvivorIs(f, key, exclude, l, r, stored, x, y);
    }
  }

  predicate SameKey<T>(f: Format<T>, key: string, x: Row<T>, y: Row<T>) {
    key in x && key in y && Norm(f, x, key) == Norm(f, y, key)
  }

  /** A patched row with a supplied row's key is that row, or a stored one with the key, patched. */
  lemma PatchedRowFrom<T>(f: Format<T>, key: string, exclude: set<string>, l: seq<Row<T>>, r: seq<Row<T>>, stored: seq<Row<T>>,
                          x: Row<T>, y': Row<T>)
    requires Patchable(f, key, l, r) && multiset(stored) == multiset(r) && x in l && SameKey(f, key, x, y')
    requires y' in ApplyDiff(stored, DiffOf(f, l, r, key, exclude), key)
    ensures y' == x || exists y :: y in r && SameKey(f, key, x, y) && y' == Patched(y, DiffOf(f, l, r, key, exclude).diffs, key)
  {
    var d := DiffOf(f, l, r, key, exclude);
    if y' in d.missingFromStored {
      EveryRowOnce(f, key, l, r);
      assert y' in multiset(l);
      SameKeySameRow(f, key, l, x, y');
    } else {
      KeptFrom(stored, d, key, y');
      var y :| y in stored && y' == Patched(y, d.diffs, key) && !HasComparator(d.missingFromSupplied, key, Get(y, key));
      assert y in multiset(stored);
      assert y in r;
      FindDiffIs(d.diffs, key, y[key]);
    }
  }

  lemma {:induction false} CompareNothing<T>(f: Format<T>, matched: seq<(Row<T>, Row<T>)>, key: string, exclude: set<string>)
    requires forall p :: p in matched ==> RowDiff(f, p.0, p.1, key, exclude).None?
    ensures Compare(f, matched, key, exclude) == []
  {
    if matched != [] {
      CompareNothing(f, matched[1..], key, exclude);
    }
  }

  lemma {:induction false} KeyBagSize<T>(f: Format<T>, key: string, rows: seq<Row<T>>)
    requires Keyed(key, rows)
    ensures |KeyBag(f, key, rows)| == |rows|
  {
    if rows != [] {
      assert rows[0] in rows;
      KeyBagSize(f, key, rows[1..]);
    }
  }

  lemma NothingUnmatched<T>(f: Format<T>, key: string, exclude: set<string>, l: seq<Row<T>>, r: seq<Row<T>>,
                            stored: seq<Row<T>>, l2: seq<Row<T>>, r2: seq<Row<T>>)
    requires Patchable(f, key, l, r) && multiset(stored) == multiset(r)
    requires Sorted(f, key, l2) && multiset(l2) == multiset(l)
    requires Sorted(f, key, r2) && multiset(r2) == multiset(ApplyDiff(stored, DiffOf(f, l, r, key, exclude), key))
    ensures Merge(f, key, l2, r2).leftOnly == [] && Merge(f, key, l2, r2).rightOnly == []
  {
    var patched := ApplyDiff(stored, DiffOf(f, l, r, key, exclude), key);
    PatchedKeys(f, key, exclude, l, r, stored);
    KeyBagPermuted(f, key, l2, l);
    KeyBagPermuted(f, key, r2, patched);
    forall row | row in l2 ensures key in row {
      assert row in multiset(l2);
      assert row in l;
    }
    forall row | row in r2 ensures key in row {
      assert row in multiset(r2);
      assert row in patched;
      PatchedRowKeyed(f, key, exclude, l, r, stored, row);
    }
    SameKeysAllMatched(f, key, l2, r2);
  }

  lemma SameKeysAllMatched<T>(f: Format<T>, key: string, l: seq<Row<T>>, r: seq<Row<T>>)
    requires Sorted(f, key, l) && Sorted(f, key, r) && Keyed(key, l) && Keyed(key, r) && KeyBag(f, key, l) == KeyBag(f, key, r)
    ensures Merge(f, key, l, r).leftOnly == [] && Merge(f, key, l, r).rightOnly == []
  {
    var w := Merge(f, key, l, r);
    UnmatchedKeyed(f, key, l, r);
    KeyBagSize(f, key, w.leftOnly);
    KeyBagSize(f, key, w.rightOnly);
    var bag := KeyBag(f, key, l);
    assert KeyBag(f, key, w.leftOnly) == bag - bag == KeyBag(f, key, w.rightOnly) by {
      UnmatchedAreDifferences(f, key, l, r);
    }
    assert bag - bag == multiset{};
  }

  lemma UnmatchedKeyed<T>(f: Format<T>, key: string, l: seq<Row<T>>, r: seq<Row<T>>)
    requires Keyed(key, l) && Keyed(key, r)
    ensures Keyed(key, Merge(f, key, l, r).leftOnly) && Keyed(key, Merge(f, key, l, r).rightOnly)
  {
    EveryRowOnce(f, key, l, r);
    forall row | row in Merge(f, key, l, r).leftOnly ensures key in row {
      assert row in multiset(l);
    }
    forall row | row in Merge(f, key, l, r).rightOnly ensures key in row {
      assert row in multiset(r);
    }
  }

  /** Diff, apply, diff again: nothing is left. The stored rows may be patched in any order,
      and either side may be in any order when it is sorted for the second diff. */
  lemma DiffThenApplySettles<T>(f: Format<T>, key: string, exclude: set<string>, l: seq<Row<T>>, r: seq<Row<T>>,
                                stored: seq<Row<T>>, l2: seq<Row<T>>, r2: seq<Row<T>>)
    requires Patchable(f, key, l, r) && multiset(stored) == multiset(r)
    requires Sorted(f, key, l2) && multiset(l2) == multiset(l)
    requires Sorted(f, key, r2) && multiset(r2) == multiset(ApplyDiff(stored, DiffOf(f, l, r, key, exclude), key))
    ensures DiffOf(f, l2, r2, key, exclude) == Diff([], [], [])
  {
    var patched := ApplyDiff(stored, DiffOf(f, l, r, key, exclude), key);
    var w := Merge(f, key, l2, r2);
    NothingUnmatched(f, key, exclude, l, r, stored, l2, r2);
    forall p | p in w.matched ensures RowDiff(f, p.0, p.1, key, exclude).None? {
      MatchedShareKey(f, key, l2, r2, p);
      assert p.0 in multiset(l2) && p.1 in multiset(r2);
      assert p.0 in l && p.1 in patched;
      PatchedRowSettled(f, key, exclude, l, r, stored, p.0, p.1);
    }
    CompareNothing(f, w.matched, key, exclude);
  }

  lemma PatchedRowKeyed<T>(f: Format<T>, key: string, exclude: set<string>, l: seq<Row<T>>, r: seq<Row<T>>, stored: seq<Row<T>>, y': Row<T>)
    requires Patchable(f, key, l, r) && multiset(stored) == multiset(r)
    requires y' in ApplyDiff(stored, DiffOf(f, l, r, key, exclude), key)
    ensures key in y'
  {
    var d := DiffOf(f, l, r, key, exclude);
    if y' in d.missingFromStored {
      EveryRowOnce(f, key, l, r);
      assert y' in multiset(l);
    } else {
      KeptFrom(stored, d, key, y');
      var y :| y in stored && y' == Patched(y, d.diffs, key) && !HasComparator(d.missingFromSupplied, key, Get(y, key));
      assert y in multiset(stored);
      assert y in r;
    }
  }
}
