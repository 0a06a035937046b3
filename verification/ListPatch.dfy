/** Add and remove patches of a list column: how one is read (datamodel/config.go) and what the
    expression built for it computes (querybuilder/queryManager.go). */
module ListPatch {
  import opened Wrappers

  datatype Patch = Patch(add: seq<string>, remove: seq<string>)

  datatype PatchError = NotAList(key: string) | UnknownOperation(key: string) | NothingToDo | InBoth(value: string)

  datatype Parsed = Ok(patch: Patch) | Err(error: PatchError)

  // ---- Reading a patch ----

  ghost predicate NoRepeats<T>(s: seq<T>) {
    forall i, j :: 0 <= i < j < |s| ==> s[i] != s[j]
  }

  /** The elements in the order each is first seen. */
  function FirstSeen<T(==)>(s: seq<T>): seq<T> {
    if s == [] then []
    else
      var n := |s| - 1;
      FirstSeen(s[..n]) + if s[n] in s[..n] then [] else [s[n]]
  }

  lemma {:induction false} FirstSeenIs<T>(s: seq<T>)
    ensures NoRepeats(FirstSeen(s)) && forall x :: x in FirstSeen(s) <==> x in s
  {
    if s != [] {
      var n := |s| - 1;
      FirstSeenIs(s[..n]);
      assert s == s[..n] + [s[n]];
    }
  }

  /** The elements of u are those of s at these places, in order. */
  ghost predicate TakenAt<T>(u: seq<T>, s: seq<T>, places: seq<nat>) {
    && |places| == |u| && (forall i, j :: 0 <= i < j < |places| ==> places[i] < places[j])
    && (forall k :: 0 <= k < |u| ==> places[k] < |s| && u[k] == s[places[k]])
  }

  lemma TakenMore<T>(u: seq<T>, s: seq<T>, places: seq<nat>)
    requires s != [] && TakenAt(u, s[..|s| - 1], places)
    ensures forall p :: p in places ==> p < |s| - 1
    ensures TakenAt(u, s, places) && TakenAt(u + [s[|s| - 1]], s, places + [|s| - 1])
  {
  }

  predicate FirstAt<T(==)>(s: seq<T>, p: nat) {
    p < |s| && s[p] !in s[..p]
  }

  /** They are the elements of s, each where it first occurs, in the order of s. */
  lemma {:induction false} FirstSeenInOrder<T>(s: seq<T>) returns (places: seq<nat>)
    ensures TakenAt(FirstSeen(s), s, places)
    ensures forall p :: p in places <==> FirstAt(s, p)
  {
    if s == [] {
      places := [];
    } else {
      var n := |s| - 1;
      var before := FirstSeenInOrder(s[..n]);
      places := before + if s[n] in s[..n] then [] else [n];
      FirstAtPrefix(s);
      TakenMore(FirstSeen(s[..n]), s, before);
    }
  }

  lemma FirstAtPrefix<T>(s: seq<T>)
    requires s != []
    ensures forall p: nat :: FirstAt(s[..|s| - 1], p) <==> FirstAt(s, p) && p < |s| - 1
  {
    forall p: nat | p < |s| - 1 ensures FirstAt(s[..|s| - 1], p) <==> FirstAt(s, p) {
      assert s[..|s| - 1][..p] == s[..p];
    }
  }

  method Unique<T(==)>(s: seq<T>) returns (u: seq<T>)
    ensures u == FirstSeen(s)
  {
    var seen: set<T> := {};
    u := [];
    var i := 0;
    while i < |s|
      invariant 0 <= i <= |s|
      invariant u == FirstSeen(s[..i]) && forall x :: x in seen <==> x in s[..i]
    {
      assert s[..i + 1] == s[..i] + [s[i]] && s[..i + 1][..i] == s[..i];
      if s[i] !in seen {
        seen := seen + {s[i]};
        u := u + [s[i]];
      }
      i := i + 1;
    }
    assert s[..i] == s;
  }

  /** The list under a key, as far as the patch is concerned. */
  function ListOf(m: map<string, Option<seq<string>>>, key: string): seq<string> {
    if key in m && m[key].Some? then FirstSeen(m[key].value) else []
  }

  predicate Understood(m: map<string, Option<seq<string>>>) {
    forall k :: k in m ==> m[k].Some? && (k == "add" || k == "remove")
  }

  /** Accepts an object of add and remove lists that hold something and share nothing. The
      object's keys come in any order, so of two faults either may be reported. */
  method ParseStringListPatch(m: map<string, Option<seq<string>>>) returns (r: Parsed)
    ensures r.Ok? <==> Understood(m) && (ListOf(m, "add") != [] || ListOf(m, "remove") != [])
                       && forall a :: a in ListOf(m, "add") ==> a !in ListOf(m, "remove")
    ensures r.Ok? ==> r.patch == Patch(ListOf(m, "add"), ListOf(m, "remove"))
    ensures r.Err? && r.error.NotAList? ==> r.error.key in m && m[r.error.key].None?
    ensures r.Err? && r.error.UnknownOperation? ==> r.error.key in m && r.error.key != "add" && r.error.key != "remove"
    ensures r == Err(NothingToDo) ==> Understood(m) && ListOf(m, "add") == [] && ListOf(m, "remove") == []
    ensures r.Err? && r.error.InBoth? ==> r.error.value in ListOf(m, "add") && r.error.value in ListOf(m, "remove")
  {
    var patch := Patch([], []);
    var keys := m.Keys;
    while keys != {}
      invariant keys <= m.Keys
      invariant forall k :: k in m && k !in keys ==> m[k].Some? && (k == "add" || k == "remove")
      invariant patch.add == if "add" in keys then [] else ListOf(m, "add")
      invariant patch.remove == if "remove" in keys then [] else ListOf(m, "remove")
      decreases |keys|
    {
      var k :| k in keys;
      keys := keys - {k};
      if m[k].None? {
        return Err(NotAList(k));
      }
      var list := Unique(m[k].value);
      if k == "add" {
        patch := patch.(add := list);
      } else if k == "remove" {
        patch := patch.(remove := list);
      } else {
        return Err(UnknownOperation(k));
      }
    }
    if |patch.add| == 0 && |patch.remove| == 0 {
      return Err(NothingToDo);
    }
    var both := FirstShared(patch.add, patch.remove);
    if both.Some? {
      return Err(InBoth(both.value));
    }
    r := Ok(patch);
  }

  method FirstShared(add: seq<string>, remove: seq<string>) returns (both: Option<string>)
    ensures both.Some? ==> both.value in add && both.value in remove
    ensures both.None? ==> forall a :: a in add ==> a !in remove
  {
    var i := 0;
    while i < |add|
      invariant 0 <= i <= |add|
      invariant forall a :: a in add[..i] ==> a !in remove
    {
      if add[i] in remove {
        return Some(add[i]);
      }
      i := i + 1;
    }
    assert add[..i] == add;
    both := None;
  }

  ghost predicate Acceptable(p: Patch) {
    NoRepeats(p.add) && NoRepeats(p.remove) && (p.add != [] || p.remove != []) && forall a :: a in p.add ==> a !in p.remove
  }

  lemma ParsedIsAcceptable(m: map<string, Option<seq<string>>>)
    requires Understood(m) && (ListOf(m, "add") != [] || ListOf(m, "remove") != [])
    requires forall a :: a in ListOf(m, "add") ==> a !in ListOf(m, "remove")
    ensures Acceptable(Patch(ListOf(m, "add"), ListOf(m, "remove")))
  {
    if "add" in m { FirstSeenIs(m["add"].value); }
    if "remove" in m { FirstSeenIs(m["remove"].value); }
  }

  // ---- Applying a patch ----

  function Without(s: seq<string>, drop: seq<string>): seq<string> {
    if s == [] then []
    else
      var n := |s| - 1;
      Without(s[..n], drop) + if s[n] in drop then [] else [s[n]]
  }

  predicate LeftAt(s: seq<string>, drop: seq<string>, p: nat) {
    p < |s| && s[p] !in drop
  }

  /** What is left keeps its order: it is the elements not dropped, where they are in s. */
  lemma {:induction false} WithoutInOrder(s: seq<string>, drop: seq<string>) returns (places: seq<nat>)
    ensures TakenAt(Without(s, drop), s, places)
    ensures forall p :: p in places <==> LeftAt(s, drop, p)
  {
    if s == [] {
      places := [];
    } else {
      var n := |s| - 1;
      var before := WithoutInOrder(s[..n], drop);
      places := before + if s[n] in drop then [] else [n];
      forall p: nat | p < n ensures LeftAt(s[..n], drop, p) <==> LeftAt(s, drop, p) {
      }
      TakenMore(Without(s[..n], drop), s, before);
    }
  }

  /** The expression: the current list (empty for NULL), then the added values it lacks, all
      without the removed values. */
  function Applied(current: Option<seq<string>>, p: Patch): seq<string> {
    var now := if current.Some? then current.value else [];
    Without(now + Without(p.add, now), p.remove)
  }

  lemma {:induction false} WithoutHas(s: seq<string>, drop: seq<string>)
    ensures forall x :: x in Without(s, drop) <==> x in s && x !in drop
  {
    if s != [] {
      var n := |s| - 1;
      WithoutHas(s[..n], drop);
      assert s == s[..n] + [s[n]];
    }
  }

  lemma {:induction false} WithoutAppend(a: seq<string>, b: seq<string>, drop: seq<string>)
    ensures Without(a + b, drop) == Without(a, drop) + Without(b, drop)
  {
    if b == [] {
      assert a + b == a;
    } else {
      var n := |b| - 1;
      WithoutAppend(a, b[..n], drop);
      assert (a + b)[..|a| + n] == a + b[..n] && (a + b)[|a| + n] == b[n];
    }
  }

  lemma {:induction false} WithoutNone(s: seq<string>, drop: seq<string>)
    requires forall x :: x in s ==> x !in drop
    ensures Without(s, drop) == s
  {
    if s != [] {
      WithoutNone(s[..|s| - 1], drop);
      assert s == s[..|s| - 1] + [s[|s| - 1]];
    }
  }

  lemma {:induction false} WithoutAll(s: seq<string>, drop: seq<string>)
    requires forall x :: x in s ==> x in drop
    ensures Without(s, drop) == []
  {
    if s != [] {
      WithoutAll(s[..|s| - 1], drop);
    }
  }

  function Members(s: seq<string>): set<string> {
    set x | x in s
  }

  /** As a set: what is there and what is added, less what is removed. */
  lemma AppliedSet(current: seq<string>, p: Patch)
    ensures Members(Applied(Some(current), p)) == Members(current) + Members(p.add) - Members(p.remove)
  {
    var added := Without(p.add, current);
    WithoutHas(p.add, current);
    WithoutHas(current + added, p.remove);
    assert forall x :: x in current + added <==> x in current || x in added;
  }

  /** In order: the surviving values first, as they were, then the new ones as they were sent. */
  lemma AppliedOrder(current: seq<string>, p: Patch)
    requires Acceptable(p)
    ensures Applied(Some(current), p) == Without(current, p.remove) + Without(p.add, current)
  {
    var added := Without(p.add, current);
    WithoutAppend(current, added, p.remove);
    WithoutHas(p.add, current);
    WithoutNone(added, p.remove);
  }

  /** A column that is NULL becomes the added values. */
  lemma AppliedToNull(p: Patch)
    requires Acceptable(p)
    ensures Applied(None, p) == p.add
  {
    WithoutNone(p.add, []);
    assert [] + Without(p.add, []) == p.add;
    WithoutNone(p.add, p.remove);
  }

  /** Applying a patch again changes nothing. */
  lemma AppliedTwice(current: Option<seq<string>>, p: Patch)
    ensures Applied(Some(Applied(current, p)), p) == Applied(current, p)
  {
    var now := if current.Some? then current.value else [];
    var once := Applied(current, p);
    var added := Without(p.add, once);
    WithoutHas(p.add, now);
    WithoutHas(now + Without(p.add, now), p.remove);
    assert forall x :: x in now + Without(p.add, now) <==> x in now || x in p.add;
    WithoutHas(p.add, once);
    WithoutAppend(once, added, p.remove);
    WithoutNone(once, p.remove);
    WithoutAll(added, p.remove);
  }

  /** No value is put in twice. */
  lemma AppliedNoRepeats(current: seq<string>, p: Patch)
    requires Acceptable(p) && NoRepeats(current)
    ensures NoRepeats(Applied(Some(current), p))
  {
    AppliedOrder(current, p);
    WithoutKeepsNoRepeats(current, p.remove);
    WithoutKeepsNoRepeats(p.add, current);
    WithoutHas(current, p.remove);
    WithoutHas(p.add, current);
    var a, b := Without(current, p.remove), Without(p.add, current);
    forall i, j | 0 <= i < |a| && 0 <= j < |b| ensures a[i] != b[j] {
      assert a[i] in a && b[j] in b;
    }
  }

  lemma {:induction false} WithoutKeepsNoRepeats(s: seq<string>, drop: seq<string>)
    requires NoRepeats(s)
    ensures NoRepeats(Without(s, drop))
  {
    if s != [] {
      var n := |s| - 1;
      WithoutKeepsNoRepeats(s[..n], drop);
      WithoutHas(s[..n], drop);
      assert s[n] !in s[..n];
    }
  }

  /** Two patches give the same set in either order exactly when neither adds what the other
      removes, whatever the list was. */
  lemma OrderMattersIff(current: seq<string>, p: Patch, q: Patch)
    requires Acceptable(p) && Acceptable(q)
    ensures Members(Applied(Some(Applied(Some(current), p)), q)) == Members(Applied(Some(Applied(Some(current), q)), p))
        <==> Members(p.add) !! Members(q.remove) && Members(q.add) !! Members(p.remove)
  {
    AppliedSet(current, p);
    AppliedSet(current, q);
    AppliedSet(Applied(Some(current), p), q);
    AppliedSet(Applied(Some(current), q), p);
    SetsInOrder(Members(current), Members(p.add), Members(p.remove), Members(q.add), Members(q.remove));
  }

  lemma SetsInOrder(c: set<string>, a1: set<string>, r1: set<string>, a2: set<string>, r2: set<string>)
    requires a1 !! r1 && a2 !! r2
    ensures (c + a1 - r1) + a2 - r2 == (c + a2 - r2) + a1 - r1 <==> a1 !! r2 && a2 !! r1
  {
    var x1, x2 := (c + a1 - r1) + a2 - r2, (c + a2 - r2) + a1 - r1;
    if x :| x in a1 && x in r2 {
      assert x !in x1 && x in x2;
    } else if x :| x in a2 && x in r1 {
      assert x in x1 && x !in x2;
    } else {
      assert forall x :: x in x1 <==> x in x2;
    }
  }
}
