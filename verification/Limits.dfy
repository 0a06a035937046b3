/** Two memories that forget what no longer matters: the request limiter (auth/limiter.go) and
    the record of used ids (auth/service_auth.go, ReplayMemory). Each is checked against the
    same rule over a record that is never pruned. */
module Limits {

  type Time = int

  const SWEEP_EVERY := 500

  // ---- Requests ----

  /** How many of the times are after lo. */
  function Count(times: seq<Time>, lo: Time): nat {
    if times == [] then 0
    else Count(times[..|times| - 1], lo) + if times[|times| - 1] > lo then 1 else 0
  }

  /** The rule, on every accepted request so far of one requester. */
  predicate MayPass(accepted: seq<Time>, now: Time, maxReq: int, window: Time) {
    Count(accepted, now - window) < maxReq
  }

  function After(accepted: seq<Time>, now: Time, maxReq: int, window: Time): seq<Time> {
    accepted + if MayPass(accepted, now, maxReq, window) then [now] else []
  }

  ghost predicate Ordered(times: seq<Time>, last: Time) {
    && (forall i, j :: 0 <= i < j < |times| ==> times[i] <= times[j])
    && (forall i :: 0 <= i < |times| ==> times[i] <= last)
  }

  lemma {:induction false} CountIs(times: seq<Time>, n: nat, lo: Time)
    requires n <= |times|
    requires forall i :: 0 <= i < n ==> times[i] <= lo
    requires forall i :: n <= i < |times| ==> times[i] > lo
    ensures Count(times, lo) == |times| - n
  {
    if times != [] {
      var m := |times| - 1;
      CountIs(times[..m], if n <= m then n else m, lo);
    }
  }

  function Times(reqs: map<string, seq<Time>>, requester: string): seq<Time> {
    if requester in reqs then reqs[requester] else []
  }

  /** kept is all without some first times, none of them after lo. */
  ghost predicate Pruned(kept: seq<Time>, all: seq<Time>, lo: Time) {
    && |kept| <= |all| && (forall i :: 0 <= i < |kept| ==> kept[i] == all[|all| - |kept| + i])
    && (forall i :: 0 <= i < |all| - |kept| ==> all[i] <= lo)
  }

  ghost predicate Fits(reqs: map<string, seq<Time>>, accepted: map<string, seq<Time>>, last: Time, window: Time) {
    forall r {:trigger KeptOf(reqs, accepted, last, window, r)} :: KeptOf(reqs, accepted, last, window, r)
  }

  ghost predicate KeptOf(reqs: map<string, seq<Time>>, accepted: map<string, seq<Time>>, last: Time, window: Time, requester: string) {
    Kept(Times(reqs, requester), Times(accepted, requester), last, window)
  }

  ghost predicate Kept(kept: seq<Time>, all: seq<Time>, last: Time, window: Time) {
    Ordered(all, last) && Pruned(kept, all, last - window)
  }

  lemma FitsLater(reqs: map<string, seq<Time>>, reqs': map<string, seq<Time>>, accepted: map<string, seq<Time>>, last: Time, now: Time, window: Time)
    requires Fits(reqs, accepted, last, window) && last <= now
    requires forall r :: Times(reqs', r) == Times(reqs, r) || (Times(reqs', r) == [] &&
               (Times(reqs, r) == [] || Times(reqs, r)[|Times(reqs, r)| - 1] <= now - window))
    ensures Fits(reqs', accepted, now, window)
  {
    forall r ensures KeptOf(reqs', accepted, now, window, r) {
      assert KeptOf(reqs, accepted, last, window, r);
      StillPruned(Times(reqs, r), Times(reqs', r), Times(accepted, r), last - window, now - window);
    }
  }

  /** One requester's times change, the others' stay. */
  lemma FitsChanged(reqs: map<string, seq<Time>>, accepted: map<string, seq<Time>>, now: Time, window: Time,
                    requester: string, kept: seq<Time>, all: seq<Time>)
    requires Fits(reqs, accepted, now, window) && Kept(kept, all, now, window)
    ensures Fits(reqs[requester := kept], accepted[requester := all], now, window)
  {
    var reqs', accepted' := reqs[requester := kept], accepted[requester := all];
    forall r ensures KeptOf(reqs', accepted', now, window, r) {
      assert KeptOf(reqs, accepted, now, window, r);
    }
  }

  class Limiter {
    const maxReq: int
    const window: Time
    var reqs: map<string, seq<Time>>
    var count: nat
    ghost var accepted: map<string, seq<Time>> // never pruned
    ghost var last: Time

    ghost predicate Valid()
      reads this
    {
      Fits(reqs, accepted, last, window)
    }

    constructor (maxReq: int, window: Time, now: Time)
      ensures Valid() && this.maxReq == maxReq && this.window == window && accepted == map[] && last == now
    {
      this.maxReq, this.window, reqs, count, accepted, last := maxReq, window, map[], 0, map[], now;
    }

    /** Forgets the requesters with no live request. */
    method DropIdle(cutoff: Time)
      modifies this`reqs
      ensures forall r :: r in reqs ==> r in old(reqs) && reqs[r] == old(reqs)[r]
      ensures forall r :: r in old(reqs) && r !in reqs ==> old(reqs)[r] == [] || old(reqs)[r][|old(reqs)[r]| - 1] <= cutoff
    {
      var keys := reqs.Keys;
      while keys != {}
        invariant forall r :: r in reqs ==> r in old(reqs) && reqs[r] == old(reqs)[r]
        invariant forall r :: r in old(reqs) && r !in reqs ==> old(reqs)[r] == [] || old(reqs)[r][|old(reqs)[r]| - 1] <= cutoff
        decreases |keys|
      {
        var k :| k in keys;
        keys := keys - {k};
        if k in reqs && (|reqs[k]| == 0 || reqs[k][|reqs[k]| - 1] <= cutoff) {
          reqs := reqs - {k};
        }
      }
    }

    /** Sweeping changes no record, so no later decision. */
    method Sweep(now: Time)
      requires Valid() && now >= last
      modifies this`reqs, this`last
      ensures Valid() && last == now
    {
      ghost var reqs0, last0 := reqs, last;
      DropIdle(now - window);
      last := now;
      FitsLater(reqs0, reqs, accepted, last0, now, window);
    }

    /** The decision is the unpruned rule's, and only that requester's record changes. */
    method Allow(requester: string, now: Time) returns (ok: bool)
      requires Valid() && now >= last
      modifies this
      ensures Valid() && last == now
      ensures ok == MayPass(Times(old(accepted), requester), now, maxReq, window)
      ensures accepted == old(accepted)[requester := After(Times(old(accepted), requester), now, maxReq, window)]
    {
      Tick(now);
      var times := LiveTimes(Times(reqs, requester), now - window);
      ok := |times| < maxReq;
      CallFits(reqs, accepted, now, window, requester, ok);
      ghost var all := Times(accepted, requester);
      assert ok == MayPass(all, now, maxReq, window);
      assert After(all, now, maxReq, window) == all + if ok then [now] else [];
      reqs := reqs[requester := times + if ok then [now] else []];
      accepted := accepted[requester := all + if ok then [now] else []];
    }

    /** Counts the call, and sweeps when it is time to. */
    method Tick(now: Time)
      requires Valid() && now >= last
      modifies this`reqs, this`count, this`last
      ensures Valid() && last == now
    {
      count := count + 1;
      if count >= SWEEP_EVERY {
        Sweep(now);
        count := 0;
      } else {
        FitsLater(reqs, reqs, accepted, last, now, window);
        last := now;
      }
    }

    /** Times are in order, so the first live one starts the live ones. */
    static method LiveTimes(times: seq<Time>, cutoff: Time) returns (live: seq<Time>)
      ensures live == Live(times, cutoff)
    {
      var i := 0;
      while i < |times| && times[i] <= cutoff
        invariant 0 <= i <= |times|
        invariant Live(times[i..], cutoff) == Live(times, cutoff)
      {
        assert times[i..][1..] == times[i + 1..];
        i := i + 1;
      }
      live := times[i..];
    }
  }

  /** The times without the first ones that are not after the cutoff. */
  function Live(times: seq<Time>, cutoff: Time): seq<Time> {
    if times == [] || times[0] > cutoff then times else Live(times[1..], cutoff)
  }

  lemma {:induction false} LiveIs(times: seq<Time>, cutoff: Time)
    ensures var live := Live(times, cutoff);
            && |live| <= |times| && live == times[|times| - |live|..]
            && (forall j :: 0 <= j < |times| - |live| ==> times[j] <= cutoff)
            && (live != [] ==> live[0] > cutoff)
  {
    if times != [] && times[0] <= cutoff {
      LiveIs(times[1..], cutoff);
      assert forall j :: 0 < j < |times| ==> times[j] == times[1..][j - 1];
    }
  }

  /** What is left after the trim counts the live requests, and either outcome fits. */
  lemma CallFits(reqs: map<string, seq<Time>>, accepted: map<string, seq<Time>>, now: Time, window: Time, requester: string, ok: bool)
    requires Fits(reqs, accepted, now, window)
    ensures Count(Times(accepted, requester), now - window) == |Live(Times(reqs, requester), now - window)|
    ensures Fits(reqs[requester := Live(Times(reqs, requester), now - window) + if ok then [now] else []],
                 accepted[requester := Times(accepted, requester) + if ok then [now] else []], now, window)
  {
    var times, all := Times(reqs, requester), Times(accepted, requester);
    assert KeptOf(reqs, accepted, now, window, requester);
    KeptCall(times, all, now, window, ok);
    FitsChanged(reqs, accepted, now, window, requester, Live(times, now - window) + if ok then [now] else [], all + if ok then [now] else []);
  }

  lemma LiveKept(times: seq<Time>, all: seq<Time>, now: Time, lo: Time)
    requires Ordered(all, now) && Pruned(times, all, lo)
    ensures Count(all, lo) == |Live(times, lo)| && Pruned(Live(times, lo), all, lo)
  {
    LiveIs(times, lo);
    TrimmedCount(times, all, |times| - |Live(times, lo)|, lo, lo);
  }

  lemma KeptCall(times: seq<Time>, all: seq<Time>, now: Time, window: Time, ok: bool)
    requires Kept(times, all, now, window)
    ensures Count(all, now - window) == |Live(times, now - window)|
    ensures Kept(Live(times, now - window) + if ok then [now] else [], all + if ok then [now] else [], now, window)
  {
    var live := Live(times, now - window);
    LiveKept(times, all, now, now - window);
    if ok {
      AddedLast(live, all, now, now - window);
    } else {
      assert live + [] == live && all + [] == all;
    }
  }

  lemma AddedLast(kept: seq<Time>, all: seq<Time>, now: Time, lo: Time)
    requires Ordered(all, now) && Pruned(kept, all, lo)
    ensures Ordered(all + [now], now) && Pruned(kept + [now], all + [now], lo)
  {
    assert (all + [now])[|all| - |kept|..] == all[|all| - |kept|..] + [now];
  }

  lemma StillPruned(kept: seq<Time>, kept': seq<Time>, all: seq<Time>, lo: Time, lo': Time)
    requires Pruned(kept, all, lo) && lo <= lo' && (forall i, j :: 0 <= i < j < |all| ==> all[i] <= all[j])
    requires kept' == kept || (kept' == [] && (kept == [] || kept[|kept| - 1] <= lo'))
    ensures Pruned(kept', all, lo')
  {
    if kept' != kept && kept != [] {
      assert kept[|kept| - 1] == all[|all| - 1];
    }
  }

  /** After the trim, what is left is exactly the live requests of the whole record. */
  lemma TrimmedCount(kept: seq<Time>, all: seq<Time>, i: nat, lo: Time, cutoff: Time)
    requires Pruned(kept, all, lo) && lo <= cutoff && i <= |kept|
    requires forall i, j :: 0 <= i < j < |all| ==> all[i] <= all[j]
    requires forall j :: 0 <= j < i ==> kept[j] <= cutoff
    requires i < |kept| ==> kept[i] > cutoff
    ensures Count(all, cutoff) == |kept| - i && Pruned(kept[i..], all, cutoff)
  {
    var n := |all| - |kept| + i;
    assert kept[i..] == all[n..];
    forall j | |all| - |kept| <= j < n ensures all[j] <= cutoff {
      assert all[j] == kept[j - (|all| - |kept|)];
    }
    if i < |kept| { assert all[n] == kept[i]; }
    CountIs(all, n, cutoff);
  }

  /** The record of one requester whose calls come at the given times. */
  function Accepted(calls: seq<Time>, maxReq: int, window: Time): seq<Time> {
    if calls == [] then [] else After(Accepted(calls[..|calls| - 1], maxReq, window), calls[|calls| - 1], maxReq, window)
  }

  /** Any maxReq + 1 of the times in a row span at least the window. */
  ghost predicate Spread(a: seq<Time>, maxReq: int, window: Time) {
    forall i, j :: 0 <= i < |a| && 0 <= j < |a| && j == i + maxReq ==> a[j] - a[i] >= window
  }

  lemma SpreadStep(before: seq<Time>, now: Time, maxReq: int, window: Time)
    requires maxReq > 0 && Ordered(before, now) && Spread(before, maxReq, window)
    ensures Ordered(After(before, now, maxReq, window), now) && Spread(After(before, now, maxReq, window), maxReq, window)
  {
    var after := After(before, now, maxReq, window);
    if MayPass(before, now, maxReq, window) {
      assert after == before + [now];
      if |before| >= maxReq { OldestIsOut(before, now, maxReq, window); }
    } else {
      assert after == before;
    }
  }

  lemma {:induction false} AcceptedSpread(calls: seq<Time>, maxReq: int, window: Time)
    requires maxReq > 0 && forall i, j :: 0 <= i < j < |calls| ==> calls[i] <= calls[j]
    ensures Spread(Accepted(calls, maxReq, window), maxReq, window)
    ensures Ordered(Accepted(calls, maxReq, window), if calls == [] then 0 else calls[|calls| - 1])
  {
    if calls != [] {
      var n := |calls| - 1;
      AcceptedSpread(calls[..n], maxReq, window);
      assert Ordered(Accepted(calls[..n], maxReq, window), calls[n]) by {
        if n == 0 { assert Accepted(calls[..n], maxReq, window) == []; }
      }
      SpreadStep(Accepted(calls[..n], maxReq, window), calls[n], maxReq, window);
    }
  }

  lemma OldestIsOut(before: seq<Time>, now: Time, maxReq: int, window: Time)
    requires 0 < maxReq <= |before| && MayPass(before, now, maxReq, window)
    requires forall i, j :: 0 <= i < j < |before| ==> before[i] <= before[j]
    ensures before[|before| - maxReq] <= now - window
  {
    CountAtLeast(before, |before| - maxReq, now - window);
  }

  lemma {:induction false} CountAtLeast(times: seq<Time>, n: nat, lo: Time)
    requires n <= |times|
    ensures (forall i :: n <= i < |times| ==> times[i] > lo) ==> Count(times, lo) >= |times| - n
  {
    if n < |times| {
      var m := |times| - 1;
      CountAtLeast(times[..m], n, lo);
      assert forall i :: n <= i < m ==> times[..m][i] == times[i];
    }
  }

  /** How many of the times are in the half-open window that starts at t. */
  function InWindow(times: seq<Time>, t: Time, window: Time): nat {
    if times == [] then 0
    else InWindow(times[..|times| - 1], t, window) + if t <= times[|times| - 1] < t + window then 1 else 0
  }

  /** No half-open window of the limiter's length, wherever it starts, holds more than maxReq
      accepted requests. */
  lemma NoWindowOverfull(calls: seq<Time>, maxReq: int, window: Time, t: Time)
    requires maxReq >= 0 && window > 0 && forall i, j :: 0 <= i < j < |calls| ==> calls[i] <= calls[j]
    ensures InWindow(Accepted(calls, maxReq, window), t, window) <= maxReq
  {
    if maxReq == 0 {
      NoneAccepted(calls, window);
    } else {
      var a := Accepted(calls, maxReq, window);
      AcceptedSpread(calls, maxReq, window);
      SpreadBounds(a, maxReq, window, t);
    }
  }

  lemma {:induction false} NoneAccepted(calls: seq<Time>, window: Time)
    ensures Accepted(calls, 0, window) == []
  {
    if calls != [] {
      NoneAccepted(calls[..|calls| - 1], window);
    }
  }

  /** In ordered times so spread out, those in a window are a run of at most maxReq. */
  lemma {:induction false} SpreadBounds(a: seq<Time>, maxReq: nat, window: Time, t: Time)
    requires maxReq > 0 && forall i, j :: 0 <= i < j < |a| ==> a[i] <= a[j]
    requires Spread(a, maxReq, window)
    ensures InWindow(a, t, window) <= maxReq
  {
    if a != [] {
      var n := |a| - 1;
      if t <= a[n] < t + window {
        var first := if n >= maxReq then n - maxReq + 1 else 0;
        if n >= maxReq {
          assert a[n] - a[n - maxReq] >= window;
        }
        InWindowAtMost(a, first, t, window);
      } else {
        SpreadBounds(a[..n], maxReq, window, t);
      }
    }
  }

  lemma {:induction false} InWindowAtMost(a: seq<Time>, n: nat, t: Time, window: Time)
    requires n <= |a| && forall i :: 0 <= i < n ==> a[i] < t
    ensures InWindow(a, t, window) <= |a| - n
  {
    if a != [] {
      var m := |a| - 1;
      InWindowAtMost(a[..m], if n <= m then n else m, t, window);
    }
  }

  ghost function Since(times: seq<Time>, lo: Time): set<nat> {
    set i | 0 <= i < |times| && times[i] > lo
  }

  /** A request passes exactly when fewer than maxReq accepted ones are younger than the window. */
  lemma PassesIff(accepted: seq<Time>, now: Time, maxReq: int, window: Time)
    ensures MayPass(accepted, now, maxReq, window) <==> |Since(accepted, now - window)| < maxReq
  {
    CountIsSize(accepted, now - window);
  }

  lemma {:induction false} CountIsSize(times: seq<Time>, lo: Time)
    ensures Count(times, lo) == |Since(times, lo)|
  {
    if times == [] {
      assert Since(times, lo) == {};
    } else {
      var n := |times| - 1;
      CountIsSize(times[..n], lo);
      assert Since(times, lo) == Since(times[..n], lo) + if times[n] > lo then {n} else {};
    }
  }

  // ---- Used ids ----

  /** The rule, on a record that forgets nothing: an id is new again once its time is up. */
  predicate IsNew(record: map<string, Time>, id: string, now: Time) {
    id in record ==> now >= record[id]
  }

  class ReplayMemory {
    var seen: map<string, Time>
    ghost var record: map<string, Time> // never purged
    ghost var last: Time

    ghost predicate Valid()
      reads this
    {
      && (forall id :: id in seen ==> id in record && seen[id] == record[id])
      && (forall id :: id in record && id !in seen ==> record[id] < last)
    }

    constructor (now: Time)
      ensures Valid() && record == map[] && last == now
    {
      seen, record, last := map[], map[], now;
    }

    /** Forgets the ids whose time is over. */
    method DropOld(now: Time)
      modifies this`seen
      ensures forall id :: id in seen <==> id in old(seen) && old(seen)[id] >= now
      ensures forall id :: id in seen ==> seen[id] == old(seen)[id]
    {
      var ids := seen.Keys;
      while ids != {}
        invariant ids <= old(seen).Keys
        invariant forall id :: id in seen ==> id in old(seen) && seen[id] == old(seen)[id]
        invariant forall id :: id in old(seen) ==> (id in seen <==> id in ids || old(seen)[id] >= now)
        decreases |ids|
      {
        var id :| id in ids;
        if id in seen && seen[id] < now {
          seen := seen - {id};
        }
        ids := ids - {id};
      }
    }

    /** Accepts an id exactly when the unpurged record would. */
    method Remember(id: string, until: Time, now: Time) returns (ok: bool)
      requires Valid() && now >= last
      modifies this
      ensures Valid() && last == now
      ensures ok == IsNew(old(record), id, now)
      ensures record == if ok then old(record)[id := until] else old(record)
    {
      last := now;
      if id in seen && now < seen[id] {
        return false;
      }
      DropOld(now);
      seen := seen[id := until];
      record := record[id := until];
      return true;
    }
  }

  datatype Use = Use(id: string, until: Time, now: Time)

  function Remembered(uses: seq<Use>): map<string, Time> {
    if uses == [] then map[]
    else
      var u, before := uses[|uses| - 1], Remembered(uses[..|uses| - 1]);
      if IsNew(before, u.id, u.now) then before[u.id := u.until] else before
  }

  predicate Taken(uses: seq<Use>, i: nat)
    requires i < |uses|
  {
    IsNew(Remembered(uses[..i]), uses[i].id, uses[i].now)
  }

  /** From an accepted use on, the record holds its id, for at least as long unless its time
      has come. */
  lemma {:induction false} HeldUntil(uses: seq<Use>, i: nat)
    requires forall j, k :: 0 <= j < k < |uses| ==> uses[j].now <= uses[k].now
    requires i < |uses| && Taken(uses, i)
    ensures var r, u := Remembered(uses), uses[i];
            u.id in r && (r[u.id] == u.until || uses[|uses| - 1].now >= u.until)
  {
    var n := |uses| - 1;
    if i < n {
      assert uses[..n][..i] == uses[..i];
      HeldUntil(uses[..n], i);
    }
  }

  /** No id is accepted twice before the time recorded with it. */
  lemma NeverTakenTwice(uses: seq<Use>, i: nat, j: nat)
    requires forall j, k :: 0 <= j < k < |uses| ==> uses[j].now <= uses[k].now
    requires i < j < |uses| && uses[i].id == uses[j].id && Taken(uses, i) && Taken(uses, j)
    ensures uses[j].now >= uses[i].until
  {
    assert uses[..j][..i] == uses[..i];
    HeldUntil(uses[..j], i);
  }

  /** An id is accepted exactly when each earlier accepted use of it has run out. */
  lemma TakenIff(uses: seq<Use>, i: nat)
    requires forall j, k :: 0 <= j < k < |uses| ==> uses[j].now <= uses[k].now
    requires i < |uses|
    ensures Taken(uses, i) <==> forall j :: 0 <= j < i && uses[j].id == uses[i].id && Taken(uses, j) ==> uses[i].now >= uses[j].until
  {
    if Taken(uses, i) {
      forall j | 0 <= j < i && uses[j].id == uses[i].id && Taken(uses, j) ensures uses[i].now >= uses[j].until {
        NeverTakenTwice(uses, j, i);
      }
    } else {
      var j := TakenFrom(uses[..i], uses[i].id);
      assert uses[..i][..j] == uses[..j];
    }
  }

  /** What the record holds for an id is from an accepted use of it. */
  lemma {:induction false} TakenFrom(uses: seq<Use>, id: string) returns (j: nat)
    requires id in Remembered(uses)
    ensures j < |uses| && uses[j].id == id && Taken(uses, j) && uses[j].until == Remembered(uses)[id]
    decreases |uses|
  {
    var n := |uses| - 1;
    if uses[n].id == id && IsNew(Remembered(uses[..n]), id, uses[n].now) {
      j := n;
    } else {
      j := TakenFrom(uses[..n], id);
      assert uses[..n][..j] == uses[..j];
    }
  }
}
