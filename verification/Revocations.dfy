/** The in-memory list of revoked users, sessions and services (auth/blocklist.go), shared
    between instances by messages that may repeat and may arrive in any order. */
module Revocations {
  import opened Wrappers

  /** Nanoseconds since the zero time. */
  type Time = int

  const SECOND: Time := 1_000_000_000
  const USER_TOKEN_LIFETIME: Time := 900 * SECOND
  const REVOCATION_MARGIN: Time := 300 * SECOND
  const LEEWAY: Time := 50 * SECOND

  datatype Revocation = Revocation(key: string, at: Time)

  function Truncate(t: Time): Time {
    t - t % SECOND
  }

  /** A token's issue time is whole seconds, so one issued in the second of the revocation
      counts as issued before it. */
  predicate Covered(iat: Time, at: Time) {
    iat <= Truncate(at)
  }

  // ---- The list ----

  predicate News(revoked: map<string, Time>, r: Revocation) {
    r.key !in revoked || r.at > revoked[r.key]
  }

  function Record(revoked: map<string, Time>, r: Revocation): map<string, Time> {
    if News(revoked, r) then revoked[r.key := r.at] else revoked
  }

  /** What is held after a history of revocations. */
  function Latest(history: seq<Revocation>): map<string, Time> {
    if history == [] then map[] else Record(Latest(history[..|history| - 1]), history[|history| - 1])
  }

  /** The revocations of a history that were news when they were recorded. */
  function NewsOf(history: seq<Revocation>): multiset<Revocation> {
    if history == [] then multiset{}
    else
      var r, before := history[|history| - 1], history[..|history| - 1];
      if News(Latest(before), r) then NewsOf(before) + multiset{r} else NewsOf(before)
  }

  lemma PutAndTaken(pending: multiset<Revocation>, r: Revocation)
    ensures pending + multiset{r} - multiset{r} == pending
  {
  }

  /** One more revocation recorded. */
  lemma RecordedOneMore(history: seq<Revocation>, r: Revocation)
    ensures Latest(history + [r]) == Record(Latest(history), r)
    ensures NewsOf(history + [r]) == NewsOf(history) + if News(Latest(history), r) then multiset{r} else multiset{}
  {
    assert (history + [r])[..|history|] == history;
    assert NewsOf(history) + multiset{} == NewsOf(history);
  }

  /** It is news exactly when no earlier one of its key is as late. */
  lemma NewsIff(history: seq<Revocation>, r: Revocation)
    ensures News(Latest(history), r) <==> !exists x :: x in history && x.key == r.key && x.at >= r.at
  {
    LatestIs(history, r.key);
  }

  lemma RecordedAccounts(s: State, r: Revocation)
    ensures Latest(s.history + [r]) == Record(Latest(s.history), r)
    ensures Accounted(s) ==> Accounted(Step(s, Recorded(r)))
  {
    RecordedOneMore(s.history, r);
    var more := if News(Latest(s.history), r) then multiset{r} else multiset{};
    assert multiset(s.told) + (s.pending + more) == (multiset(s.told) + s.pending) + more;
  }

  predicate IsRevocation(r: Revocation) {
    r.at != 0 && ("user:" <= r.key || "sid:" <= r.key || "svc:" <= r.key)
  }

  class BlockList {
    var revoked: map<string, Time>
    var told: seq<Revocation>   // what the listeners heard
    var shared: seq<Revocation> // what was sent to the peers
    ghost var history: seq<Revocation>
    ghost var pending: multiset<Revocation> // recorded, and about to be announced

    ghost predicate Valid()
      reads this
    {
      revoked == Latest(history) && multiset(told) + pending == NewsOf(history)
    }

    /** Where the list stands in the runs below. */
    ghost function Now(): State
      reads this
    {
      State(history, pending, told)
    }

    constructor ()
      ensures Valid() && history == [] && shared == [] && told == [] && pending == multiset{}
    {
      revoked, told, shared, history, pending := map[], [], [], [], multiset{};
    }

    /** The section that holds the mutex. */
    method Record(key: string, at: Time) returns (isNew: bool)
      requires Valid()
      modifies this`revoked, this`history, this`pending
      ensures Valid() && Now() == Step(old(Now()), Recorded(Revocation(key, at)))
      ensures isNew <==> !exists r :: r in old(history) && r.key == key && r.at >= at
      ensures pending == old(pending) + if isNew then multiset{Revocation(key, at)} else multiset{}
    {
      ghost var r := Revocation(key, at);
      isNew := key !in revoked || at > revoked[key];
      NewsIff(history, r);
      RecordedAccounts(Now(), r);
      if isNew {
        revoked := revoked[key := at];
      }
      pending := pending + if isNew then multiset{r} else multiset{};
      history := history + [r];
    }

    /** Tells the listeners, after the mutex is released. */
    method Announce(key: string, at: Time)
      requires Valid() && Revocation(key, at) in pending
      modifies this`told, this`pending
      ensures Valid() && Now() == Step(old(Now()), Announced(Revocation(key, at)))
    {
      told := told + [Revocation(key, at)];
      pending := pending - multiset{Revocation(key, at)};
    }

    /** Records a revocation and, if it is news, announces it. Other goroutines may record and
        announce between the two; that is what the steps below are about. */
    method Apply(key: string, at: Time) returns (isNew: bool)
      requires Valid()
      modifies this`revoked, this`told, this`history, this`pending
      ensures Valid() && history == old(history) + [Revocation(key, at)] && pending == old(pending)
      ensures isNew <==> !exists r :: r in old(history) && r.key == key && r.at >= at
      ensures told == old(told) + if isNew then [Revocation(key, at)] else []
    {
      ghost var before := pending;
      isNew := Record(key, at);
      if isNew {
        assert pending == before + multiset{Revocation(key, at)};
        Announce(key, at);
        PutAndTaken(before, Revocation(key, at));
      }
    }

    /** A peer's message; anything that is not a revocation is refused. */
    method Receive(r: Revocation) returns (ok: bool)
      requires Valid()
      modifies this`revoked, this`told, this`history, this`pending
      ensures Valid() && pending == old(pending) && ok == IsRevocation(r)
      ensures history == if ok then old(history) + [r] else old(history)
    {
      if r.at == 0 || !("user:" <= r.key || "sid:" <= r.key || "svc:" <= r.key) {
        return false;
      }
      var _ := Apply(r.key, r.at);
      return true;
    }

    /** The insert gives the revocation's time, or fails and nothing is blocked or sent. */
    method Revoke(key: string, inserted: Option<Time>) returns (at: Option<Time>)
      requires Valid()
      modifies this
      ensures Valid() && pending == old(pending) && at == inserted
      ensures history == if inserted.Some? then old(history) + [Revocation(key, inserted.value)] else old(history)
      ensures shared == if inserted.Some? then old(shared) + [Revocation(key, inserted.value)] else old(shared)
    {
      if inserted.None? {
        return None;
      }
      var _ := Apply(key, inserted.value);
      shared := shared + [Revocation(key, inserted.value)];
      return inserted;
    }

    /** Applies a revocation, news or not. */
    method Learn(r: Revocation)
      requires Valid()
      modifies this`revoked, this`told, this`history, this`pending
      ensures Valid() && pending == old(pending) && history == old(history) + [r]
    {
      var _ := Apply(r.key, r.at);
    }

    /** The revocations the database still lists, as the instance starts. */
    method Load(list: seq<Revocation>)
      requires Valid()
      modifies this`revoked, this`told, this`history, this`pending
      ensures Valid() && pending == old(pending) && history == old(history) + list
    {
      var i := 0;
      ghost var h0 := history;
      while i < |list|
        invariant 0 <= i <= |list|
        invariant Valid() && pending == old(pending)
        invariant history == h0 + list[..i]
      {
        Learn(list[i]);
        AppendNext(h0, list, i);
        i := i + 1;
      }
      assert list[..i] == list;
    }

    /** Whether a token issued at iat for any of the keys has been revoked. */
    method Blocked(iat: Time, keys: seq<string>) returns (blocked: bool)
      requires Valid()
      ensures blocked == Refused(history, iat, keys)
    {
      blocked := false;
      var i := 0;
      while i < |keys|
        invariant 0 <= i <= |keys|
        invariant !Refused(history, iat, keys[..i])
      {
        var k := keys[i];
        LatestIs(history, k);
        if k in revoked && Covered(iat, revoked[k]) {
          assert Revocation(k, revoked[k]) in history;
          assert k in keys;
          return true;
        }
        forall r | r in history && r.key == k ensures !Covered(iat, r.at) {
          TruncateMonotone(r.at, revoked[k]);
        }
        assert keys[..i + 1] == keys[..i] + [k];
        i := i + 1;
      }
      assert keys[..i] == keys;
    }
  }

  lemma AppendNext(h: seq<Revocation>, list: seq<Revocation>, i: nat)
    requires i < |list|
    ensures h + list[..i + 1] == h + list[..i] + [list[i]]
  {
  }

  /** Some revocation of one of the keys covers iat. */
  ghost predicate Refused(history: seq<Revocation>, iat: Time, keys: seq<string>) {
    exists r :: r in history && r.key in keys && Covered(iat, r.at)
  }

  lemma TruncateMonotone(a: Time, b: Time)
    requires a <= b
    ensures Truncate(a) <= Truncate(b)
  {
    assert a / SECOND <= b / SECOND;
  }

  /** The list holds, for each revoked key, the time of its latest revocation. */
  lemma {:induction false} LatestIs(history: seq<Revocation>, key: string)
    ensures key in Latest(history) <==> exists r :: r in history && r.key == key
    ensures key in Latest(history) ==> Revocation(key, Latest(history)[key]) in history
    ensures forall r :: r in history && r.key == key ==> key in Latest(history) && r.at <= Latest(history)[key]
  {
    if history != [] {
      var n := |history| - 1;
      LatestIs(history[..n], key);
      assert history == history[..n] + [history[n]];
      if history[n].key == key {
        assert history[n] in history;
      }
    }
  }

  /** Instances that know the same revocations hold the same list, however often and in
      whatever order each heard of them. */
  lemma SameRevocationsSameList(a: seq<Revocation>, b: seq<Revocation>)
    requires forall r :: r in a <==> r in b
    ensures Latest(a) == Latest(b)
  {
    forall k ensures k in Latest(a) <==> k in Latest(b) {
      LatestIs(a, k);
      LatestIs(b, k);
    }
    forall k | k in Latest(a) ensures Latest(a)[k] == Latest(b)[k] {
      LatestIs(a, k);
      LatestIs(b, k);
    }
  }

  /** What one instance blocks it goes on blocking, and so does any that knows as much. */
  lemma StaysBlocked(a: seq<Revocation>, b: seq<Revocation>, iat: Time, keys: seq<string>)
    requires Refused(a, iat, keys) && forall r :: r in a ==> r in b
    ensures Refused(b, iat, keys)
    ensures forall earlier: Time :: earlier <= iat ==> Refused(b, earlier, keys)
  {
    var r :| r in a && r.key in keys && Covered(iat, r.at);
    assert r in b;
    assert forall earlier: Time :: earlier <= iat ==> Covered(earlier, r.at);
  }

  ghost predicate Increasing(told: seq<Revocation>) {
    forall i, j :: 0 <= i < j < |told| && told[i].key == told[j].key ==> told[i].at < told[j].at
  }

  /** No revocation is news twice, and of each key the latest was. */
  lemma {:induction false} NewsOnce(history: seq<Revocation>)
    ensures forall r :: NewsOf(history)[r] <= 1
    ensures forall r :: r in NewsOf(history) ==> r in history
    ensures forall k :: k in Latest(history) ==> Revocation(k, Latest(history)[k]) in NewsOf(history)
  {
    if history != [] {
      var n := |history| - 1;
      var before, r := history[..n], history[n];
      NewsOnce(before);
      LatestIs(before, r.key);
      assert history == before + [r];
    }
  }

  // ---- Announcing, with other goroutines between ----

  /** What was recorded, what is recorded but not announced yet, and what listeners heard. */
  datatype State = State(history: seq<Revocation>, pending: multiset<Revocation>, told: seq<Revocation>)

  const START := State([], multiset{}, [])

  datatype Event = Recorded(r: Revocation) | Announced(r: Revocation)

  /** One step of one goroutine. Announcing what is not pending changes nothing. */
  function Step(s: State, e: Event): State {
    match e
    case Recorded(r) => State(s.history + [r], s.pending + (if News(Latest(s.history), r) then multiset{r} else multiset{}), s.told)
    case Announced(r) => if r in s.pending then State(s.history, s.pending - multiset{r}, s.told + [r]) else s
  }

  function Run(es: seq<Event>): State {
    if es == [] then START else Step(Run(es[..|es| - 1]), es[|es| - 1])
  }

  ghost predicate Accounted(s: State) {
    multiset(s.told) + s.pending == NewsOf(s.history)
  }

  lemma {:induction false} RunAccounts(es: seq<Event>)
    ensures Accounted(Run(es))
  {
    if es != [] {
      var s, e := Run(es[..|es| - 1]), es[|es| - 1];
      RunAccounts(es[..|es| - 1]);
      if e.Recorded? {
        RecordedAccounts(s, e.r);
      }
    }
  }

  /** In every run each revocation that was news is announced once or still pending, once, and
      nothing else ever is. When nothing is pending, listeners have heard exactly the news, so
      of every key its latest revocation. */
  lemma AnnouncedOnce(es: seq<Event>, r: Revocation)
    ensures var s := Run(es);
            && multiset(s.told)[r] + s.pending[r] == (if r in NewsOf(s.history) then 1 else 0)
            && (s.pending == multiset{} ==> (r in s.told <==> r in NewsOf(s.history)))
            && (s.pending == multiset{} && r.key in Latest(s.history) ==> Revocation(r.key, Latest(s.history)[r.key]) in s.told)
  {
    var s := Run(es);
    RunAccounts(es);
    NewsOnce(s.history);
    assert r in multiset(s.told) <==> r in s.told;
    if s.pending == multiset{} && r.key in Latest(s.history) {
      assert Revocation(r.key, Latest(s.history)[r.key]) in multiset(s.told);
    }
  }

  /** A later revocation of the key is announced while an earlier one is still pending. */
  ghost predicate Overtakes(s: State, e: Event) {
    e.Announced? && e.r in s.pending && exists p :: p in s.pending && p.key == e.r.key && p.at < e.r.at
  }

  ghost predicate NoneOvertakes(es: seq<Event>) {
    forall i :: 0 <= i < |es| ==> !OvertakesAt(es, i)
  }

  ghost predicate OvertakesAt(es: seq<Event>, i: nat)
    requires i < |es|
  {
    Overtakes(Run(es[..i]), es[i])
  }

  /** So far every key was heard in order, and what is pending of it is later still. */
  ghost predicate InOrder(s: State) {
    Increasing(s.told) && forall t, p :: t in s.told && p in s.pending && t.key == p.key ==> t.at < p.at
  }

  lemma StepInOrder(s: State, e: Event)
    requires Accounted(s) && InOrder(s) && !Overtakes(s, e)
    ensures InOrder(Step(s, e))
  {
    var s' := Step(s, e);
    NewsOnce(s.history);
    if e.Recorded? {
      forall t | t in s.told && t.key == e.r.key && News(Latest(s.history), e.r) ensures t.at < e.r.at {
        assert t in multiset(s.told) && t in NewsOf(s.history);
        LatestIs(s.history, e.r.key);
      }
    } else if e.r in s.pending {
      assert NewsOf(s.history)[e.r] <= 1 && s'.pending[e.r] == 0;
      forall p | p in s'.pending && p.key == e.r.key ensures e.r.at < p.at {
        assert p != e.r && p in s.pending && !(p.at < e.r.at);
      }
    }
  }

  /** Something of a key was heard before something earlier of it that was heard or will be. */
  ghost predicate OutOfOrder(s: State) {
    !Increasing(s.told) || exists t, p :: t in s.told && p in s.pending && t.key == p.key && p.at < t.at
  }

  lemma StepOutOfOrder(s: State, e: Event)
    requires OutOfOrder(s) || Overtakes(s, e)
    ensures OutOfOrder(Step(s, e))
  {
    var s' := Step(s, e);
    if !Increasing(s.told) {
      var i, j :| 0 <= i < j < |s.told| && s.told[i].key == s.told[j].key && !(s.told[i].at < s.told[j].at);
      assert s'.told[i] == s.told[i] && s'.told[j] == s.told[j];
    } else if Overtakes(s, e) {
      var p :| p in s.pending && p.key == e.r.key && p.at < e.r.at;
      assert e.r in s'.told && p in s'.pending;
    } else {
      var t, p :| t in s.told && p in s.pending && t.key == p.key && p.at < t.at;
      assert t in s'.told;
      if p !in s'.pending {
        var i :| 0 <= i < |s.told| && s.told[i] == t;
        assert s'.told[i] == t && s'.told[|s.told|] == p;
      }
    }
  }

  lemma NoneOvertakesBefore(es: seq<Event>)
    requires es != []
    ensures var n := |es| - 1; NoneOvertakes(es) <==> NoneOvertakes(es[..n]) && !Overtakes(Run(es[..n]), es[n])
  {
    var n := |es| - 1;
    forall i | 0 <= i < n ensures OvertakesAt(es, i) <==> OvertakesAt(es[..n], i) {
      assert es[..n][..i] == es[..i];
    }
    assert OvertakesAt(es, n) <==> Overtakes(Run(es[..n]), es[n]);
  }

  lemma {:induction false} OrderOfRun(es: seq<Event>)
    ensures if NoneOvertakes(es) then InOrder(Run(es)) else OutOfOrder(Run(es))
  {
    if es != [] {
      var n := |es| - 1;
      OrderOfRun(es[..n]);
      RunAccounts(es[..n]);
      NoneOvertakesBefore(es);
      if NoneOvertakes(es) {
        StepInOrder(Run(es[..n]), es[n]);
      } else {
        StepOutOfOrder(Run(es[..n]), es[n]);
      }
    }
  }

  /** Once all is announced, listeners have heard strictly later times of each key exactly if no
      announcement overtook an earlier one of its key. */
  lemma HeardInOrderIff(es: seq<Event>)
    requires Run(es).pending == multiset{}
    ensures Increasing(Run(es).told) <==> NoneOvertakes(es)
  {
    OrderOfRun(es);
  }

  /** Two goroutines that apply two revocations of a key can announce them the other way round:
      the listeners hear the later one first, and the earlier one last. */
  lemma HeardLateFirst(key: string, at: Time, later: Time)
    requires at < later
    ensures var early, late := Revocation(key, at), Revocation(key, later);
            var s := Run([Recorded(early), Recorded(late), Announced(late), Announced(early)]);
            s.told == [late, early] && s.pending == multiset{}
  {
    var early, late := Revocation(key, at), Revocation(key, later);
    RunFour(Recorded(early), Recorded(late), Announced(late), Announced(early));
    BothPending(early, late);
    BothAnnounced(State([early, late], multiset{early, late}, []), early, late);
  }

  lemma BothPending(early: Revocation, late: Revocation)
    requires early.key == late.key && early.at < late.at
    ensures Step(Step(START, Recorded(early)), Recorded(late)) == State([early, late], multiset{early, late}, [])
  {
    RecordedOneMore([], early);
    assert [] + [early] == [early];
    assert Step(START, Recorded(early)) == State([early], multiset{early}, []);
    assert News(Latest([early]), late);
  }

  lemma BothAnnounced(s: State, early: Revocation, late: Revocation)
    requires s.pending == multiset{early, late} && s.told == [] && early != late
    ensures var s' := Step(Step(s, Announced(late)), Announced(early)); s'.told == [late, early] && s'.pending == multiset{}
  {
    var s1 := Step(s, Announced(late));
    assert s1.pending == multiset{early} && s1.told == [late];
  }

  lemma RunNext(es: seq<Event>, longer: seq<Event>)
    requires |longer| == |es| + 1 && longer[..|es|] == es
    ensures Run(longer) == Step(Run(es), longer[|es|])
  {
  }

  lemma RunTwo(a: Event, b: Event)
    ensures Run([a, b]) == Step(Step(START, a), b)
  {
    RunNext([], [a]);
    RunNext([a], [a, b]);
  }

  lemma RunFour(a: Event, b: Event, c: Event, d: Event)
    ensures Run([a, b, c, d]) == Step(Step(Step(Step(START, a), b), c), d)
  {
    RunTwo(a, b);
    RunNext([a, b], [a, b, c]);
    RunNext([a, b, c], [a, b, c, d]);
  }

  // ---- Tokens ----

  datatype Use = User | Service | Other

  datatype Claims = Claims(use: Use, subject: string, sid: string, issuedAt: Option<Time>)

  function TokenKeys(c: Claims): seq<string> {
    match c.use
    case User => ["user:" + c.subject] + if c.sid != "" then ["sid:" + c.sid] else []
    case Service => [c.subject]
    case Other => []
  }

  predicate RevocationCovers(r: Revocation, c: Claims) {
    r.key in TokenKeys(c) && (c.issuedAt.None? || Covered(c.issuedAt.value, r.at))
  }

  /** A dated token is refused exactly when one of the revocations covers it, as the listeners
      that close its sockets judge each. */
  lemma RefusedIffCovered(history: seq<Revocation>, c: Claims)
    requires c.issuedAt.Some?
    ensures Refused(history, c.issuedAt.value, TokenKeys(c)) <==> exists r :: r in history && RevocationCovers(r, c)
  {
    if r :| r in history && r.key in TokenKeys(c) && Covered(c.issuedAt.value, r.at) {
      assert RevocationCovers(r, c);
    }
  }

  /** A user, a session and a service never share a key, whatever their names. */
  lemma KeysApart(user: string, sid: string, service: string)
    ensures "user:" + user != "sid:" + sid && "user:" + user != "svc:" + service && "sid:" + sid != "svc:" + service
  {
    assert ("user:" + user)[0] == 'u' && ("sid:" + sid)[1] == 'i' && ("svc:" + service)[1] == 'v';
  }

  /** Peers accept every revocation of a user token's keys, and of a service named as one. */
  lemma PeersAccept(c: Claims, key: string, at: Time)
    requires key in TokenKeys(c) && at != 0 && (c.use.Service? ==> "svc:" <= c.subject)
    ensures IsRevocation(Revocation(key, at))
  {
    if c.use.User? {
      assert "user:" <= "user:" + c.subject && "sid:" <= "sid:" + c.sid;
    }
  }

  /** A token issued at moment t is covered exactly when t is no later than the revocation's
      second, so always when it was issued before the revocation. */
  lemma IssuedBeforeIsCovered(t: Time, at: Time)
    ensures Covered(Truncate(t), at) <==> t / SECOND <= at / SECOND
    ensures t <= at ==> Covered(Truncate(t), at)
  {
    assert Truncate(t) == t / SECOND * SECOND && Truncate(at) == at / SECOND * SECOND;
    if t <= at { TruncateMonotone(t, at); }
  }

  // ---- The window ----

  /** A token issued at moment t, as Issue dates it. */
  function ExpiresAt(t: Time, ttl: Time): Time {
    Truncate(t + ttl)
  }

  predicate Live(t: Time, ttl: Time, now: Time) {
    now < ExpiresAt(t, ttl) + LEEWAY
  }

  function Window(serviceLifetime: Time, margin: Time): Time {
    (if serviceLifetime > USER_TOKEN_LIFETIME then serviceLifetime else USER_TOKEN_LIFETIME) + margin
  }

  /** What the database lists for an instance that starts at start: each key's latest
      revocation inside the window. */
  ghost predicate Recent(list: seq<Revocation>, all: seq<Revocation>, start: Time, window: Time) {
    && (forall r :: r in list ==> r in all && r.at > start - window)
    && (forall r {:trigger HasNoLess(list, r)} :: r in all && r.at > start - window ==> HasNoLess(list, r))
  }

  ghost predicate HasNoLess(list: seq<Revocation>, r: Revocation) {
    exists l :: l in list && l.key == r.key && l.at >= r.at
  }

  /** A revocation the window leaves out covers only tokens that have expired, leeway included. */
  lemma LeftOutIsExpired(r: Revocation, start: Time, serviceLifetime: Time, t: Time, ttl: Time, now: Time)
    requires ttl <= USER_TOKEN_LIFETIME || ttl <= serviceLifetime
    requires r.at <= start - Window(serviceLifetime, REVOCATION_MARGIN) && now >= start
    requires Covered(Truncate(t), r.at)
    ensures !Live(t, ttl, now)
  {
    assert Truncate(r.at) <= r.at && Truncate(t) > t - SECOND && Truncate(t + ttl) <= t + ttl;
  }

  lemma RefusedByEither(a: seq<Revocation>, b: seq<Revocation>, iat: Time, keys: seq<string>)
    ensures Refused(a + b, iat, keys) <==> Refused(a, iat, keys) || Refused(b, iat, keys)
  {
    assert forall r :: r in a + b <==> r in a || r in b;
    if r :| r in a && r.key in keys && Covered(iat, r.at) {
      assert r in a + b;
    }
    if r :| r in b && r.key in keys && Covered(iat, r.at) {
      assert r in a + b;
    }
  }

  lemma CoveredLater(iat: Time, at: Time, later: Time)
    requires Covered(iat, at) && at <= later
    ensures Covered(iat, later)
  {
    TruncateMonotone(at, later);
  }

  lemma ListRefusesToo(all: seq<Revocation>, list: seq<Revocation>, start: Time, window: Time, iat: Time, keys: seq<string>)
    requires Recent(list, all, start, window)
    requires forall r :: r in all && Covered(iat, r.at) ==> r.at > start - window
    ensures Refused(list, iat, keys) <==> Refused(all, iat, keys)
  {
    if r :| r in all && r.key in keys && Covered(iat, r.at) {
      assert HasNoLess(list, r);
      var l :| l in list && l.key == r.key && l.at >= r.at;
      CoveredLater(iat, r.at, l.at);
    }
  }

  /** An instance that loads only what is inside the window, and hears of everything later,
      refuses the same live tokens as one that has the whole history. */
  lemma WindowIsEnough(all: seq<Revocation>, list: seq<Revocation>, later: seq<Revocation>, start: Time, serviceLifetime: Time,
                       t: Time, ttl: Time, now: Time, keys: seq<string>)
    requires ttl <= USER_TOKEN_LIFETIME || ttl <= serviceLifetime
    requires Recent(list, all, start, Window(serviceLifetime, REVOCATION_MARGIN))
    requires now >= start && Live(t, ttl, now)
    ensures Refused(list + later, Truncate(t), keys) <==> Refused(all + later, Truncate(t), keys)
  {
    var iat, window := Truncate(t), Window(serviceLifetime, REVOCATION_MARGIN);
    forall r | r in all && Covered(iat, r.at) ensures r.at > start - window {
      if r.at <= start - window { LeftOutIsExpired(r, start, serviceLifetime, t, ttl, now); }
    }
    ListRefusesToo(all, list, start, window, iat, keys);
    RefusedByEither(list, later, iat, keys);
    RefusedByEither(all, later, iat, keys);
  }

  /** The margin is needed: one of whole seconds is enough for every user token exactly when it
      is no shorter than the leeway. */
  lemma MarginCoversLeeway(margin: Time)
    requires margin >= 0 && margin % SECOND == 0
    ensures margin >= LEEWAY <==>
              forall at: Time, start: Time, t: Time ::
                at <= start - Window(0, margin) && Covered(Truncate(t), at) ==> !Live(t, USER_TOKEN_LIFETIME, start)
  {
    forall t: Time ensures Truncate(t + USER_TOKEN_LIFETIME) == Truncate(t) + USER_TOKEN_LIFETIME {
      assert (t + USER_TOKEN_LIFETIME) % SECOND == t % SECOND;
    }
    if margin < LEEWAY {
      var t, start := 0, Window(0, margin);
      assert Truncate(t) == 0 && start - Window(0, margin) == 0;
      assert Covered(Truncate(t), 0) && Live(t, USER_TOKEN_LIFETIME, start);
    } else {
      forall at: Time, start: Time, t: Time | at <= start - Window(0, margin) && Covered(Truncate(t), at)
        ensures !Live(t, USER_TOKEN_LIFETIME, start)
      {
        assert Truncate(at) <= at;
      }
    }
  }

  // ---- Whose tokens a revocation refuses ----

  /** A dated user token is refused exactly when its user or its session was revoked in a second no
      earlier than the one it was issued in. */
  lemma UserRefusedIff(history: seq<Revocation>, subject: string, sid: string, iat: Time)
    ensures Refused(history, iat, TokenKeys(Claims(User, subject, sid, Some(iat)))) <==>
              exists r :: r in history && (r.key == "user:" + subject || (sid != "" && r.key == "sid:" + sid)) && iat <= r.at / SECOND * SECOND
  {
    var keys := TokenKeys(Claims(User, subject, sid, Some(iat)));
    forall r | r in history
      ensures r.key in keys <==> r.key == "user:" + subject || (sid != "" && r.key == "sid:" + sid)
      ensures Covered(iat, r.at) <==> iat <= r.at / SECOND * SECOND
    {
      assert Truncate(r.at) == r.at / SECOND * SECOND;
      assert keys[0] == "user:" + subject && (sid != "" ==> keys[1] == "sid:" + sid);
    }
  }

  /** A service token exactly when its own subject was; a token of any other use never is. */
  lemma ServiceRefusedIff(history: seq<Revocation>, subject: string, sid: string, iat: Time)
    ensures Refused(history, iat, TokenKeys(Claims(Service, subject, sid, Some(iat)))) <==>
              exists r :: r in history && r.key == subject && iat <= r.at / SECOND * SECOND
    ensures !Refused(history, iat, TokenKeys(Claims(Other, subject, sid, Some(iat))))
  {
    forall r | r in history ensures Covered(iat, r.at) <==> iat <= r.at / SECOND * SECOND {
      assert Truncate(r.at) == r.at / SECOND * SECOND;
    }
  }
}
