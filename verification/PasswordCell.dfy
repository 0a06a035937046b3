/** A user's stored password hash: logins that read it, verify against it and swap it, between
    admin resets (auth/service_auth.go, the statements in globals/sql.go).

    Each statement is one atomic step; any number of requests run between a login's read and
    its write. Hashing salts at random, so each hash made is new. */
module PasswordCell {
  import opened Wrappers

  type Hash = nat
  type Password = string // its bytes, one character for each

  const MIN_PASSWORD := 12

  datatype Row = Row(hash: Option<Hash>, needsNew: bool)

  type Users = map<string, Row>

  // ---- The statements ----

  predicate Stores(users: Users, user: string, hash: Hash) {
    user in users && users[user].hash == Some(hash)
  }

  /** The same users, and every row but this user's unchanged. */
  ghost predicate OthersKept(was: Users, users: Users, user: string) {
    && users.Keys == was.Keys
    && forall u :: u in was && u != user ==> users[u] == was[u]
  }

  function InsertUser(users: Users, user: string, hash: Option<Hash>, needsNew: bool): (Users, bool) {
    if user in users then (users, false) else (users[user := Row(hash, needsNew)], true)
  }

  /** An admin's reset leaves users without a password alone. */
  function ResetPassword(users: Users, user: string, hash: Hash): (Users, bool) {
    if user in users && users[user].hash.Some? then (users[user := Row(Some(hash), true)], true) else (users, false)
  }

  /** The change of a temporary password. */
  function ReplaceTemporary(users: Users, user: string, was: Hash, hash: Hash): (Users, bool) {
    if Stores(users, user, was) && users[user].needsNew then (users[user := Row(Some(hash), false)], true) else (users, false)
  }

  /** The user's own change, and the rehash of an unchanged password. */
  function SwapHash(users: Users, user: string, was: Hash, hash: Hash): (Users, bool) {
    if Stores(users, user, was) then (users[user := users[user].(hash := Some(hash))], true) else (users, false)
  }

  /** What a login keeps of the row it read. */
  datatype Snapshot = Snapshot(user: string, hash: Hash, needsNew: bool)

  class Auth {
    var users: Users

    constructor ()
      ensures users == map[]
    {
      users := map[];
    }

    /** An empty password leaves the user unable to log in with one. */
    method CreateUser(user: string, password: Password, hash: Hash) returns (ok: bool)
      modifies this
      ensures (users, ok) == InsertUser(old(users), user, if password == "" then None else Some(hash), password != "")
      ensures ok <==> user !in old(users)
      ensures users.Keys == old(users).Keys + {user} && forall u :: u in old(users) ==> users[u] == old(users)[u]
      ensures ok && password == "" ==> forall h :: !Stores(users, user, h)
      ensures ok && password != "" ==> Stores(users, user, hash) && users[user].needsNew
    {
      var stored: Option<Hash>, reset := None, false;
      if password != "" {
        stored, reset := Some(hash), true;
      }
      ok := user !in users;
      if ok {
        users := users[user := Row(stored, reset)];
      }
    }

    /** Takes effect exactly for users who have a password; they must then choose a new one, and
        no login that read the old hash can write any more. */
    method ResetUserPassword(user: string, hash: Hash) returns (ok: bool)
      modifies this
      ensures (users, ok) == ResetPassword(old(users), user, hash)
      ensures ok <==> exists was :: Stores(old(users), user, was)
      ensures ok ==> Stores(users, user, hash) && users[user].needsNew
      ensures ok ==> forall was, next :: was != hash ==> !ReplaceTemporary(users, user, was, next).1 && !SwapHash(users, user, was, next).1
      ensures !ok ==> users == old(users)
      ensures OthersKept(old(users), users, user)
    {
      assert forall was :: Stores(users, user, was) ==> users[user].hash.Some?;
      assert user in users && users[user].hash.Some? ==> Stores(users, user, users[user].hash.value);
      ok := user in users && users[user].hash.Some?;
      if ok {
        users := users[user := Row(Some(hash), true)];
      }
    }

    /** The login's write of a chosen password; not ok means the password changed since. It
        never sets the flag, and clears it only for a login that read it set. */
    method UpdatePassword(usr: Snapshot, hash: Hash) returns (ok: bool)
      modifies this
      ensures ok <==> Stores(old(users), usr.user, usr.hash) && (usr.needsNew ==> old(users)[usr.user].needsNew)
      ensures ok ==> Stores(users, usr.user, hash) && (users[usr.user].needsNew <==> !usr.needsNew && old(users)[usr.user].needsNew)
      ensures !ok ==> users == old(users)
      ensures OthersKept(old(users), users, usr.user)
      ensures (users, ok) == if usr.needsNew then ReplaceTemporary(old(users), usr.user, usr.hash, hash)
                             else SwapHash(old(users), usr.user, usr.hash, hash)
    {
      var guard := Stores(users, usr.user, usr.hash);
      if usr.needsNew {
        guard := guard && users[usr.user].needsNew;
      }
      ok := guard;
      if guard {
        users := users[usr.user := Row(Some(hash), !usr.needsNew && users[usr.user].needsNew)];
      }
    }

    /** Writes only over the hash that was read, and never touches the flag. */
    method UpdatePasswordHash(user: string, was: Hash, hash: Hash)
      modifies this
      ensures users == SwapHash(old(users), user, was, hash).0
      ensures Stores(old(users), user, was) ==> Stores(users, user, hash)
      ensures !Stores(old(users), user, was) ==> users == old(users)
      ensures user in users ==> users[user].needsNew == old(users)[user].needsNew
      ensures OthersKept(old(users), users, user)
    {
      if Stores(users, user, was) {
        users := users[user := users[user].(hash := Some(hash))];
      }
    }
  }

  // ---- Runs ----

  datatype Kind = Created | Reset | Changed

  /** The last creation, reset or change of a user's password that took effect. */
  datatype Setting = Setting(password: Password, kind: Kind)

  datatype Phase =
    | Verified(snap: Snapshot, password: Password, writes: nat)
    | Refused
    | Superseded // the password changed since it was read
    | Finished

  /** The users, what each hash ever made is of, the logins in flight, and a record of what
      took effect: each user's last setting, and how often its row was written. */
  datatype State = State(users: Users, of: map<Hash, Password>, logins: map<nat, Phase>,
                         last: map<string, Setting>, writes: map<string, nat>)

  const START := State(map[], map[], map[], map[], map[])

  datatype Event =
    | Create(user: string, password: Password, hash: Hash)
    | AdminReset(user: string, password: Password, hash: Hash)
    | Read(req: nat, user: string, password: Password)
    | Finish(req: nat, newPassword: Password, rehash: bool, hash: Hash)

  function Writes(s: State, user: string): nat {
    if user in s.writes then s.writes[user] else 0
  }

  /** A write that took effect: its hash, and the setting it made if it was not a rehash. */
  function Written(s: State, users: Users, user: string, password: Password, hash: Hash, setting: Option<Setting>): State {
    s.(users := users, of := s.of[hash := password], writes := s.writes[user := Writes(s, user) + 1],
       last := if setting.Some? then s.last[user := setting.value] else s.last)
  }

  /** The new password a login asks for, checked before anything is written. */
  predicate Acceptable(newPassword: Password, password: Password) {
    newPassword != "" && |newPassword| >= MIN_PASSWORD && newPassword != password
  }

  /** One step. A hash that is not new, or an event that does not fit, changes nothing. */
  function Apply(s: State, e: Event): State {
    match e
    case Create(user, password, hash) =>
      if hash in s.of then s
      else
        var (users, ok) := InsertUser(s.users, user, if password == "" then None else Some(hash), password != "");
        if !ok then s
        else if password == "" then s.(users := users)
        else Written(s, users, user, password, hash, Some(Setting(password, Created)))
    case AdminReset(user, password, hash) =>
      if hash in s.of || |password| < MIN_PASSWORD then s
      else
        var (users, ok) := ResetPassword(s.users, user, hash);
        if !ok then s else Written(s, users, user, password, hash, Some(Setting(password, Reset)))
    case Read(req, user, password) =>
      if req in s.logins then s
      else if user in s.users && s.users[user].hash.Some? && s.users[user].hash.value in s.of && s.of[s.users[user].hash.value] == password
      then s.(logins := s.logins[req := Verified(Snapshot(user, s.users[user].hash.value, s.users[user].needsNew), password, Writes(s, user))])
      else s.(logins := s.logins[req := Refused])
    case Finish(req, newPassword, rehash, hash) =>
      if req !in s.logins || !s.logins[req].Verified? || hash in s.of then s
      else
        var snap, password := s.logins[req].snap, s.logins[req].password;
        if snap.needsNew || newPassword != "" then
          if !Acceptable(newPassword, password) then s.(logins := s.logins[req := Refused])
          else
            var (users, ok) := if snap.needsNew then ReplaceTemporary(s.users, snap.user, snap.hash, hash)
                               else SwapHash(s.users, snap.user, snap.hash, hash);
            if ok then Written(s, users, snap.user, newPassword, hash, Some(Setting(newPassword, Changed))).(logins := s.logins[req := Finished])
            else s.(logins := s.logins[req := Superseded])
        else
          var (users, ok) := SwapHash(s.users, snap.user, snap.hash, hash);
          var s' := if rehash && ok then Written(s, users, snap.user, password, hash, None) else s;
          s'.(logins := s.logins[req := Finished])
  }

  function Run(s: State, es: seq<Event>): State
    decreases |es|
  {
    if es == [] then s else Apply(Run(s, es[..|es| - 1]), es[|es| - 1])
  }

  // ---- The invariant ----

  /** The stored hash is of the last password set, and the flag tells how it was set. */
  ghost predicate RowOk(s: State, user: string)
    requires user in s.users
  {
    var row := s.users[user];
    match row.hash
    case None => !row.needsNew && user !in s.last
    case Some(h) =>
      && h in s.of && user in s.last && s.of[h] == s.last[user].password
      && (row.needsNew <==> s.last[user].kind != Changed)
  }

  /** A login's snapshot is still what is stored exactly while the row has not been written. */
  ghost predicate LoginOk(s: State, p: Phase) {
    p.Verified? ==>
      && p.snap.hash in s.of && s.of[p.snap.hash] == p.password
      && p.snap.user in s.users && p.writes <= Writes(s, p.snap.user)
      && (Stores(s.users, p.snap.user, p.snap.hash) <==> p.writes == Writes(s, p.snap.user))
      && (Stores(s.users, p.snap.user, p.snap.hash) ==> s.users[p.snap.user].needsNew == p.snap.needsNew)
  }

  ghost predicate Inv(s: State) {
    && (forall u :: u in s.users ==> RowOk(s, u))
    && (forall u :: u in s.last || u in s.writes ==> u in s.users)
    && (forall r :: r in s.logins ==> LoginOk(s, s.logins[r]))
  }

  /** A write by a new hash to a user's row keeps every login's snapshot in step. */
  lemma WrittenKeeps(s: State, users: Users, user: string, password: Password, hash: Hash, setting: Option<Setting>, needsNew: bool)
    requires Inv(s) && hash !in s.of && users == s.users[user := Row(Some(hash), needsNew)]
    requires setting.Some? ==> setting.value.password == password && (needsNew <==> setting.value.kind != Changed)
    requires setting.None? ==> user in s.last && s.last[user].password == password && (needsNew <==> s.last[user].kind != Changed)
    ensures Inv(Written(s, users, user, password, hash, setting))
  {
    var s' := Written(s, users, user, password, hash, setting);
    forall u | u in s'.users ensures RowOk(s', u) {
      if u != user { assert RowOk(s, u); }
    }
    forall r | r in s'.logins ensures LoginOk(s', s'.logins[r]) {
      assert LoginOk(s, s.logins[r]);
    }
  }

  lemma LoginMoves(s: State, req: nat, p: Phase)
    requires Inv(s) && LoginOk(s, p)
    ensures Inv(s.(logins := s.logins[req := p]))
  {
    var s' := s.(logins := s.logins[req := p]);
    forall u | u in s'.users ensures RowOk(s', u) {
      assert RowOk(s, u);
    }
    forall r | r in s'.logins ensures LoginOk(s', s'.logins[r]) {
      if r != req { assert LoginOk(s, s.logins[r]); } else { assert LoginOk(s, p); }
    }
  }

  lemma CreateKeeps(s: State, user: string, password: Password, hash: Hash)
    requires Inv(s)
    ensures Inv(Apply(s, Create(user, password, hash)))
  {
    if hash !in s.of && user !in s.users {
      if password == "" {
        var s' := s.(users := s.users[user := Row(None, false)]);
        forall u | u in s'.users ensures RowOk(s', u) {
          if u != user { assert RowOk(s, u); }
        }
        forall r | r in s'.logins ensures LoginOk(s', s'.logins[r]) {
          assert LoginOk(s, s.logins[r]);
        }
      } else {
        WrittenKeeps(s, s.users[user := Row(Some(hash), true)], user, password, hash, Some(Setting(password, Created)), true);
      }
    }
  }

  lemma FinishKeeps(s: State, req: nat, newPassword: Password, rehash: bool, hash: Hash)
    requires Inv(s)
    ensures Inv(Apply(s, Finish(req, newPassword, rehash, hash)))
  {
    if req in s.logins && s.logins[req].Verified? && hash !in s.of {
      var snap, password := s.logins[req].snap, s.logins[req].password;
      assert LoginOk(s, s.logins[req]) && RowOk(s, snap.user);
      if snap.needsNew || newPassword != "" {
        if Acceptable(newPassword, password) && Stores(s.users, snap.user, snap.hash) {
          var users := s.users[snap.user := Row(Some(hash), false)];
          WrittenKeeps(s, users, snap.user, newPassword, hash, Some(Setting(newPassword, Changed)), false);
          LoginMoves(Written(s, users, snap.user, newPassword, hash, Some(Setting(newPassword, Changed))), req, Finished);
        } else {
          LoginMoves(s, req, if Acceptable(newPassword, password) then Superseded else Refused);
        }
      } else if rehash && Stores(s.users, snap.user, snap.hash) {
        var users := s.users[snap.user := s.users[snap.user].(hash := Some(hash))];
        WrittenKeeps(s, users, snap.user, password, hash, None, s.users[snap.user].needsNew);
        LoginMoves(Written(s, users, snap.user, password, hash, None), req, Finished);
      } else {
        LoginMoves(s, req, Finished);
      }
    }
  }

  lemma StepKeeps(s: State, e: Event)
    requires Inv(s)
    ensures Inv(Apply(s, e))
  {
    match e
    case Create(user, password, hash) => CreateKeeps(s, user, password, hash);
    case AdminReset(user, password, hash) =>
      if Apply(s, e) != s {
        WrittenKeeps(s, s.users[user := Row(Some(hash), true)], user, password, hash, Some(Setting(password, Reset)), true);
      }
    case Read(req, user, password) =>
      if req !in s.logins {
        LoginMoves(s, req, Apply(s, e).logins[req]);
      }
    case Finish(req, newPassword, rehash, hash) => FinishKeeps(s, req, newPassword, rehash, hash);
  }

  lemma {:induction false} RunKeeps(s: State, es: seq<Event>)
    requires Inv(s)
    ensures Inv(Run(s, es))
    decreases |es|
  {
    if es != [] {
      var n := |es| - 1;
      RunKeeps(s, es[..n]);
      StepKeeps(Run(s, es[..n]), es[n]);
    }
  }

  // ---- What every run keeps ----

  predicate Accepts(s: State, user: string, password: Password) {
    user in s.users && s.users[user].hash.Some? && s.users[user].hash.value in s.of && s.of[s.users[user].hash.value] == password
  }

  /** A login is let in by exactly the password of the last creation, reset or change that took
      effect, whatever rehashes came between. */
  lemma LastSetIsAccepted(es: seq<Event>, user: string, password: Password)
    ensures var s := Run(START, es); Accepts(s, user, password) <==> user in s.last && s.last[user].password == password
  {
    var s := Run(START, es);
    RunKeeps(START, es);
    if user in s.users { assert RowOk(s, user); }
  }

  /** A user must choose a new password exactly when the last setting was a creation or a reset. */
  lemma MustChooseIff(es: seq<Event>, user: string)
    ensures var s := Run(START, es);
            user in s.users ==> (s.users[user].needsNew <==> user in s.last && s.last[user].kind != Changed)
  {
    var s := Run(START, es);
    RunKeeps(START, es);
    if user in s.users { assert RowOk(s, user); }
  }

  /** A login's new password takes effect exactly when it is acceptable and nobody has written
      the row since the login read it. */
  lemma ChangeTakesEffectIff(es: seq<Event>, req: nat, newPassword: Password, rehash: bool, hash: Hash)
    requires var s := Run(START, es); req in s.logins && s.logins[req].Verified? && hash !in s.of
    requires newPassword != ""
    ensures var s := Run(START, es); var p := s.logins[req]; var s' := Apply(s, Finish(req, newPassword, rehash, hash));
            var user := p.snap.user;
            if Acceptable(newPassword, p.password) && Writes(s, user) == p.writes
            then Accepts(s', user, newPassword) && !s'.users[user].needsNew && s'.logins[req] == Finished
            else s'.users == s.users && s'.last == s.last && s'.logins[req] != Finished
  {
    var s := Run(START, es);
    RunKeeps(START, es);
    assert LoginOk(s, s.logins[req]) && RowOk(s, s.logins[req].snap.user);
  }

  /** Without a new password the login changes nobody's password and no flag; it is refused if it
      had to choose one. */
  lemma RehashKeepsPassword(es: seq<Event>, req: nat, rehash: bool, hash: Hash, user: string)
    requires var s := Run(START, es); req in s.logins && s.logins[req].Verified? && hash !in s.of && user in s.users
    ensures var s := Run(START, es); var s' := Apply(s, Finish(req, "", rehash, hash));
            && user in s'.users && s'.users[user].needsNew == s.users[user].needsNew
            && (forall password :: Accepts(s', user, password) <==> Accepts(s, user, password))
            && (s'.logins[req] == Refused <==> s.logins[req].snap.needsNew)
  {
    var s := Run(START, es);
    var e := Finish(req, "", rehash, hash);
    RunKeeps(START, es);
    StepKeeps(s, e);
    assert LoginOk(s, s.logins[req]) && RowOk(s, user) && RowOk(Apply(s, e), user);
    assert Apply(s, e).last == s.last;
  }

  /** Login b has not finished, and its temporary password has been written over since it read. */
  ghost predicate TooLate(s: State, b: nat) {
    && b in s.logins && s.logins[b] != Finished
    && (s.logins[b].Verified? ==> s.logins[b].snap.needsNew && s.logins[b].writes < Writes(s, s.logins[b].snap.user))
  }

  lemma StepStaysTooLate(s: State, e: Event, b: nat)
    requires Inv(s) && TooLate(s, b)
    ensures TooLate(Apply(s, e), b)
  {
    assert LoginOk(s, s.logins[b]);
    if s.logins[b].Verified? {
      assert !Stores(s.users, s.logins[b].snap.user, s.logins[b].snap.hash);
    }
  }

  lemma {:induction false} RunStaysTooLate(s: State, es: seq<Event>, b: nat)
    requires Inv(s) && TooLate(s, b)
    ensures TooLate(Run(s, es), b)
    decreases |es|
  {
    if es != [] {
      var n := |es| - 1;
      RunStaysTooLate(s, es[..n], b);
      RunKeeps(s, es[..n]);
      StepStaysTooLate(Run(s, es[..n]), es[n], b);
    }
  }

  /** Of the logins that read one temporary password, only one gets to replace it: once one of
      them has, no other ever finishes, whatever happens in between. */
  lemma TemporaryUsedOnce(es: seq<Event>, a: nat, b: nat, password: Password, rehash: bool, hash: Hash, later: seq<Event>)
    requires a != b
    requires var s := Run(START, es);
             && a in s.logins && b in s.logins && s.logins[a].Verified? && s.logins[b].Verified?
             && s.logins[a].snap == s.logins[b].snap && s.logins[a].snap.needsNew
    requires Apply(Run(START, es), Finish(a, password, rehash, hash)).logins[a] == Finished
    ensures var s := Run(Apply(Run(START, es), Finish(a, password, rehash, hash)), later);
            b in s.logins && s.logins[b] != Finished
  {
    var s, e := Run(START, es), Finish(a, password, rehash, hash);
    RunKeeps(START, es);
    StepKeeps(s, e);
    assert LoginOk(s, s.logins[a]) && LoginOk(s, s.logins[b]);
    RunStaysTooLate(Apply(s, e), later, b);
  }

  /** While each hash is new, the flag test in the change of a temporary password never decides:
      a stored hash that matches the snapshot comes with the snapshot's flag. */
  lemma FlagFollowsHash(es: seq<Event>, req: nat)
    requires var s := Run(START, es); req in s.logins && s.logins[req].Verified?
    ensures var s := Run(START, es); var snap := s.logins[req].snap;
            Stores(s.users, snap.user, snap.hash) ==> s.users[snap.user].needsNew == snap.needsNew
  {
    RunKeeps(START, es);
    assert LoginOk(Run(START, es), Run(START, es).logins[req]);
  }

  // ---- What each step comes to, in every run ----

  /** A login is let through exactly with the password that was set last, and keeps the one that
      was typed. */
  lemma ReadIff(es: seq<Event>, req: nat, user: string, password: Password)
    requires req !in Run(START, es).logins
    ensures var s := Run(START, es); var s' := Apply(s, Read(req, user, password));
            && req in s'.logins && s'.users == s.users && s'.last == s.last
            && (s'.logins[req].Verified? <==> user in s.last && s.last[user].password == password)
            && (s'.logins[req].Verified? ==>
                  && s'.logins[req].password == password && s'.logins[req].snap.user == user
                  && Stores(s.users, user, s'.logins[req].snap.hash) && s'.logins[req].snap.needsNew == s.users[user].needsNew)
            && (!s'.logins[req].Verified? ==> s'.logins[req] == Refused)
  {
    LastSetIsAccepted(es, user, password);
  }

  /** A new user is let in with the password chosen for them, once, and must then choose their
      own; with an empty one nobody is let in. */
  lemma CreatedIs(es: seq<Event>, user: string, password: Password, hash: Hash)
    requires hash !in Run(START, es).of && user !in Run(START, es).users
    ensures var s := Run(START, es); var s' := Apply(s, Create(user, password, hash));
            && user in s'.users && (s'.users[user].needsNew <==> password != "")
            && forall p :: Accepts(s', user, p) <==> password != "" && p == password
  {
  }

  /** An admin's reset takes effect exactly with a long enough password and for a user who has
      one: then that password alone is let in, must be replaced, and no login that read an
      earlier hash can write any more. */
  lemma AdminResetIff(es: seq<Event>, user: string, password: Password, hash: Hash)
    requires hash !in Run(START, es).of
    ensures var s := Run(START, es); var s' := Apply(s, AdminReset(user, password, hash));
            if |password| >= 12 && user in s.last
            then user in s'.users && s'.users[user].needsNew && (forall p :: Accepts(s', user, p) <==> p == password)
                 && forall req :: req in s'.logins && s'.logins[req].Verified? && s'.logins[req].snap.user == user ==>
                      !Stores(s'.users, user, s'.logins[req].snap.hash)
            else s' == s
  {
    var s := Run(START, es);
    RunKeeps(START, es);
    if user in s.users { assert RowOk(s, user); }
    forall req | req in s.logins && s.logins[req].Verified? ensures s.logins[req].snap.hash != hash {
      assert LoginOk(s, s.logins[req]);
    }
  }

  /** A login that may keep its password ends well whatever happened since, and one that changes it
      is refused for a password that is missing, short or the old one, finishes if nobody wrote
      the row since it was read, and starts over otherwise. */
  lemma FinishIs(es: seq<Event>, req: nat, newPassword: Password, rehash: bool, hash: Hash)
    requires var s := Run(START, es); req in s.logins && s.logins[req].Verified? && hash !in s.of
    ensures var s := Run(START, es); var p := s.logins[req]; var s' := Apply(s, Finish(req, newPassword, rehash, hash));
            var user, unwritten := p.snap.user, Writes(s, p.snap.user) == p.writes;
            && req in s'.logins
            && if !p.snap.needsNew && newPassword == "" then
                 s'.logins[req] == Finished && s'.last == s.last
                 && (if rehash && unwritten then Stores(s'.users, user, hash) else s'.users == s.users)
               else if |newPassword| < 12 || newPassword == p.password then s'.logins[req] == Refused && s'.users == s.users
               else if unwritten then
                 s'.logins[req] == Finished && Stores(s'.users, user, hash) && !s'.users[user].needsNew
                 && forall x :: Accepts(s', user, x) <==> x == newPassword
               else s'.logins[req] == Superseded && s'.users == s.users
  {
    var s := Run(START, es);
    RunKeeps(START, es);
    assert LoginOk(s, s.logins[req]) && RowOk(s, s.logins[req].snap.user);
  }
}
