/** Refresh token rotation (auth/service_auth.go, auth/keystore.go, globals/sql.go).

    Each refresh token is single use: redeeming it marks it used and issues a new one in the
    same family, which is one login session. A used token presented again revokes the whole
    family. Any number of requests run at once, on any number of instances, and interleave
    between their statements.

    Each SQL statement is one atomic step on the table. A row's id is its position, since
    rows are only ever added. */
module RefreshTokens {
  import opened Wrappers

  /** AMR value of a login made through an external identity provider. */
  const FEDERATED := "fed"

  // Lifetimes in seconds
  const REFRESH_LIFETIME := 14 * 24 * 3600
  const FEDERATED_REFRESH_LIFETIME := 24 * 3600

  datatype Token = Token(hash: string, user: string, client: string, family: string, amr: seq<string>,
                         authTime: Option<int>, expiresAt: int, usedAt: Option<int>, revokedAt: Option<int>)
  {
    predicate Live() {
      usedAt.None? && revokedAt.None?
    }

    /** The parts a rotation must carry over unchanged: whose session it is and how it began. */
    predicate SameSession(t: Token) {
      family == t.family && user == t.user && client == t.client && amr == t.amr && authTime == t.authTime
    }
  }

  type Table = seq<Token>

  // ---- The statements, each one atomic ----

  /** Marks a token used; true if this statement is the one that did it. */
  function UseToken(rows: Table, id: nat, now: int): (Table, bool) {
    if id < |rows| && rows[id].Live() && rows[id].expiresAt > now
    then (rows[id := rows[id].(usedAt := Some(now))], true)
    else (rows, false)
  }

  predicate FamilyRevoked(rows: Table, family: string) {
    exists i :: 0 <= i < |rows| && rows[i].family == family && rows[i].revokedAt.Some?
  }

  /** Adds a token, unless its family has a revoked one. */
  function InsertToken(rows: Table, t: Token): (Table, bool) {
    if FamilyRevoked(rows, t.family) then (rows, false) else (rows + [t], true)
  }

  function RevokeFamily(rows: Table, family: string, now: int): Table {
    seq(|rows|, i requires 0 <= i < |rows| =>
      if rows[i].family == family && rows[i].revokedAt.None? then rows[i].(revokedAt := Some(now)) else rows[i])
  }

  function RevokeUser(rows: Table, user: string, now: int): Table {
    seq(|rows|, i requires 0 <= i < |rows| =>
      if rows[i].user == user && rows[i].revokedAt.None? then rows[i].(revokedAt := Some(now)) else rows[i])
  }

  predicate HasFamily(rows: Table, family: string) {
    exists i :: 0 <= i < |rows| && rows[i].family == family
  }

  /** Every chosen row ends up revoked, at its first revocation's time, and nothing else changes. */
  ghost predicate RevokedWhere(was: Table, rows: Table, chosen: Token -> bool, now: int) {
    && |rows| == |was|
    && forall i :: 0 <= i < |was| ==>
         && (!chosen(was[i]) || was[i].revokedAt.Some? ==> rows[i] == was[i])
         && (chosen(was[i]) ==> rows[i].revokedAt.Some? && rows[i].(revokedAt := was[i].revokedAt) == was[i])
         && (chosen(was[i]) && was[i].revokedAt.None? ==> rows[i].revokedAt == Some(now))
  }

  /** When a session's next refresh token expires. Password sessions slide; a session from an
      external identity provider keeps the end it was given at login. */
  function RefreshExpiry(amr: seq<string>, current: Option<Token>, now: int): int {
    if FEDERATED !in amr then now + REFRESH_LIFETIME
    else if current.Some? then current.value.expiresAt
    else now + FEDERATED_REFRESH_LIFETIME
  }

  /** The refresh-token methods of the key store. */
  class KeyStore {
    var rows: Table

    constructor ()
      ensures rows == []
    {
      rows := [];
    }

    /** Adds one row behind the others, which stay; a family with a revoked row takes no more. */
    method SaveRefreshToken(t: Token) returns (saved: bool)
      modifies this
      ensures (rows, saved) == InsertToken(old(rows), t)
      ensures old(rows) <= rows && |rows| == |old(rows)| + if saved then 1 else 0
      ensures saved ==> rows[|old(rows)|] == t
      ensures saved <==> forall i :: 0 <= i < |old(rows)| && old(rows[i]).family == t.family ==> old(rows[i]).revokedAt.None?
    {
      saved := !FamilyRevoked(rows, t.family);
      if saved {
        rows := rows + [t];
      }
    }

    /** Single use: a claim wins only on a live, unexpired row, and no later claim of it wins. */
    method UseRefreshToken(id: nat, now: int) returns (claimed: bool)
      modifies this
      ensures (rows, claimed) == UseToken(old(rows), id, now)
      ensures |rows| == |old(rows)| && forall i :: 0 <= i < |rows| && i != id ==> rows[i] == old(rows[i])
      ensures claimed ==> id < |rows| && old(rows[id]).Live() && rows[id] == old(rows[id]).(usedAt := Some(now))
      ensures claimed ==> forall later :: !UseToken(rows, id, later).1
      ensures !claimed ==> rows == old(rows)
      ensures !claimed && id < |rows| ==> rows[id].usedAt.Some? || rows[id].revokedAt.Some? || rows[id].expiresAt <= now
    {
      claimed := id < |rows| && rows[id].usedAt.None? && rows[id].revokedAt.None? && rows[id].expiresAt > now;
      if claimed {
        rows := rows[id := rows[id].(usedAt := Some(now))];
      }
    }

    /** Ends a session: none of the family's rows can be claimed, and if it has any, none can be
        added. Only rows of the family not yet revoked change, and only in being revoked. */
    method RevokeRefreshFamily(family: string, now: int)
      modifies this
      ensures rows == RevokeFamily(old(rows), family, now)
      ensures RevokedWhere(old(rows), rows, (t: Token) => t.family == family, now)
      ensures forall id, later :: 0 <= id < |rows| && rows[id].family == family ==> !UseToken(rows, id, later).1
      ensures forall t: Token :: t.family == family && HasFamily(old(rows), family) ==> !InsertToken(rows, t).1
    {
      rows := RevokeFamily(rows, family, now);
    }

    /** Ends all of a user's sessions; nobody else's rows change. */
    method RevokeUserRefreshTokens(user: string, now: int)
      modifies this
      ensures rows == RevokeUser(old(rows), user, now)
      ensures RevokedWhere(old(rows), rows, (t: Token) => t.user == user, now)
      ensures forall id, later :: 0 <= id < |rows| && rows[id].user == user ==> !UseToken(rows, id, later).1
      ensures forall i, t: Token :: 0 <= i < |rows| && rows[i].user == user && t.family == rows[i].family ==> !InsertToken(rows, t).1
    {
      rows := RevokeUser(rows, user, now);
    }
  }

  // ---- Requests in flight ----

  /** Where a request stands between two of its statements. */
  datatype Phase =
    | Claiming(id: nat, snap: Token)                // a refresh that read the token and found it good
    | Ending(id: nat)                               // lost the claim: about to revoke the family
    | Ended(id: nat)                                // revoked the family
    | Loading(id: nat, snap: Token)                 // won the claim: about to read the user
    | Refusing(id: nat)                             // the user is disabled or gone: about to revoke their tokens
    | Refused(id: nat)                              // revoked them
    | Issuing(token: Token, source: Option<nat>)    // about to insert: a rotation of source, or a new login
    | Issued(newId: nat, source: Option<nat>)       // inserted
    | Failed                                        // ended with nothing more to do

  datatype State = State(now: int, rows: Table, requests: map<nat, Phase>)

  datatype Event =
    | Tick(to: int)
    | Login(req: nat, user: string, client: string, family: string, amr: seq<string>, hash: string)
    | Present(req: nat, hash: string, client: string)
    | Claim(req: nat)
    | EndReused(req: nat)
    | LoadUser(req: nat, usable: bool, hash: string)
    | EndUser(req: nat)
    | Insert(req: nat)
    | EndSession(family: string)       // logout, or an admin
    | EndAllSessions(user: string)     // logout everywhere, a password change, an admin
    | Abort(req: nat)                  // a database error, or the instance stopped

  /** The token with this hash, if there is one. */
  function Find(rows: Table, hash: string): (r: Option<nat>)
    ensures r.Some? ==> r.value < |rows| && rows[r.value].hash == hash
    ensures r.None? ==> forall i :: 0 <= i < |rows| ==> rows[i].hash != hash
  {
    if rows == [] then None
    else if rows[|rows| - 1].hash == hash then Some(|rows| - 1)
    else Find(rows[..|rows| - 1], hash)
  }

  /** Random values do not repeat: neither stored nor about to be. */
  predicate FreshHash(s: State, hash: string) {
    && (forall i :: 0 <= i < |s.rows| ==> s.rows[i].hash != hash)
    && (forall r :: r in s.requests && s.requests[r].Issuing? ==> s.requests[r].token.hash != hash)
  }

  predicate FreshFamily(s: State, family: string) {
    && (forall i :: 0 <= i < |s.rows| ==> s.rows[i].family != family)
    && (forall r :: r in s.requests && s.requests[r].Issuing? ==> s.requests[r].token.family != family)
  }

  function Goto(s: State, req: nat, p: Phase): State {
    s.(requests := s.requests[req := p])
  }

  /** One step. An event that does not apply changes nothing. */
  function Apply(s: State, e: Event): State {
    match e
    case Tick(to) => if to >= s.now then s.(now := to) else s
    case Login(req, user, client, family, amr, hash) =>
      if req in s.requests || !FreshFamily(s, family) || !FreshHash(s, hash) then s
      else Goto(s, req, Issuing(Token(hash, user, client, family, amr, Some(s.now),
                                      RefreshExpiry(amr, None, s.now), None, None), None))
    case Present(req, hash, client) =>
      if req in s.requests then s
      else Goto(s, req, AfterRead(s.rows, Find(s.rows, hash), client, s.now))
    case Claim(req) =>
      if req !in s.requests || !s.requests[req].Claiming? then s
      else
        var id, snap := s.requests[req].id, s.requests[req].snap;
        var (rows, claimed) := UseToken(s.rows, id, s.now);
        Goto(s.(rows := rows), req, if snap.usedAt.Some? || !claimed then Ending(id) else Loading(id, snap))
    case EndReused(req) =>
      if req !in s.requests || !s.requests[req].Ending? || s.requests[req].id >= |s.rows| then s
      else
        var id := s.requests[req].id;
        Goto(s.(rows := RevokeFamily(s.rows, s.rows[id].family, s.now)), req, Ended(id))
    case LoadUser(req, usable, hash) =>
      if req !in s.requests || !s.requests[req].Loading? then s
      else
        var id, snap := s.requests[req].id, s.requests[req].snap;
        if !usable then Goto(s, req, Refusing(id))
        else if !FreshHash(s, hash) then s
        else Goto(s, req, Issuing(Token(hash, snap.user, snap.client, snap.family, snap.amr, snap.authTime,
                                        RefreshExpiry(snap.amr, Some(snap), s.now), None, None), Some(id)))
    case EndUser(req) =>
      if req !in s.requests || !s.requests[req].Refusing? || s.requests[req].id >= |s.rows| then s
      else
        var id := s.requests[req].id;
        Goto(s.(rows := RevokeUser(s.rows, s.rows[id].user, s.now)), req, Refused(id))
    case Insert(req) =>
      if req !in s.requests || !s.requests[req].Issuing? then s
      else
        var (rows, saved) := InsertToken(s.rows, s.requests[req].token);
        Goto(s.(rows := rows), req, if saved then Issued(|s.rows|, s.requests[req].source) else Failed)
    case EndSession(family) => s.(rows := RevokeFamily(s.rows, family, s.now))
    case EndAllSessions(user) => s.(rows := RevokeUser(s.rows, user, s.now))
    case Abort(req) => if req in s.requests && !s.requests[req].Issued? then Goto(s, req, Failed) else s
  }

  /** The checks between reading a token and claiming it. An unknown token, the wrong client,
      a revoked or an expired token all end the request there. */
  function AfterRead(rows: Table, found: Option<nat>, client: string, now: int): Phase
    requires found.Some? ==> found.value < |rows|
  {
    if found.None? then Failed
    else
      var rt := rows[found.value];
      if rt.client != client || rt.revokedAt.Some? || now > rt.expiresAt then Failed
      else Claiming(found.value, rt)
  }

  function Run(s: State, es: seq<Event>): State
    decreases |es|
  {
    if es == [] then s else Run(Apply(s, es[0]), es[1..])
  }

  const START := State(0, [], map[])

  // ---- What always holds ----

  /** The family a request is about to add a token to. */
  function Pending(p: Phase): Option<string> {
    match p
    case Loading(_, snap) => Some(snap.family)
    case Issuing(t, _) => Some(t.family)
    case _ => None
  }

  /** The token a request redeemed: it won the claim, whatever came of it. */
  function Redeemed(p: Phase): Option<nat> {
    match p
    case Loading(id, _) => Some(id)
    case Refusing(id) => Some(id)
    case Refused(id) => Some(id)
    case Issuing(_, source) => source
    case Issued(_, source) => source
    case _ => None
  }

  ghost predicate NoLive(rows: Table, family: string) {
    forall i :: 0 <= i < |rows| && rows[i].family == family ==> !rows[i].Live()
  }

  /** A federated session's tokens all end a day after the login. */
  ghost predicate Capped(t: Token) {
    FEDERATED in t.amr ==> t.authTime.Some? && t.expiresAt == t.authTime.value + FEDERATED_REFRESH_LIFETIME
  }

  /** Two rows of one family, in the order they were added: one session, the older one used,
      and revoked together. */
  ghost predicate InOrder(older: Token, newer: Token) {
    older.SameSession(newer) && older.usedAt.Some? && (older.revokedAt.Some? <==> newer.revokedAt.Some?)
  }

  ghost predicate RowsOk(rows: Table) {
    && (forall i, j :: 0 <= i < j < |rows| ==> rows[i].hash != rows[j].hash)
    && (forall i, j :: 0 <= i < j < |rows| && rows[i].family == rows[j].family ==> InOrder(rows[i], rows[j]))
    && (forall i :: 0 <= i < |rows| ==> Capped(rows[i]))
  }

  /** What a request read is still true of the row, apart from being used or revoked since. */
  ghost predicate Snapshot(snap: Token, row: Token) {
    && snap.SameSession(row) && snap.hash == row.hash && snap.expiresAt == row.expiresAt
    && (snap.usedAt.Some? ==> row.usedAt.Some?)
  }

  ghost predicate PhaseOk(rows: Table, p: Phase) {
    match p
    case Claiming(id, snap) => id < |rows| && Snapshot(snap, rows[id])
    case Ending(id) => id < |rows|
    case Ended(id) => id < |rows| && rows[id].revokedAt.Some?
    case Loading(id, snap) => id < |rows| && Snapshot(snap, rows[id]) && rows[id].usedAt.Some? && NoLive(rows, snap.family)
    case Refusing(id) => id < |rows| && rows[id].usedAt.Some?
    case Refused(id) => id < |rows| && rows[id].usedAt.Some? && rows[id].revokedAt.Some?
    case Issuing(t, source) =>
      && t.Live() && Capped(t) && NoLive(rows, t.family)
      && (forall i :: 0 <= i < |rows| ==> rows[i].hash != t.hash)
      && (source.None? ==> forall i :: 0 <= i < |rows| ==> rows[i].family != t.family)
      && (source.Some? ==> source.value < |rows| && rows[source.value].usedAt.Some? && rows[source.value].SameSession(t))
    case Issued(newId, source) =>
      newId < |rows| && (source.Some? ==> source.value < newId && rows[source.value].usedAt.Some? && rows[source.value].SameSession(rows[newId]))
    case Failed => true
  }

  /** Two different requests never add to one family, redeem one token or hold one hash. */
  ghost predicate Apart(p: Phase, q: Phase) {
    && (Pending(p).Some? ==> Pending(p) != Pending(q))
    && (Redeemed(p).Some? ==> Redeemed(p) != Redeemed(q))
    && (p.Issuing? && q.Issuing? ==> p.token.hash != q.token.hash)
  }

  ghost predicate Inv(s: State) {
    && RowsOk(s.rows)
    && (forall r :: r in s.requests ==> PhaseOk(s.rows, s.requests[r]))
    && (forall r, q :: r in s.requests && q in s.requests && r != q ==> Apart(s.requests[r], s.requests[q]))
  }

  // ---- Each step keeps it ----

  /** The same rows, perhaps used or revoked since. */
  ghost predicate Advance(rows: Table, rows': Table) {
    && |rows'| == |rows|
    && forall i :: 0 <= i < |rows| ==> Later(rows[i], rows'[i])
  }

  ghost predicate Later(t: Token, t': Token) {
    && t.SameSession(t') && t.hash == t'.hash && t.expiresAt == t'.expiresAt
    && (t.usedAt.Some? ==> t'.usedAt.Some?) && (t.revokedAt.Some? ==> t'.revokedAt.Some?)
  }

  lemma AdvanceKeepsPhase(rows: Table, rows': Table, p: Phase)
    requires Advance(rows, rows') && PhaseOk(rows, p)
    ensures PhaseOk(rows', p)
  {
    var f := Pending(p);
    if f.Some? {
      forall i | 0 <= i < |rows'| && rows'[i].family == f.value ensures !rows'[i].Live() {
        assert Later(rows[i], rows'[i]);
      }
    }
    match p
    case Issuing(t, source) =>
      forall i | 0 <= i < |rows'| ensures rows'[i].hash != t.hash && (source.None? ==> rows'[i].family != t.family) {
        assert Later(rows[i], rows'[i]);
      }
      if source.Some? { assert Later(rows[source.value], rows'[source.value]); }
    case Issued(newId, source) =>
      assert Later(rows[newId], rows'[newId]);
      if source.Some? { assert Later(rows[source.value], rows'[source.value]); }
    case Failed =>
    case _ =>
      assert Later(rows[p.id], rows'[p.id]);
  }

  lemma AdvanceKeepsRows(rows: Table, rows': Table)
    requires RowsOk(rows) && Advance(rows, rows')
    requires forall i, j :: 0 <= i < j < |rows'| && rows'[i].family == rows'[j].family
                            ==> (rows'[i].revokedAt.Some? <==> rows'[j].revokedAt.Some?)
    ensures RowsOk(rows')
  {
    forall i | 0 <= i < |rows'| ensures Later(rows[i], rows'[i]) && Capped(rows'[i]) {
      assert Later(rows[i], rows'[i]) && Capped(rows[i]);
    }
    forall i, j | 0 <= i < j < |rows'| && rows'[i].family == rows'[j].family ensures InOrder(rows'[i], rows'[j]) {
      assert InOrder(rows[i], rows[j]);
    }
  }

  lemma UseKeeps(rows: Table, id: nat, now: int)
    requires RowsOk(rows)
    ensures Advance(rows, UseToken(rows, id, now).0) && RowsOk(UseToken(rows, id, now).0)
  {
    var rows' := UseToken(rows, id, now).0;
    assert forall i, j :: 0 <= i < j < |rows| && rows[i].family == rows[j].family ==> InOrder(rows[i], rows[j]);
    AdvanceKeepsRows(rows, rows');
  }

  lemma RevokeFamilyKeeps(rows: Table, family: string, now: int)
    requires RowsOk(rows)
    ensures Advance(rows, RevokeFamily(rows, family, now)) && RowsOk(RevokeFamily(rows, family, now))
  {
    var rows' := RevokeFamily(rows, family, now);
    forall i, j | 0 <= i < j < |rows'| && rows'[i].family == rows'[j].family
      ensures rows'[i].revokedAt.Some? <==> rows'[j].revokedAt.Some?
    {
      assert InOrder(rows[i], rows[j]);
    }
    AdvanceKeepsRows(rows, rows');
  }

  /** A user's revocation is whole families, since a family has one user. */
  lemma RevokeUserKeeps(rows: Table, user: string, now: int)
    requires RowsOk(rows)
    ensures Advance(rows, RevokeUser(rows, user, now)) && RowsOk(RevokeUser(rows, user, now))
  {
    var rows' := RevokeUser(rows, user, now);
    forall i, j | 0 <= i < j < |rows'| && rows'[i].family == rows'[j].family
      ensures rows'[i].revokedAt.Some? <==> rows'[j].revokedAt.Some?
    {
      assert InOrder(rows[i], rows[j]);
    }
    AdvanceKeepsRows(rows, rows');
  }

  /** Moving the table forward and one request to a phase that fits it keeps everything. */
  lemma MoveKeeps(s: State, rows': Table, req: nat, p: Phase)
    requires Inv(s) && Advance(s.rows, rows') && RowsOk(rows') && PhaseOk(rows', p)
    requires forall q :: q in s.requests && q != req ==> Apart(p, s.requests[q]) && Apart(s.requests[q], p)
    ensures Inv(s.(rows := rows', requests := s.requests[req := p]))
  {
    forall q | q in s.requests ensures PhaseOk(rows', s.requests[q]) {
      AdvanceKeepsPhase(s.rows, rows', s.requests[q]);
    }
  }

  lemma TableKeeps(s: State, rows': Table)
    requires Inv(s) && Advance(s.rows, rows') && RowsOk(rows')
    ensures Inv(s.(rows := rows'))
  {
    forall q | q in s.requests ensures PhaseOk(rows', s.requests[q]) {
      AdvanceKeepsPhase(s.rows, rows', s.requests[q]);
    }
  }

  lemma ClaimKeeps(s: State, req: nat)
    requires Inv(s) && req in s.requests && s.requests[req].Claiming?
    ensures Inv(Apply(s, Claim(req)))
  {
    var id, snap := s.requests[req].id, s.requests[req].snap;
    assert PhaseOk(s.rows, s.requests[req]);
    var (rows', claimed) := UseToken(s.rows, id, s.now);
    UseKeeps(s.rows, id, s.now);
    if claimed {
      forall i | 0 <= i < |rows'| && rows'[i].family == snap.family ensures !rows'[i].Live() {
        if i < id { assert InOrder(s.rows[i], s.rows[id]); }
        if id < i { assert false; }
      }
      forall q | q in s.requests && q != req
        ensures Apart(Loading(id, snap), s.requests[q]) && Apart(s.requests[q], Loading(id, snap))
      {
        assert PhaseOk(s.rows, s.requests[q]);
        assert s.rows[id].Live();
      }
      MoveKeeps(s, rows', req, Loading(id, snap));
    } else {
      MoveKeeps(s, rows', req, Ending(id));
    }
  }

  lemma LoadKeeps(s: State, req: nat, usable: bool, hash: string)
    requires Inv(s) && req in s.requests && s.requests[req].Loading?
    ensures Inv(Apply(s, LoadUser(req, usable, hash)))
  {
    var s' := Apply(s, LoadUser(req, usable, hash));
    var id, snap := s.requests[req].id, s.requests[req].snap;
    assert PhaseOk(s.rows, s.requests[req]) && Capped(s.rows[id]);
    if s' != s {
      var p := s'.requests[req];
      forall q | q in s.requests && q != req ensures Apart(p, s.requests[q]) && Apart(s.requests[q], p) {
        assert Apart(s.requests[req], s.requests[q]) && Apart(s.requests[q], s.requests[req]);
      }
      MoveKeeps(s, s.rows, req, p);
    }
  }

  lemma InsertKeepsRows(rows: Table, t: Token, source: Option<nat>)
    requires RowsOk(rows) && PhaseOk(rows, Issuing(t, source)) && !FamilyRevoked(rows, t.family)
    ensures RowsOk(rows + [t])
    ensures forall i :: 0 <= i < |rows| && rows[i].family == t.family ==> rows[i].usedAt.Some?
    ensures PhaseOk(rows + [t], Issued(|rows|, source))
  {
    forall i | 0 <= i < |rows| && rows[i].family == t.family ensures InOrder(rows[i], t) {
      assert source.Some?;
      var k := source.value;
      if i < k { assert InOrder(rows[i], rows[k]); }
      if k < i { assert InOrder(rows[k], rows[i]); }
    }
  }

  lemma InsertKeepsPhase(rows: Table, t: Token, source: Option<nat>, q: Phase)
    requires PhaseOk(rows, q) && Apart(Issuing(t, source), q)
    ensures PhaseOk(rows + [t], q)
  {
  }

  lemma InsertKeeps(s: State, req: nat)
    requires Inv(s) && req in s.requests && s.requests[req].Issuing?
    ensures Inv(Apply(s, Insert(req)))
  {
    var s' := Apply(s, Insert(req));
    var t, source := s.requests[req].token, s.requests[req].source;
    assert PhaseOk(s.rows, s.requests[req]);
    forall q | q in s.requests && q != req
      ensures Apart(s'.requests[req], s.requests[q]) && Apart(s.requests[q], s'.requests[req])
    {
      assert Apart(s.requests[req], s.requests[q]) && Apart(s.requests[q], s.requests[req]);
    }
    if FamilyRevoked(s.rows, t.family) {
      MoveKeeps(s, s.rows, req, Failed);
    } else {
      InsertGrows(s, req, t, source);
    }
  }

  lemma InsertGrows(s: State, req: nat, t: Token, source: Option<nat>)
    requires Inv(s) && req in s.requests && s.requests[req] == Issuing(t, source) && !FamilyRevoked(s.rows, t.family)
    requires var p := Issued(|s.rows|, source);
             forall q :: q in s.requests && q != req ==> Apart(p, s.requests[q]) && Apart(s.requests[q], p)
    ensures Inv(s.(rows := s.rows + [t], requests := s.requests[req := Issued(|s.rows|, source)]))
  {
    InsertKeepsRows(s.rows, t, source);
    forall q | q in s.requests && q != req ensures PhaseOk(s.rows + [t], s.requests[q]) {
      InsertKeepsPhase(s.rows, t, source, s.requests[q]);
    }
  }

  lemma StartKeeps(s: State, e: Event)
    requires Inv(s) && (e.Login? || e.Present?)
    ensures Inv(Apply(s, e))
  {
    var s' := Apply(s, e);
    if s' != s {
      var p := s'.requests[e.req];
      forall q | q in s.requests ensures Apart(p, s.requests[q]) && Apart(s.requests[q], p) {
        assert PhaseOk(s.rows, s.requests[q]);
        if e.Login? && s.requests[q].Loading? {
          assert s.rows[s.requests[q].id].family == s.requests[q].snap.family;
        }
      }
      MoveKeeps(s, s.rows, e.req, p);
    }
  }

  lemma EndReusedKeeps(s: State, req: nat)
    requires Inv(s) && req in s.requests && s.requests[req].Ending?
    ensures Inv(Apply(s, EndReused(req)))
  {
    var id := s.requests[req].id;
    assert PhaseOk(s.rows, s.requests[req]);
    RevokeFamilyKeeps(s.rows, s.rows[id].family, s.now);
    MoveKeeps(s, RevokeFamily(s.rows, s.rows[id].family, s.now), req, Ended(id));
  }

  lemma EndUserKeeps(s: State, req: nat)
    requires Inv(s) && req in s.requests && s.requests[req].Refusing?
    ensures Inv(Apply(s, EndUser(req)))
  {
    var id := s.requests[req].id;
    assert PhaseOk(s.rows, s.requests[req]);
    forall q | q in s.requests && q != req ensures Apart(Refused(id), s.requests[q]) && Apart(s.requests[q], Refused(id)) {
      assert Apart(s.requests[req], s.requests[q]) && Apart(s.requests[q], s.requests[req]);
    }
    RevokeUserKeeps(s.rows, s.rows[id].user, s.now);
    MoveKeeps(s, RevokeUser(s.rows, s.rows[id].user, s.now), req, Refused(id));
  }

  lemma StepKeeps(s: State, e: Event)
    requires Inv(s)
    ensures Inv(Apply(s, e))
  {
    match e
    case Tick(_) =>
    case Login(_, _, _, _, _, _) => StartKeeps(s, e);
    case Present(_, _, _) => StartKeeps(s, e);
    case Claim(req) => if req in s.requests && s.requests[req].Claiming? { ClaimKeeps(s, req); }
    case EndReused(req) =>
      if req in s.requests && s.requests[req].Ending? { EndReusedKeeps(s, req); }
    case LoadUser(req, usable, hash) =>
      if req in s.requests && s.requests[req].Loading? { LoadKeeps(s, req, usable, hash); }
    case EndUser(req) =>
      if req in s.requests && s.requests[req].Refusing? { EndUserKeeps(s, req); }
    case Insert(req) => if req in s.requests && s.requests[req].Issuing? { InsertKeeps(s, req); }
    case EndSession(family) =>
      RevokeFamilyKeeps(s.rows, family, s.now);
      TableKeeps(s, RevokeFamily(s.rows, family, s.now));
    case EndAllSessions(user) =>
      RevokeUserKeeps(s.rows, user, s.now);
      TableKeeps(s, RevokeUser(s.rows, user, s.now));
    case Abort(req) =>
      if req in s.requests && !s.requests[req].Issued? { MoveKeeps(s, s.rows, req, Failed); }
  }

  lemma {:induction false} RunKeeps(s: State, es: seq<Event>)
    requires Inv(s)
    ensures Inv(Run(s, es))
    decreases |es|
  {
    if es != [] {
      StepKeeps(s, es[0]);
      RunKeeps(Apply(s, es[0]), es[1..]);
    }
  }

  // ---- What it gives, in every interleaving ----

  ghost function LiveRows(s: State, family: string): set<nat> {
    set i | 0 <= i < |s.rows| && s.rows[i].family == family && s.rows[i].Live()
  }

  ghost function PendingRequests(s: State, family: string): set<nat> {
    set r | r in s.requests && Pending(s.requests[r]) == Some(family)
  }

  /** A session never has two tokens that work: its live tokens and the rotations that have
      claimed a token and not yet issued the next are at most one between them. */
  lemma AtMostOneLive(es: seq<Event>, family: string)
    ensures var s := Run(START, es);
            |LiveRows(s, family)| + |PendingRequests(s, family)| <= 1
  {
    var s := Run(START, es);
    RunKeeps(START, es);
    var live, pending := LiveRows(s, family), PendingRequests(s, family);
    forall i, j | 0 <= i < j < |s.rows| && s.rows[i].family == s.rows[j].family ensures s.rows[i].usedAt.Some? {
      assert InOrder(s.rows[i], s.rows[j]);
    }
    forall r, q | r in s.requests && q in s.requests && r != q
      ensures Pending(s.requests[r]).Some? ==> Pending(s.requests[r]) != Pending(s.requests[q])
    {
      assert Apart(s.requests[r], s.requests[q]);
    }
    forall r | r in pending ensures live == {} {
      assert PhaseOk(s.rows, s.requests[r]);
    }
    AtMostOneElement(live);
    AtMostOneElement(pending);
    if pending != {} {
      var r :| r in pending;
      assert live == {};
    }
  }

  lemma AtMostOneElement(x: set<nat>)
    requires forall i, j :: i in x && j in x ==> i == j
    ensures |x| <= 1
  {
    if x != {} {
      var i :| i in x;
      assert x == {i};
    }
  }

  /** A family's tokens are one session, each but the newest was used, and they are all
      revoked or none is. */
  lemma FamilyIsOneSession(es: seq<Event>, i: nat, j: nat)
    requires i < j < |Run(START, es).rows|
    requires Run(START, es).rows[i].family == Run(START, es).rows[j].family
    ensures var rows := Run(START, es).rows;
            && rows[i].SameSession(rows[j])
            && rows[i].usedAt.Some?
            && (rows[i].revokedAt.Some? <==> rows[j].revokedAt.Some?)
  {
    RunKeeps(START, es);
    var rows := Run(START, es).rows;
    assert InOrder(rows[i], rows[j]);
  }

  lemma RevokedTogether(rows: Table, family: string, i: nat)
    requires RowsOk(rows) && FamilyRevoked(rows, family) && i < |rows| && rows[i].family == family
    ensures rows[i].revokedAt.Some?
  {
    var k :| 0 <= k < |rows| && rows[k].family == family && rows[k].revokedAt.Some?;
    if i < k { assert InOrder(rows[i], rows[k]); }
    if k < i { assert InOrder(rows[k], rows[i]); }
  }

  /** Rows are only ever used or revoked further, and kept. */
  lemma {:induction false} RunAdvances(s: State, es: seq<Event>)
    requires Inv(s)
    ensures |s.rows| <= |Run(s, es).rows|
    ensures Advance(s.rows, Run(s, es).rows[..|s.rows|])
    decreases |es|
  {
    if es != [] {
      var s1 := Apply(s, es[0]);
      StepAdvances(s, es[0]);
      StepKeeps(s, es[0]);
      RunAdvances(s1, es[1..]);
      var end := Run(s, es).rows;
      forall i | 0 <= i < |s.rows| ensures Later(s.rows[i], end[i]) {
        assert Later(s.rows[i], s1.rows[i]) && Later(s1.rows[i], end[..|s1.rows|][i]);
      }
    }
  }

  lemma StepAdvances(s: State, e: Event)
    requires Inv(s)
    ensures |s.rows| <= |Apply(s, e).rows| && Advance(s.rows, Apply(s, e).rows[..|s.rows|])
  {
    var rows' := Apply(s, e).rows;
    forall i | 0 <= i < |s.rows| ensures i < |rows'| && Later(s.rows[i], rows'[i]) {
      RowAdvances(s, e, i);
    }
    if s.rows != [] { RowAdvances(s, e, 0); }
  }

  lemma RowAdvances(s: State, e: Event, i: nat)
    requires i < |s.rows|
    ensures |s.rows| <= |Apply(s, e).rows| && Later(s.rows[i], Apply(s, e).rows[i])
  {
    if e.Insert? && Apply(s, e) != s {
      assert Apply(s, e).rows[..|s.rows|] == s.rows;
    }
  }

  /** Once a session is revoked it stays so: no later step of any request leaves it a live
      token, or adds a token to it at all. */
  lemma {:induction false} RevokedForever(s: State, es: seq<Event>, family: string)
    requires Inv(s) && FamilyRevoked(s.rows, family)
    ensures var end := Run(s, es).rows;
            && |s.rows| <= |end|
            && (forall i :: 0 <= i < |end| && end[i].family == family ==> end[i].revokedAt.Some?)
            && (forall i :: |s.rows| <= i < |end| ==> end[i].family != family)
    decreases |es|
  {
    if es == [] {
      forall i | 0 <= i < |s.rows| && s.rows[i].family == family ensures s.rows[i].revokedAt.Some? {
        RevokedTogether(s.rows, family, i);
      }
    } else {
      StepKeeps(s, es[0]);
      RevokedStep(s, es[0], family);
      var s1 := Apply(s, es[0]);
      RevokedForever(s1, es[1..], family);
      RunAdvances(s1, es[1..]);
      var end := Run(s, es).rows;
      forall i | |s.rows| <= i < |s1.rows| ensures end[i].family != family {
        assert Later(s1.rows[i], end[..|s1.rows|][i]);
      }
    }
  }

  lemma RevokedStep(s: State, e: Event, family: string)
    requires Inv(s) && FamilyRevoked(s.rows, family)
    ensures |s.rows| <= |Apply(s, e).rows| && FamilyRevoked(Apply(s, e).rows, family)
    ensures forall i :: |s.rows| <= i < |Apply(s, e).rows| ==> Apply(s, e).rows[i].family != family
  {
    var rows' := Apply(s, e).rows;
    var k :| 0 <= k < |s.rows| && s.rows[k].family == family && s.rows[k].revokedAt.Some?;
    RowAdvances(s, e, k);
    assert rows'[k].family == family && rows'[k].revokedAt.Some?;
  }

  /** A token that lost a claim ends its session: once the request has revoked the family, no
      rotation, however far along, leaves or puts a live token in it. */
  lemma ReuseEndsSession(es: seq<Event>, later: seq<Event>, req: nat)
    requires req in Run(START, es).requests && Run(START, es).requests[req].Ended?
    ensures var s := Run(START, es);
            var id := s.requests[req].id;
            id < |s.rows|
    ensures var s := Run(START, es);
            var family := s.rows[s.requests[req].id].family;
            var end := Run(s, later);
            && LiveRows(end, family) == {}
            && (forall i :: |s.rows| <= i < |end.rows| ==> end.rows[i].family != family)
  {
    var s := Run(START, es);
    RunKeeps(START, es);
    assert PhaseOk(s.rows, s.requests[req]);
    RevokedForever(s, later, s.rows[s.requests[req].id].family);
  }

  /** The same for a user found disabled or gone while rotating. */
  lemma DisabledUserEndsSession(es: seq<Event>, later: seq<Event>, req: nat)
    requires req in Run(START, es).requests && Run(START, es).requests[req].Refused?
    ensures Run(START, es).requests[req].id < |Run(START, es).rows|
    ensures var s := Run(START, es);
            LiveRows(Run(s, later), s.rows[s.requests[req].id].family) == {}
  {
    var s := Run(START, es);
    RunKeeps(START, es);
    assert PhaseOk(s.rows, s.requests[req]);
    RevokedForever(s, later, s.rows[s.requests[req].id].family);
  }

  /** A used token is never redeemed again: whoever holds it redeemed before it was used. */
  lemma {:induction false} UsedNeverRedeemedAgain(s: State, es: seq<Event>, id: nat, req: nat)
    requires Inv(s) && id < |s.rows| && s.rows[id].usedAt.Some?
    requires req in Run(s, es).requests && Redeemed(Run(s, es).requests[req]) == Some(id)
    ensures req in s.requests && Redeemed(s.requests[req]) == Some(id)
    decreases |es|
  {
    if es != [] {
      StepKeeps(s, es[0]);
      UsedStep(s, es[0], id);
      UsedNeverRedeemedAgain(Apply(s, es[0]), es[1..], id, req);
    }
  }

  lemma UsedStep(s: State, e: Event, id: nat)
    requires Inv(s) && id < |s.rows| && s.rows[id].usedAt.Some?
    ensures id < |Apply(s, e).rows| && Apply(s, e).rows[id].usedAt.Some?
    ensures var s' := Apply(s, e);
            forall r :: r in s'.requests && Redeemed(s'.requests[r]) == Some(id)
                        ==> r in s.requests && Redeemed(s.requests[r]) == Some(id)
  {
    RowAdvances(s, e, id);
    var s' := Apply(s, e);
    forall r | r in s'.requests && Redeemed(s'.requests[r]) == Some(id)
      ensures r in s.requests && Redeemed(s.requests[r]) == Some(id)
    {
      RedeemedStep(s, e, id, r);
    }
  }

  lemma RedeemedStep(s: State, e: Event, id: nat, r: nat)
    requires id < |s.rows| && s.rows[id].usedAt.Some?
    requires r in Apply(s, e).requests && Redeemed(Apply(s, e).requests[r]) == Some(id)
    ensures r in s.requests && Redeemed(s.requests[r]) == Some(id)
  {
    match e
    case Claim(req) =>
    case Present(req, hash, client) =>
    case _ =>
  }

  /** Each token has at most one successor, and it carries on the same session. */
  lemma OneSuccessor(es: seq<Event>, r: nat, q: nat)
    requires var reqs := Run(START, es).requests;
             r in reqs && q in reqs && reqs[r].Issued? && reqs[q].Issued?
             && reqs[r].source.Some? && reqs[r].source == reqs[q].source
    ensures r == q
    ensures var s := Run(START, es);
            var newId, id := s.requests[r].newId, s.requests[r].source.value;
            id < newId < |s.rows| && s.rows[id].SameSession(s.rows[newId]) && s.rows[id].usedAt.Some?
  {
    RunKeeps(START, es);
    var s := Run(START, es);
    assert PhaseOk(s.rows, s.requests[r]);
    assert r == q || Apart(s.requests[r], s.requests[q]);
  }

  /** A federated session can be refreshed only within a day of its login, however often it
      was rotated. */
  lemma FederatedSessionCapped(es: seq<Event>, req: nat)
    requires var s := Run(START, es);
             req in s.requests && s.requests[req].Claiming? && FEDERATED in s.requests[req].snap.amr
             && Apply(s, Claim(req)).requests[req].Loading?
    ensures var s := Run(START, es);
            s.requests[req].snap.authTime.Some?
            && s.now < s.requests[req].snap.authTime.value + FEDERATED_REFRESH_LIFETIME
  {
    RunKeeps(START, es);
    var s := Run(START, es);
    assert PhaseOk(s.rows, s.requests[req]) && Capped(s.rows[s.requests[req].id]);
  }

  lemma RunCons(s: State, e: Event, es: seq<Event>)
    ensures Run(s, [e] + es) == Run(Apply(s, e), es)
  {
    assert ([e] + es)[1..] == es;
  }

  lemma RunThree(s: State, e1: Event, e2: Event, e3: Event)
    ensures Run(s, [e1, e2, e3]) == Apply(Apply(Apply(s, e1), e2), e3)
  {
    RunCons(s, e1, [e2, e3]);
    RunCons(Apply(s, e1), e2, [e3]);
    RunCons(Apply(Apply(s, e1), e2), e3, []);
    assert [e1] + [e2, e3] == [e1, e2, e3] && [e2] + [e3] == [e2, e3] && [e3] + [] == [e3];
  }

  /** A good token presented by its own client, with no one else in the way, is exchanged for
      the session's one live token. */
  lemma RotationSucceeds(es: seq<Event>, id: nat, req: nat, hash: string)
    requires var s := Run(START, es);
             && id < |s.rows| && s.rows[id].Live() && s.now < s.rows[id].expiresAt
             && req !in s.requests && FreshHash(s, hash)
    ensures var s := Run(START, es);
            var end := Run(s, [Present(req, s.rows[id].hash, s.rows[id].client), Claim(req), LoadUser(req, true, hash), Insert(req)]);
            && req in end.requests && end.requests[req] == Issued(|s.rows|, Some(id))
            && |end.rows| == |s.rows| + 1
            && end.rows[|s.rows|].hash == hash && end.rows[|s.rows|].SameSession(s.rows[id])
            && LiveRows(end, s.rows[id].family) == {|s.rows|}
  {
    var s := Run(START, es);
    RunKeeps(START, es);
    var e1, e2, e3, e4 := Present(req, s.rows[id].hash, s.rows[id].client), Claim(req), LoadUser(req, true, hash), Insert(req);
    RotationSteps(s, id, req, hash);
    RunCons(s, e1, [e2, e3, e4]);
    RunThree(Apply(s, e1), e2, e3, e4);
    assert [e1] + [e2, e3, e4] == [e1, e2, e3, e4];
  }

  lemma RotationSteps(s: State, id: nat, req: nat, hash: string)
    requires Inv(s) && id < |s.rows| && s.rows[id].Live() && s.now < s.rows[id].expiresAt
    requires req !in s.requests && FreshHash(s, hash)
    ensures var s3 := Apply(Apply(Apply(s, Present(req, s.rows[id].hash, s.rows[id].client)), Claim(req)), LoadUser(req, true, hash));
            var end := Apply(s3, Insert(req));
            && req in end.requests && end.requests[req] == Issued(|s.rows|, Some(id))
            && |end.rows| == |s.rows| + 1
            && end.rows[|s.rows|].hash == hash && end.rows[|s.rows|].SameSession(s.rows[id])
            && LiveRows(end, s.rows[id].family) == {|s.rows|}
  {
    var t := s.rows[id];
    var s2 := Apply(Apply(s, Present(req, t.hash, t.client)), Claim(req));
    RotationClaims(s, id, req, hash);
    var s3 := Apply(s2, LoadUser(req, true, hash));
    StepKeeps(s2, LoadUser(req, true, hash));
    assert PhaseOk(s3.rows, s3.requests[req]);
    if FamilyRevoked(s3.rows, t.family) {
      RevokedTogether(s3.rows, t.family, id);
    }
    var s4 := Apply(s3, Insert(req));
    OnlyLiveIsNew(s3, s4, s3.requests[req].token);
  }

  lemma OnlyLiveIsNew(s: State, s': State, t: Token)
    requires NoLive(s.rows, t.family) && t.Live() && s'.rows == s.rows + [t]
    ensures LiveRows(s', t.family) == {|s.rows|}
  {
  }

  /** The first two steps: the token is found, and claimed for this request. */
  lemma RotationClaims(s: State, id: nat, req: nat, hash: string)
    requires Inv(s) && id < |s.rows| && s.rows[id].Live() && s.now < s.rows[id].expiresAt
    requires req !in s.requests && FreshHash(s, hash)
    ensures var s2 := Apply(Apply(s, Present(req, s.rows[id].hash, s.rows[id].client)), Claim(req));
            && Inv(s2) && FreshHash(s2, hash) && s2.now == s.now
            && req in s2.requests && s2.requests[req] == Loading(id, s.rows[id])
            && s2.rows == s.rows[id := s.rows[id].(usedAt := Some(s.now))]
  {
    var t := s.rows[id];
    FindIs(s.rows, id);
    var s1 := Apply(s, Present(req, t.hash, t.client));
    StepKeeps(s, Present(req, t.hash, t.client));
    StepKeeps(s1, Claim(req));
    assert s1.requests[req] == Claiming(id, t);
  }

  /** Hashes do not repeat, so a presented hash finds its own token. */
  lemma {:induction false} FindIs(rows: Table, id: nat)
    requires id < |rows| && forall i, j :: 0 <= i < j < |rows| ==> rows[i].hash != rows[j].hash
    ensures Find(rows, rows[id].hash) == Some(id)
    decreases |rows|
  {
    if id < |rows| - 1 {
      assert rows[..|rows| - 1][id] == rows[id];
      FindIs(rows[..|rows| - 1], id);
    }
  }

  /** Presenting a used token again, at any moment, ends the session for good. The token must
      not yet have expired, and a revoked one is turned away before the claim. */
  lemma ReplayEndsSession(es: seq<Event>, later: seq<Event>, id: nat, req: nat)
    requires var s := Run(START, es);
             && id < |s.rows| && s.rows[id].usedAt.Some? && s.rows[id].revokedAt.None? && s.now <= s.rows[id].expiresAt
             && req !in s.requests
    ensures var s := Run(START, es);
            var ended := Run(s, [Present(req, s.rows[id].hash, s.rows[id].client), Claim(req), EndReused(req)]);
            && req in ended.requests && ended.requests[req] == Ended(id)
            && LiveRows(Run(ended, later), s.rows[id].family) == {}
  {
    var s := Run(START, es);
    RunKeeps(START, es);
    ReplaySteps(s, id, req);
    RunThree(s, Present(req, s.rows[id].hash, s.rows[id].client), Claim(req), EndReused(req));
    RevokedForever(Run(s, [Present(req, s.rows[id].hash, s.rows[id].client), Claim(req), EndReused(req)]), later, s.rows[id].family);
  }

  lemma ReplaySteps(s: State, id: nat, req: nat)
    requires Inv(s) && req !in s.requests
    requires id < |s.rows| && s.rows[id].usedAt.Some? && s.rows[id].revokedAt.None? && s.now <= s.rows[id].expiresAt
    ensures var s3 := Apply(Apply(Apply(s, Present(req, s.rows[id].hash, s.rows[id].client)), Claim(req)), EndReused(req));
            Inv(s3) && req in s3.requests && s3.requests[req] == Ended(id) && FamilyRevoked(s3.rows, s.rows[id].family)
  {
    var t := s.rows[id];
    FindIs(s.rows, id);
    var s1 := Apply(s, Present(req, t.hash, t.client));
    assert s1 == Goto(s, req, Claiming(id, t));
    var s2 := Apply(s1, Claim(req));
    assert s2 == Goto(s, req, Ending(id));
    var s3 := Apply(s2, EndReused(req));
    StepKeeps(s, Present(req, t.hash, t.client));
    StepKeeps(s1, Claim(req));
    StepKeeps(s2, EndReused(req));
    assert s3.rows[id].family == t.family && s3.rows[id].revokedAt.Some?;
  }

  // ---- What each step of a refresh comes to, in every run ----

  lemma StateOk(es: seq<Event>, req: nat)
    requires req in Run(START, es).requests
    ensures Inv(Run(START, es)) && PhaseOk(Run(START, es).rows, Run(START, es).requests[req])
  {
    RunKeeps(START, es);
  }

  /** A presented token goes on to the claim exactly when it is stored, was issued to this client,
      is not revoked and has not expired; nothing else does. */
  lemma PresentIff(es: seq<Event>, req: nat, hash: string, client: string)
    requires req !in Run(START, es).requests
    ensures var s := Run(START, es); var s' := Apply(s, Present(req, hash, client));
            && s'.rows == s.rows && req in s'.requests
            && (forall i :: 0 <= i < |s.rows| && s.rows[i].hash == hash ==>
                  s'.requests[req] == if s.rows[i].client == client && s.rows[i].revokedAt.None? && s.now <= s.rows[i].expiresAt
                                      then Claiming(i, s.rows[i]) else Failed)
            && ((forall i :: 0 <= i < |s.rows| ==> s.rows[i].hash != hash) ==> s'.requests[req] == Failed)
  {
    var s := Run(START, es);
    RunKeeps(START, es);
    forall i | 0 <= i < |s.rows| && s.rows[i].hash == hash ensures Find(s.rows, hash) == Some(i) {
      FindIs(s.rows, i);
    }
  }

  /** A token that no claim can win any more. */
  predicate Spent(s: State, id: nat) {
    id < |s.rows| && (s.rows[id].usedAt.Some? || s.rows[id].revokedAt.Some? || s.rows[id].expiresAt <= s.now)
  }

  /** A claim wins exactly on a token that is not spent, and spends it; any other is taken for
      reuse. */
  lemma ClaimWinsIff(es: seq<Event>, req: nat)
    requires req in Run(START, es).requests && Run(START, es).requests[req].Claiming?
    ensures var s := Run(START, es); var s' := Apply(s, Claim(req)); var id := s.requests[req].id;
            && id < |s.rows| && req in s'.requests && Spent(s', id)
            && s'.requests[req] == (if Spent(s, id) then Ending(id) else Loading(id, s.requests[req].snap))
            && (Spent(s, id) ==> s'.rows == s.rows)
  {
    StateOk(es, req);
  }

  /** A request that was aborted does nothing more. */
  lemma {:induction false} AbortedStays(s: State, req: nat, es: seq<Event>)
    requires req in s.requests && s.requests[req] == Failed
    ensures req in Run(s, es).requests && Run(s, es).requests[req] == Failed
    decreases |es|
  {
    if es != [] {
      FailedStep(s, req, es[0]);
      AbortedStays(Apply(s, es[0]), req, es[1..]);
    }
  }

  lemma FailedStep(s: State, req: nat, e: Event)
    requires req in s.requests && s.requests[req] == Failed
    ensures req in Apply(s, e).requests && Apply(s, e).requests[req] == Failed
  {
  }

  /** Aborting ends a request that has not issued its token, and touches no token. */
  lemma AbortEnds(s: State, req: nat, es: seq<Event>)
    requires req in s.requests && !s.requests[req].Issued?
    ensures var s' := Apply(s, Abort(req)); s'.rows == s.rows && req in Run(s', es).requests && Run(s', es).requests[req] == Failed
  {
    AbortedStays(Apply(s, Abort(req)), req, es);
  }

  /** Whoever claims a spent token ends its session: after the two steps no later step of any
      request leaves a live token in the family, or adds one. */
  lemma LostClaimEndsSession(es: seq<Event>, req: nat, later: seq<Event>)
    requires var s := Run(START, es); req in s.requests && s.requests[req].Claiming? && Spent(s, s.requests[req].id)
    ensures var s := Run(START, es); var ended := Run(s, [Claim(req), EndReused(req)]);
            && req in ended.requests && ended.requests[req] == Ended(s.requests[req].id)
            && LiveRows(Run(ended, later), s.rows[s.requests[req].id].family) == {}
  {
    StateOk(es, req);
    var s := Run(START, es);
    LostClaimSteps(s, req);
    RunTwo(s, Claim(req), EndReused(req));
    RevokedForever(Run(s, [Claim(req), EndReused(req)]), later, s.rows[s.requests[req].id].family);
  }

  lemma LostClaimSteps(s: State, req: nat)
    requires Inv(s) && req in s.requests && s.requests[req].Claiming? && Spent(s, s.requests[req].id)
    ensures var id := s.requests[req].id; var s2 := Apply(Apply(s, Claim(req)), EndReused(req));
            Inv(s2) && req in s2.requests && s2.requests[req] == Ended(id) && FamilyRevoked(s2.rows, s.rows[id].family)
  {
    var id, s1 := s.requests[req].id, Apply(s, Claim(req));
    assert PhaseOk(s.rows, s.requests[req]);
    assert s1 == Goto(s, req, Ending(id));
    StepKeeps(s, Claim(req));
    StepKeeps(s1, EndReused(req));
    var s2 := Apply(s1, EndReused(req));
    assert s2.rows[id].family == s.rows[id].family && s2.rows[id].revokedAt.Some?;
  }

  lemma RunTwo(s: State, e1: Event, e2: Event)
    ensures Run(s, [e1, e2]) == Apply(Apply(s, e1), e2)
  {
    RunCons(s, e1, [e2]);
    RunCons(Apply(s, e1), e2, []);
    assert [e1] + [e2] == [e1, e2] && [e2] + [] == [e2];
  }

  /** Of two requests that hold one token, once either has claimed it the other's claim, whenever
      it comes, ends the session. */
  lemma SecondClaimEndsSession(es: seq<Event>, a: nat, b: nat, mid: seq<Event>, later: seq<Event>)
    requires var s := Run(START, es); a in s.requests && s.requests[a].Claiming?
    requires var s1 := Run(Apply(Run(START, es), Claim(a)), mid);
             b in s1.requests && s1.requests[b].Claiming? && s1.requests[b].id == Run(START, es).requests[a].id
    ensures var s := Run(START, es); var s1 := Run(Apply(s, Claim(a)), mid);
            var ended := Run(s1, [Claim(b), EndReused(b)]);
            && s.requests[a].id < |s.rows|
            && b in ended.requests && ended.requests[b] == Ended(s.requests[a].id)
            && LiveRows(Run(ended, later), s.rows[s.requests[a].id].family) == {}
  {
    var s, id := Run(START, es), Run(START, es).requests[a].id;
    ClaimWinsIff(es, a);
    RunKeeps(START, es);
    StepKeeps(s, Claim(a));
    var s0 := Apply(s, Claim(a));
    SpentStays(s0, mid, id);
    RunKeeps(s0, mid);
    var s1 := Run(s0, mid);
    LostClaimSteps(s1, b);
    RunTwo(s1, Claim(b), EndReused(b));
    RowAdvances(s, Claim(a), id);
    RevokedForever(Run(s1, [Claim(b), EndReused(b)]), later, s.rows[id].family);
  }

  lemma {:induction false} SpentStays(s: State, es: seq<Event>, id: nat)
    requires Inv(s) && Spent(s, id)
    ensures Spent(Run(s, es), id) && Run(s, es).rows[id].family == s.rows[id].family
    decreases |es|
  {
    if es != [] {
      StepKeeps(s, es[0]);
      RowAdvances(s, es[0], id);
      SpentStays(Apply(s, es[0]), es[1..], id);
    }
  }

  /** A winner whose user cannot be used any more ends every session of that user, not only this
      one. */
  lemma UnusableUserEndsSessions(es: seq<Event>, req: nat, hash: string, i: nat, later: seq<Event>)
    requires var s := Run(START, es); req in s.requests && s.requests[req].Loading?
    requires var s := Run(START, es); i < |s.rows| && s.rows[i].user == s.requests[req].snap.user
    ensures var s := Run(START, es); var ended := Run(s, [LoadUser(req, false, hash), EndUser(req)]);
            && req in ended.requests && ended.requests[req] == Refused(s.requests[req].id)
            && LiveRows(Run(ended, later), s.rows[i].family) == {}
  {
    StateOk(es, req);
    var s := Run(START, es);
    RunTwo(s, LoadUser(req, false, hash), EndUser(req));
    var s1 := Apply(s, LoadUser(req, false, hash));
    var s2 := Apply(s1, EndUser(req));
    StepKeeps(s, LoadUser(req, false, hash));
    StepKeeps(s1, EndUser(req));
    UnusableUserSteps(s, req, hash, i);
    RevokedForever(s2, later, s.rows[i].family);
  }

  lemma UnusableUserSteps(s: State, req: nat, hash: string, i: nat)
    requires req in s.requests && s.requests[req].Loading? && s.requests[req].id < |s.rows|
    requires i < |s.rows| && s.rows[i].user == s.requests[req].snap.user
    requires s.rows[s.requests[req].id].user == s.requests[req].snap.user
    ensures var s' := Apply(Apply(s, LoadUser(req, false, hash)), EndUser(req));
            && req in s'.requests && s'.requests[req] == Refused(s.requests[req].id)
            && |s'.rows| == |s.rows| && s'.rows[i].family == s.rows[i].family && s'.rows[i].revokedAt.Some?
  {
  }

  /** A winner whose user is fine is about to issue a token of the same session: it expires two
      weeks from now, or when the redeemed one would have if the login was federated. */
  lemma LoadedIsIssued(es: seq<Event>, req: nat, hash: string)
    requires var s := Run(START, es); req in s.requests && s.requests[req].Loading? && FreshHash(s, hash)
    ensures var s := Run(START, es); var id := s.requests[req].id; var s' := Apply(s, LoadUser(req, true, hash));
            && id < |s.rows| && s'.rows == s.rows && req in s'.requests && s'.requests[req].Issuing? && s'.requests[req].source == Some(id)
            && var t := s'.requests[req].token;
               && t.hash == hash && t.Live() && t.SameSession(s.rows[id])
               && t.expiresAt == if FEDERATED in s.rows[id].amr then s.rows[id].expiresAt else s.now + 1209600
  {
    StateOk(es, req);
  }

  /** A new login's token is of its own session, begun now. */
  lemma LoginIssues(es: seq<Event>, req: nat, user: string, client: string, family: string, amr: seq<string>, hash: string)
    requires var s := Run(START, es); req !in s.requests && FreshFamily(s, family) && FreshHash(s, hash)
    ensures var s := Run(START, es); var end := Run(s, [Login(req, user, client, family, amr, hash), Insert(req)]);
            && req in end.requests && end.requests[req] == Issued(|s.rows|, None) && |end.rows| == |s.rows| + 1
            && LiveRows(end, family) == {|s.rows|}
            && var t := end.rows[|s.rows|];
               && t.hash == hash && t.user == user && t.client == client && t.family == family && t.amr == amr && t.authTime == Some(s.now)
               && t.expiresAt == s.now + if FEDERATED in amr then 86400 else 1209600
  {
    var s := Run(START, es);
    var e := Login(req, user, client, family, amr, hash);
    RunTwo(s, e, Insert(req));
    var s1 := Apply(s, e);
    assert !FamilyRevoked(s1.rows, family);
    OnlyLiveIsNew(s1, Apply(s1, Insert(req)), s1.requests[req].token);
  }

  /** A token about to be issued is stored exactly when its family has no revoked one, and then is
      the family's one live token. */
  lemma InsertIff(es: seq<Event>, req: nat)
    requires req in Run(START, es).requests && Run(START, es).requests[req].Issuing?
    ensures var s := Run(START, es); var s' := Apply(s, Insert(req)); var t := s.requests[req].token;
            && req in s'.requests
            && if exists i :: 0 <= i < |s.rows| && s.rows[i].family == t.family && s.rows[i].revokedAt.Some?
               then s'.rows == s.rows && s'.requests[req] == Failed
               else s'.rows == s.rows + [t] && s'.requests[req] == Issued(|s.rows|, s.requests[req].source)
                    && LiveRows(s', t.family) == {|s.rows|}
  {
    StateOk(es, req);
    var s := Run(START, es);
    if !FamilyRevoked(s.rows, s.requests[req].token.family) {
      OnlyLiveIsNew(s, Apply(s, Insert(req)), s.requests[req].token);
    }
  }

  /** A logout ends its session for good and leaves other sessions' tokens as they are. */
  lemma EndSessionEnds(es: seq<Event>, family: string, later: seq<Event>)
    requires HasFamily(Run(START, es).rows, family)
    ensures var s := Run(START, es); var ended := Apply(s, EndSession(family));
            && LiveRows(Run(ended, later), family) == {}
            && forall other :: other != family ==> LiveRows(ended, other) == LiveRows(s, other)
  {
    var s := Run(START, es);
    RunKeeps(START, es);
    StepKeeps(s, EndSession(family));
    var ended := Apply(s, EndSession(family));
    var i :| 0 <= i < |s.rows| && s.rows[i].family == family;
    assert ended.rows[i].family == family && ended.rows[i].revokedAt.Some?;
    RevokedForever(ended, later, family);
    forall other | other != family ensures LiveRows(ended, other) == LiveRows(s, other) {
      OtherFamilyStays(s, family, other);
    }
  }

  lemma OtherFamilyStays(s: State, family: string, other: string)
    requires other != family
    ensures LiveRows(Apply(s, EndSession(family)), other) == LiveRows(s, other)
  {
  }

  /** A logout everywhere ends each of the user's sessions, and nobody else's. */
  lemma EndAllSessionsEnds(es: seq<Event>, user: string, i: nat, later: seq<Event>)
    requires i < |Run(START, es).rows| && Run(START, es).rows[i].user == user
    ensures var s := Run(START, es); var ended := Apply(s, EndAllSessions(user));
            && LiveRows(Run(ended, later), s.rows[i].family) == {}
            && |ended.rows| == |s.rows| && forall k :: 0 <= k < |s.rows| && s.rows[k].user != user ==> ended.rows[k] == s.rows[k]
  {
    var s := Run(START, es);
    RunKeeps(START, es);
    StepKeeps(s, EndAllSessions(user));
    var ended := Apply(s, EndAllSessions(user));
    assert ended.rows[i].family == s.rows[i].family && ended.rows[i].revokedAt.Some?;
    RevokedForever(ended, later, s.rows[i].family);
  }
}
