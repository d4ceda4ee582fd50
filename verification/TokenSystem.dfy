/** Refresh and Logout requests interleaving on one token table and one blacklist. Each SQL statement
    and each Redis command is atomic; anything may happen between two of them, any
    statement may fail, with or without having taken effect, and Redis may be down. */
module TokenSystem {
  import opened Wrappers
  import opened TokenStore

  datatype Pc =
    | Asked(token: string)                                                      // Refresh: blacklist check next
    | Cleared(token: string)                                                    // claims query next
    | Claimed(token: string, claims: Claims)                                    // revoking update next
    | Revoked(token: string, heir: string, row: Row, claims: Claims)           // Redis SET next
    | Inserting(token: string, heir: string, row: Row, claims: Claims)         // insert next
    | Leaving(token: string)                                                    // Logout: revoking update next
    | Left(token: string, row: Row)                                             // Redis SET next
    | Accepted(token: string, heir: string, claims: Claims)
    | Rejected
    | LoggedOut

  /** `minted` holds every token ever generated, `logins` the claims of every sign-in. */
  datatype Sys = Sys(now: int, rows: map<string, Row>, blacklist: map<string, int>,
                     logins: seq<Claims>, minted: set<string>, reqs: map<nat, Pc>)

  /** Redis answers or does not. Before a token is listed its remaining time is computed; `lag` is how long ago that was when
      the command arrives. */
  datatype Redis = Up(lag: nat) | Down

  datatype Action =
    | SignIn(token: string, claims: Claims, ttl: int)
    | Refresh(id: nat, token: string)
    | Logout(id: nat, token: string)
    | Step(id: nat, db: Db, redis: Redis, heir: string, ttl: int)
    | Tick(elapsed: nat)

  const INIT := Sys(0, map[], map[], [], {}, map[])

  /** Between revoking the old row and inserting the new one. */
  predicate Rotating(pc: Pc) {
    pc.Revoked? || pc.Inserting?
  }

  function At(s: Sys, id: nat, pc: Pc): Sys {
    s.(reqs := s.reqs[id := pc])
  }

  function CheckStep(check: bool, s: Sys, id: nat, token: string, redis: Redis): Sys {
    At(s, id, if check && (redis.Down? || Listed(s.blacklist, token, s.now)) then Rejected else Cleared(token))
  }

  function ClaimsStep(s: Sys, id: nat, token: string, db: Db): Sys {
    var found := ActiveClaims(s.rows, token, s.now);
    At(s, id, if db.Done? && found.Some? then Claimed(token, found.value) else Rejected)
  }

  /** The new token is random: one that was generated before cannot come up. */
  function RotateStep(s: Sys, id: nat, token: string, claims: Claims, db: Db, heir: string): Sys {
    if heir in s.minted then s
    else
      var s1 := s.(minted := s.minted + {heir});
      if db == Lost(false) || !Unrevoked(s.rows, token) then At(s1, id, Rejected)
      else
        var s2 := s1.(rows := RevokeRow(s.rows, token));
        At(s2, id, if db.Done? then Revoked(token, heir, s.rows[token], claims) else Rejected)
  }

  function ListStep(s: Sys, id: nat, token: string, row: Row, redis: Redis, next: Pc): Sys {
    At(if redis.Up? then s.(blacklist := AddListed(s.blacklist, token, row.expiresAt, s.now - redis.lag, s.now)) else s, id, next)
  }

  function InsertStep(s: Sys, id: nat, token: string, heir: string, row: Row, claims: Claims, db: Db, ttl: int): Sys {
    if db == Lost(false) then At(s, id, Rejected)
    else
      var s1 := s.(rows := s.rows[heir := Row(row.claims, s.now + ttl, false, row.login, Some(token))]);
      At(s1, id, if db.Done? then Accepted(token, heir, claims) else Rejected)
  }

  function LeaveStep(s: Sys, id: nat, token: string, db: Db): Sys {
    if db == Lost(false) || !Unrevoked(s.rows, token) then At(s, id, LoggedOut)
    else At(s.(rows := RevokeRow(s.rows, token)), id, if db.Done? then Left(token, s.rows[token]) else LoggedOut)
  }

  /** `check` says whether the handler consults the blacklist; the program does. */
  function StepReq(check: bool, s: Sys, id: nat, db: Db, redis: Redis, heir: string, ttl: int): Sys
    requires id in s.reqs
  {
    match s.reqs[id]
    case Asked(t) => CheckStep(check, s, id, t, redis)
    case Cleared(t) => ClaimsStep(s, id, t, db)
    case Claimed(t, c) => RotateStep(s, id, t, c, db, heir)
    case Revoked(t, f, row, c) => ListStep(s, id, t, row, redis, Inserting(t, f, row, c))
    case Inserting(t, f, row, c) => InsertStep(s, id, t, f, row, c, db, ttl)
    case Leaving(t) => LeaveStep(s, id, t, db)
    case Left(t, row) => ListStep(s, id, t, row, redis, LoggedOut)
    case _ => s
  }

  function SignInStep(s: Sys, token: string, claims: Claims, ttl: int): Sys {
    if token in s.minted then s
    else s.(rows := s.rows[token := Row(claims, s.now + ttl, false, |s.logins|, None)],
            logins := s.logins + [claims], minted := s.minted + {token})
  }

  function Next(check: bool, s: Sys, a: Action): Sys {
    match a
    case SignIn(token, claims, ttl) => SignInStep(s, token, claims, ttl)
    case Refresh(id, token) => if id in s.reqs then s else At(s, id, Asked(token))
    case Logout(id, token) => if id in s.reqs then s else At(s, id, Leaving(token))
    case Step(id, db, redis, heir, ttl) => if id in s.reqs then StepReq(check, s, id, db, redis, heir, ttl) else s
    case Tick(elapsed) => s.(now := s.now + elapsed)
  }

  function ExecFrom(check: bool, s: Sys, acts: seq<Action>): Sys
    decreases |acts|
  {
    if acts == [] then s else ExecFrom(check, Next(check, s, acts[0]), acts[1..])
  }

  function Exec(check: bool, acts: seq<Action>): Sys {
    ExecFrom(check, INIT, acts)
  }

  // ----- The invariant -----

  ghost predicate RowsOk(s: Sys) {
    forall t | t in s.rows ::
      var r := s.rows[t];
      && t in s.minted
      && r.login < |s.logins| && r.claims == s.logins[r.login]
      && (r.parent.Some? ==> r.parent.value in s.rows && s.rows[r.parent.value].revoked && s.rows[r.parent.value].login == r.login)
  }

  predicate ReqOk(s: Sys, pc: Pc) {
    match pc
    case Claimed(t, c) => t in s.rows && c == s.rows[t].claims
    case Revoked(t, f, row, c) => RotationOk(s, t, f, row, c)
    case Inserting(t, f, row, c) => RotationOk(s, t, f, row, c)
    case Left(t, row) => t in s.rows && s.rows[t] == row.(revoked := true)
    case Accepted(t, f, c) => f in s.rows && s.rows[f].parent == Some(t) && s.rows[f].claims == c
    case _ => true
  }

  predicate RotationOk(s: Sys, t: string, f: string, row: Row, c: Claims) {
    t in s.rows && s.rows[t] == row.(revoked := true) && c == row.claims && f in s.minted && f !in s.rows
  }

  ghost predicate ReqsOk(s: Sys) {
    forall id | id in s.reqs :: ReqOk(s, s.reqs[id])
  }

  /** Redis never knows more than the database. */
  ghost predicate BlacklistOk(s: Sys) {
    forall t | t in s.blacklist :: t in s.rows && s.rows[t].revoked && s.blacklist[t] >= s.rows[t].expiresAt
  }

  /** A token has one heir at most, counting the one a rotation is about to insert. */
  ghost predicate OneHeir(s: Sys) {
    && (forall c, d | c in s.rows && d in s.rows && c != d && s.rows[c].parent.Some? :: s.rows[c].parent != s.rows[d].parent)
    && (forall c, id | c in s.rows && id in s.reqs && Rotating(s.reqs[id]) :: s.rows[c].parent != Some(s.reqs[id].token))
  }

  /** A sign-in has one live end at most: an unrevoked row, or a rotation under way. */
  ghost predicate OneEnd(s: Sys) {
    && (forall t, u | t in s.rows && u in s.rows && t != u && !s.rows[t].revoked && !s.rows[u].revoked ::
          s.rows[t].login != s.rows[u].login)
    && (forall t, id | t in s.rows && !s.rows[t].revoked && id in s.reqs && Rotating(s.reqs[id]) ::
          s.rows[t].login != s.reqs[id].row.login)
    && (forall i, j | i in s.reqs && j in s.reqs && i != j && Rotating(s.reqs[i]) && Rotating(s.reqs[j]) ::
          s.reqs[i].row.login != s.reqs[j].row.login)
  }

  /** Requests that took a new token, whether it is in the table yet or not. */
  predicate Minting(pc: Pc) {
    Rotating(pc) || pc.Accepted?
  }

  ghost predicate HeirsDiffer(s: Sys) {
    forall i, j | i in s.reqs && j in s.reqs && i != j && Minting(s.reqs[i]) && Minting(s.reqs[j]) :: s.reqs[i].heir != s.reqs[j].heir
  }

  ghost predicate Inv(s: Sys) {
    RowsOk(s) && ReqsOk(s) && BlacklistOk(s) && OneHeir(s) && OneEnd(s) && HeirsDiffer(s)
  }

  /** No step gives a request a token that another request has. */
  lemma StepKeepsHeirsApart(s: Sys, s': Sys, id: nat, pc: Pc)
    requires RowsOk(s) && ReqsOk(s) && HeirsDiffer(s)
    requires s'.reqs == s.reqs[id := pc]
    requires Minting(pc) ==> pc.heir !in s.minted || (id in s.reqs && Minting(s.reqs[id]) && pc.heir == s.reqs[id].heir)
    ensures HeirsDiffer(s')
  {
    forall i | i in s.reqs && Minting(s.reqs[i]) ensures s.reqs[i].heir in s.minted {
      assert ReqOk(s, s.reqs[i]);
    }
  }

  /** Steps that leave the table alone. A request may not become a rotation in such a step. */
  lemma QuietKeepsInv(s: Sys, s': Sys, id: nat, pc: Pc)
    requires Inv(s)
    requires s'.rows == s.rows && s'.logins == s.logins && s.minted <= s'.minted && BlacklistOk(s')
    requires s'.reqs == s.reqs[id := pc]
    requires ReqOk(s, pc)
    requires Rotating(pc) ==> id in s.reqs && SameRotation(pc, s.reqs[id])
    requires !pc.Accepted?
    ensures Inv(s')
  {
    StepKeepsHeirsApart(s, s', id, pc);
    QuietKeepsReqs(s, s', id, pc);
    QuietKeepsHeirs(s, s', id, pc);
    QuietKeepsEnds(s, s', id, pc);
  }

  predicate SameRotation(p: Pc, q: Pc) {
    Rotating(p) && Rotating(q) && p.token == q.token && p.row == q.row && p.heir == q.heir
  }

  lemma QuietKeepsReqs(s: Sys, s': Sys, id: nat, pc: Pc)
    requires ReqsOk(s) && s'.rows == s.rows && s.minted <= s'.minted && s'.reqs == s.reqs[id := pc] && ReqOk(s, pc)
    ensures ReqsOk(s')
  {
    forall i | i in s'.reqs ensures ReqOk(s', s'.reqs[i]) {
      assert i != id ==> ReqOk(s, s.reqs[i]);
    }
  }

  lemma QuietKeepsHeirs(s: Sys, s': Sys, id: nat, pc: Pc)
    requires OneHeir(s) && s'.rows == s.rows && s'.reqs == s.reqs[id := pc]
    requires Rotating(pc) ==> id in s.reqs && SameRotation(pc, s.reqs[id])
    ensures OneHeir(s')
  {
  }

  lemma QuietKeepsEnds(s: Sys, s': Sys, id: nat, pc: Pc)
    requires OneEnd(s) && s'.rows == s.rows && s'.reqs == s.reqs[id := pc]
    requires Rotating(pc) ==> id in s.reqs && SameRotation(pc, s.reqs[id])
    ensures OneEnd(s')
  {
  }

  /** Revoking a row, for a logout or as the first half of a rotation. */
  lemma RevokeKeepsInv(s: Sys, s': Sys, id: nat, token: string, pc: Pc)
    requires Inv(s) && id in s.reqs && !Rotating(s.reqs[id])
    requires Unrevoked(s.rows, token)
    requires s'.rows == RevokeRow(s.rows, token) && s'.logins == s.logins && s.minted <= s'.minted && s'.blacklist == s.blacklist
    requires s'.reqs == s.reqs[id := pc]
    requires ReqOk(s', pc) && !pc.Accepted?
    requires Rotating(pc) ==> pc.token == token && pc.row == s.rows[token] && pc.heir !in s.minted
    ensures Inv(s')
  {
    RevokeKeepsTable(s, s', token);
    RevokeKeepsReqs(s, s', id, token, pc);
    StepKeepsHeirsApart(s, s', id, pc);
    RevokeKeepsOneHeir(s, s', id, token, pc);
    RevokeKeepsOneEnd(s, s', id, token, pc);
  }

  lemma RevokeKeepsTable(s: Sys, s': Sys, token: string)
    requires RowsOk(s) && BlacklistOk(s) && Unrevoked(s.rows, token)
    requires s'.rows == RevokeRow(s.rows, token) && s'.logins == s.logins && s.minted <= s'.minted && s'.blacklist == s.blacklist
    ensures RowsOk(s') && BlacklistOk(s')
  {
  }

  lemma RevokeKeepsReqs(s: Sys, s': Sys, id: nat, token: string, pc: Pc)
    requires ReqsOk(s) && Unrevoked(s.rows, token)
    requires s'.rows == RevokeRow(s.rows, token) && s.minted <= s'.minted
    requires s'.reqs == s.reqs[id := pc] && ReqOk(s', pc)
    ensures ReqsOk(s')
  {
    forall i | i in s'.reqs ensures ReqOk(s', s'.reqs[i]) {
      assert i != id ==> ReqOk(s, s.reqs[i]);
    }
  }

  lemma RevokeKeepsOneHeir(s: Sys, s': Sys, id: nat, token: string, pc: Pc)
    requires Inv(s)
    requires Unrevoked(s.rows, token) && s'.rows == RevokeRow(s.rows, token) && s'.reqs == s.reqs[id := pc]
    requires Rotating(pc) ==> pc.token == token
    ensures OneHeir(s')
  {
    forall c | c in s.rows ensures s.rows[c].parent != Some(token) {
    }
  }

  lemma RevokeKeepsOneEnd(s: Sys, s': Sys, id: nat, token: string, pc: Pc)
    requires Inv(s)
    requires Unrevoked(s.rows, token) && s'.rows == RevokeRow(s.rows, token) && s'.reqs == s.reqs[id := pc]
    requires Rotating(pc) ==> pc.row == s.rows[token] && pc.heir !in s.minted
    ensures OneEnd(s')
  {
    forall i | i in s.reqs && Rotating(s.reqs[i]) ensures s.reqs[i].heir in s.minted {
      assert ReqOk(s, s.reqs[i]);
    }
  }

  /** Adding a row, for a sign-in or as the second half of a rotation, conjunct by conjunct. */
  lemma AddKeepsRows(s: Sys, s': Sys, k: string, r: Row)
    requires RowsOk(s) && k !in s.rows
    requires s'.rows == s.rows[k := r] && s.logins <= s'.logins && s.minted <= s'.minted && k in s'.minted
    requires r.login < |s'.logins| && r.claims == s'.logins[r.login]
    requires r.parent.Some? ==> r.parent.value in s.rows && s.rows[r.parent.value].revoked && s.rows[r.parent.value].login == r.login
    ensures RowsOk(s')
  {
  }

  lemma AddKeepsReqs(s: Sys, s': Sys, k: string, r: Row, id: nat)
    requires ReqsOk(s) && k !in s.rows
    requires s'.rows == s.rows[k := r] && s.minted <= s'.minted
    requires forall i | i in s'.reqs && i != id :: i in s.reqs && s'.reqs[i] == s.reqs[i]
    requires forall i | i in s.reqs && i != id && Rotating(s.reqs[i]) :: s.reqs[i].heir != k
    requires id in s'.reqs ==> ReqOk(s', s'.reqs[id])
    ensures ReqsOk(s')
  {
    forall i | i in s'.reqs ensures ReqOk(s', s'.reqs[i]) {
      assert i != id ==> ReqOk(s, s.reqs[i]);
    }
  }

  lemma AddKeepsHeirs(s: Sys, s': Sys, k: string, r: Row)
    requires OneHeir(s) && k !in s.rows
    requires s'.rows == s.rows[k := r]
    requires forall i | i in s'.reqs && Rotating(s'.reqs[i]) :: i in s.reqs && s'.reqs[i] == s.reqs[i]
    requires r.parent.Some? ==> forall c | c in s.rows :: s.rows[c].parent != r.parent
    requires r.parent.Some? ==> forall i | i in s'.reqs && Rotating(s'.reqs[i]) :: Some(s'.reqs[i].token) != r.parent
    ensures OneHeir(s')
  {
  }

  lemma AddKeepsEnds(s: Sys, s': Sys, k: string, r: Row)
    requires OneEnd(s) && k !in s.rows
    requires s'.rows == s.rows[k := r]
    requires forall i | i in s'.reqs && Rotating(s'.reqs[i]) :: i in s.reqs && s'.reqs[i] == s.reqs[i]
    requires forall t | t in s.rows && !s.rows[t].revoked :: s.rows[t].login != r.login
    requires forall i | i in s'.reqs && Rotating(s'.reqs[i]) :: s'.reqs[i].row.login != r.login
    ensures OneEnd(s')
  {
  }

  lemma InsertKeepsTable(s: Sys, s': Sys, id: nat, r: Row, pc: Pc)
    requires Inv(s) && id in s.reqs && s.reqs[id].Inserting?
    requires r.claims == s.reqs[id].row.claims && !r.revoked && r.login == s.reqs[id].row.login && r.parent == Some(s.reqs[id].token)
    requires s' == s.(rows := s.rows[s.reqs[id].heir := r], reqs := s.reqs[id := pc])
    requires pc == Rejected || pc == Accepted(s.reqs[id].token, s.reqs[id].heir, s.reqs[id].claims)
    ensures RowsOk(s') && ReqsOk(s') && BlacklistOk(s')
  {
    var p := s.reqs[id];
    assert ReqOk(s, p);
    AddKeepsRows(s, s', p.heir, r);
    RotationStandsAlone(s, id);
    AddKeepsReqs(s, s', p.heir, r, id);
  }

  lemma InsertKeepsChains(s: Sys, s': Sys, id: nat, r: Row, pc: Pc)
    requires Inv(s) && id in s.reqs && s.reqs[id].Inserting? && !Rotating(pc)
    requires !r.revoked && r.login == s.reqs[id].row.login && r.parent == Some(s.reqs[id].token)
    requires s' == s.(rows := s.rows[s.reqs[id].heir := r], reqs := s.reqs[id := pc])
    ensures OneHeir(s') && OneEnd(s')
  {
    var p := s.reqs[id];
    assert ReqOk(s, p);
    RotationStandsAlone(s, id);
    AddKeepsHeirs(s, s', p.heir, r);
    AddKeepsEnds(s, s', p.heir, r);
  }

  lemma InsertKeepsInv(s: Sys, id: nat, db: Db, ttl: int)
    requires Inv(s) && id in s.reqs && s.reqs[id].Inserting?
    ensures var p := s.reqs[id]; Inv(InsertStep(s, id, p.token, p.heir, p.row, p.claims, db, ttl))
  {
    var p := s.reqs[id];
    var s' := InsertStep(s, id, p.token, p.heir, p.row, p.claims, db, ttl);
    if db == Lost(false) {
      QuietKeepsInv(s, s', id, Rejected);
    } else {
      StepKeepsHeirsApart(s, s', id, s'.reqs[id]);
      InsertKeepsTable(s, s', id, s'.rows[p.heir], s'.reqs[id]);
      InsertKeepsChains(s, s', id, s'.rows[p.heir], s'.reqs[id]);
    }
  }

  /** A rotation shares its old token, its new token and its sign-in with no other rotation, and no
      row competes with the one it will insert. */
  lemma RotationStandsAlone(s: Sys, id: nat)
    requires Inv(s) && id in s.reqs && Rotating(s.reqs[id])
    ensures var p := s.reqs[id];
      && (forall i | i in s.reqs && i != id && Rotating(s.reqs[i]) ::
            s.reqs[i].token != p.token && s.reqs[i].heir != p.heir && s.reqs[i].row.login != p.row.login)
      && (forall t | t in s.rows :: s.rows[t].parent != Some(p.token) && (!s.rows[t].revoked ==> s.rows[t].login != p.row.login))
  {
    assert ReqOk(s, s.reqs[id]);
    forall i | i in s.reqs && i != id && Rotating(s.reqs[i])
      ensures s.reqs[i].token != s.reqs[id].token && s.reqs[i].heir != s.reqs[id].heir && s.reqs[i].row.login != s.reqs[id].row.login
    {
      assert ReqOk(s, s.reqs[i]);
    }
  }

  lemma SignInIsNew(s: Sys, token: string)
    requires RowsOk(s) && ReqsOk(s) && token !in s.minted
    ensures token !in s.rows
    ensures forall i | i in s.reqs && Rotating(s.reqs[i]) :: s.reqs[i].row.login < |s.logins| && s.reqs[i].heir != token
  {
    forall i | i in s.reqs && Rotating(s.reqs[i]) ensures s.reqs[i].row.login < |s.logins| && s.reqs[i].heir != token {
      assert ReqOk(s, s.reqs[i]);
    }
  }

  lemma SignInKeepsReqs(s: Sys, s': Sys, token: string, r: Row)
    requires RowsOk(s) && ReqsOk(s) && token !in s.minted
    requires s'.rows == s.rows[token := r] && s'.minted == s.minted + {token} && s'.reqs == s.reqs
    ensures ReqsOk(s')
  {
    SignInIsNew(s, token);
    forall i | i in s'.reqs ensures ReqOk(s', s'.reqs[i]) {
      assert ReqOk(s, s.reqs[i]);
    }
  }

  lemma SignInKeepsInv(s: Sys, token: string, claims: Claims, ttl: int)
    requires Inv(s)
    ensures Inv(SignInStep(s, token, claims, ttl))
  {
    var s' := SignInStep(s, token, claims, ttl);
    if token !in s.minted {
      var r := s'.rows[token];
      SignInIsNew(s, token);
      AddKeepsRows(s, s', token, r);
      SignInKeepsReqs(s, s', token, r);
      AddKeepsHeirs(s, s', token, r);
      AddKeepsEnds(s, s', token, r);
    }
  }

  lemma UpdatesKeepInv(s: Sys, id: nat, db: Db, heir: string)
    requires Inv(s) && id in s.reqs
    ensures s.reqs[id].Claimed? ==> Inv(RotateStep(s, id, s.reqs[id].token, s.reqs[id].claims, db, heir))
    ensures s.reqs[id].Leaving? ==> Inv(LeaveStep(s, id, s.reqs[id].token, db))
  {
    var pc := s.reqs[id];
    assert ReqOk(s, pc);
    if pc.Claimed? && heir !in s.minted {
      var s' := RotateStep(s, id, pc.token, pc.claims, db, heir);
      if db == Lost(false) || !Unrevoked(s.rows, pc.token) {
        QuietKeepsInv(s, s', id, Rejected);
      } else {
        RevokeKeepsInv(s, s', id, pc.token, s'.reqs[id]);
      }
    } else if pc.Leaving? {
      var s' := LeaveStep(s, id, pc.token, db);
      if db == Lost(false) || !Unrevoked(s.rows, pc.token) {
        QuietKeepsInv(s, s', id, LoggedOut);
      } else {
        RevokeKeepsInv(s, s', id, pc.token, s'.reqs[id]);
      }
    }
  }

  lemma ReadsKeepInv(check: bool, s: Sys, id: nat, db: Db, redis: Redis)
    requires Inv(s) && id in s.reqs
    ensures s.reqs[id].Asked? ==> Inv(CheckStep(check, s, id, s.reqs[id].token, redis))
    ensures s.reqs[id].Cleared? ==> Inv(ClaimsStep(s, id, s.reqs[id].token, db))
  {
    var pc := s.reqs[id];
    if pc.Asked? {
      var s' := CheckStep(check, s, id, pc.token, redis);
      QuietKeepsInv(s, s', id, s'.reqs[id]);
    } else if pc.Cleared? {
      var s' := ClaimsStep(s, id, pc.token, db);
      QuietKeepsInv(s, s', id, s'.reqs[id]);
    }
  }

  lemma ListKeepsInv(s: Sys, id: nat, redis: Redis, next: Pc)
    requires Inv(s) && id in s.reqs && (s.reqs[id].Revoked? || s.reqs[id].Left?)
    requires next == LoggedOut || (s.reqs[id].Revoked? && next == Inserting(s.reqs[id].token, s.reqs[id].heir, s.reqs[id].row, s.reqs[id].claims))
    ensures Inv(ListStep(s, id, s.reqs[id].token, s.reqs[id].row, redis, next))
  {
    assert ReqOk(s, s.reqs[id]);
    ListKeepsBlacklist(s, id, s.reqs[id].token, s.reqs[id].row, redis, next);
    ListIsQuiet(s, id, s.reqs[id].token, s.reqs[id].row, redis, next);
    QuietKeepsInv(s, ListStep(s, id, s.reqs[id].token, s.reqs[id].row, redis, next), id, next);
  }

  lemma ListIsQuiet(s: Sys, id: nat, token: string, row: Row, redis: Redis, next: Pc)
    ensures var s' := ListStep(s, id, token, row, redis, next);
      s'.rows == s.rows && s'.logins == s.logins && s'.minted == s.minted && s'.reqs == s.reqs[id := next]
  {
  }

  lemma ListKeepsBlacklist(s: Sys, id: nat, token: string, row: Row, redis: Redis, next: Pc)
    requires BlacklistOk(s) && token in s.rows && s.rows[token] == row.(revoked := true)
    ensures BlacklistOk(ListStep(s, id, token, row, redis, next))
  {
  }

  lemma StepKeepsInv(check: bool, s: Sys, id: nat, db: Db, redis: Redis, heir: string, ttl: int)
    requires Inv(s) && id in s.reqs
    ensures Inv(StepReq(check, s, id, db, redis, heir, ttl))
  {
    match s.reqs[id]
    case Asked(_) => ReadsKeepInv(check, s, id, db, redis);
    case Cleared(_) => ReadsKeepInv(check, s, id, db, redis);
    case Claimed(_, _) => UpdatesKeepInv(s, id, db, heir);
    case Leaving(_) => UpdatesKeepInv(s, id, db, heir);
    case Inserting(_, _, _, _) => InsertKeepsInv(s, id, db, ttl);
    case Revoked(t, h, r, c) => ListKeepsInv(s, id, redis, Inserting(t, h, r, c));
    case Left(_, _) => ListKeepsInv(s, id, redis, LoggedOut);
    case _ =>
  }

  lemma NextKeepsInv(check: bool, s: Sys, a: Action)
    requires Inv(s)
    ensures Inv(Next(check, s, a))
  {
    match a
    case SignIn(token, claims, ttl) => SignInKeepsInv(s, token, claims, ttl);
    case Refresh(id, token) => if id !in s.reqs { QuietKeepsInv(s, Next(check, s, a), id, Asked(token)); }
    case Logout(id, token) => if id !in s.reqs { QuietKeepsInv(s, Next(check, s, a), id, Leaving(token)); }
    case Step(id, db, redis, heir, ttl) => if id in s.reqs { StepKeepsInv(check, s, id, db, redis, heir, ttl); }
    case Tick(_) =>
      forall i | i in s.reqs ensures ReqOk(Next(check, s, a), s.reqs[i]) {
        assert ReqOk(s, s.reqs[i]);
      }
  }

  lemma {:induction false} RunKeepsInv(check: bool, s: Sys, acts: seq<Action>)
    requires Inv(s)
    ensures Inv(ExecFrom(check, s, acts))
    decreases |acts|
  {
    if acts != [] {
      NextKeepsInv(check, s, acts[0]);
      RunKeepsInv(check, Next(check, s, acts[0]), acts[1..]);
    }
  }

  lemma Reachable(check: bool, acts: seq<Action>)
    ensures Inv(Exec(check, acts))
  {
    RunKeepsInv(check, INIT, acts);
  }

  // ----- What every interleaving guarantees -----

  /** Rows are never removed or rewritten; a revoked row stays revoked. */
  predicate Persists(r: Row, r': Row) {
    r' == r || r' == r.(revoked := true)
  }

  lemma NextKeepsRows(check: bool, s: Sys, a: Action, token: string)
    requires RowsOk(s) && ReqsOk(s) && token in s.rows
    ensures token in Next(check, s, a).rows && Persists(s.rows[token], Next(check, s, a).rows[token])
  {
    assert token in s.minted;
    if a.Step? && a.id in s.reqs {
      assert ReqOk(s, s.reqs[a.id]);
    }
  }

  lemma {:induction false} RevokedStaysRevoked(check: bool, s: Sys, acts: seq<Action>, token: string)
    requires Inv(s) && token in s.rows
    ensures token in ExecFrom(check, s, acts).rows && Persists(s.rows[token], ExecFrom(check, s, acts).rows[token])
    decreases |acts|
  {
    if acts != [] {
      NextKeepsRows(check, s, acts[0], token);
      NextKeepsInv(check, s, acts[0]);
      RevokedStaysRevoked(check, Next(check, s, acts[0]), acts[1..], token);
    }
  }

  /** Each token has at most one successor, and the successor speaks for the same user and tenant. */
  lemma OneSuccessor(check: bool, acts: seq<Action>, c: string, d: string)
    requires var rows := Exec(check, acts).rows; c in rows && d in rows && rows[c].parent.Some? && rows[c].parent == rows[d].parent
    ensures c == d
    ensures var rows := Exec(check, acts).rows; var p := rows[c].parent.value;
      p in rows && rows[p].revoked && rows[p].claims == rows[c].claims && rows[p].login == rows[c].login
  {
    Reachable(check, acts);
  }

  /** Each sign-in has at most one unrevoked row at any moment, and one identity throughout. */
  lemma {:induction false} OneUnrevokedPerSignIn(check: bool, acts: seq<Action>, t: string, u: string)
    requires var rows := Exec(check, acts).rows; t in rows && u in rows && rows[t].login == rows[u].login
    ensures var rows := Exec(check, acts).rows; rows[t].claims == rows[u].claims && (!rows[t].revoked && !rows[u].revoked ==> t == u)
  {
    Reachable(check, acts);
  }

  /** A refresh token is accepted once: two accepted requests that presented the same token are one request,
      and what it handed out is the token's successor with the token's own claims. */
  lemma {:induction false} AcceptedOnce(check: bool, acts: seq<Action>, i: nat, j: nat)
    requires var reqs := Exec(check, acts).reqs; i in reqs && j in reqs && reqs[i].Accepted? && reqs[j].Accepted? && reqs[i].token == reqs[j].token
    ensures i == j
    ensures var s := Exec(check, acts); var p := s.reqs[i];
      p.token in s.rows && s.rows[p.token].revoked && s.rows[p.token].claims == p.claims && p.heir in s.rows && s.rows[p.heir].parent == Some(p.token)
  {
    Reachable(check, acts);
    var s := Exec(check, acts);
    assert ReqOk(s, s.reqs[i]);
    assert ReqOk(s, s.reqs[j]);
  }

  lemma {:induction false} ExecCons(check: bool, s: Sys, a: Action, rest: seq<Action>)
    ensures ExecFrom(check, s, [a] + rest) == ExecFrom(check, Next(check, s, a), rest)
  {
    assert ([a] + rest)[1..] == rest;
  }

  predicate IsOver(pc: Pc) {
    pc.Rejected? || pc.Accepted? || pc.LoggedOut?
  }

  lemma NextKeepsOver(check: bool, s: Sys, id: nat, a: Action)
    requires id in s.reqs && IsOver(s.reqs[id])
    ensures id in Next(check, s, a).reqs && Next(check, s, a).reqs[id] == s.reqs[id]
  {
    if a.Step? && a.id in s.reqs {
      if a.id == id {
        assert Next(check, s, a) == s;
      } else {
        StepMovesOne(check, s, a);
      }
    }
  }

  lemma StepMovesOne(check: bool, s: Sys, a: Action)
    requires a.Step? && a.id in s.reqs
    ensures var s' := Next(check, s, a); a.id in s'.reqs && s'.reqs == s.reqs[a.id := s'.reqs[a.id]]
  {
    var s' := Next(check, s, a);
    var pc := s.reqs[a.id];
    assert s.reqs == s.reqs[a.id := pc];
    match pc
    case Claimed(t, c) => assert a.heir in s.minted || s'.reqs == s.reqs[a.id := s'.reqs[a.id]];
    case _ => assert s'.reqs == s.reqs[a.id := s'.reqs[a.id]];
  }

  /** Nothing moves a request that has been answered. */
  lemma {:induction false} OverStays(check: bool, s: Sys, id: nat, acts: seq<Action>)
    requires id in s.reqs && IsOver(s.reqs[id])
    ensures id in ExecFrom(check, s, acts).reqs && ExecFrom(check, s, acts).reqs[id] == s.reqs[id]
    decreases |acts|
  {
    if acts != [] {
      NextKeepsOver(check, s, id, acts[0]);
      OverStays(check, Next(check, s, acts[0]), id, acts[1..]);
    }
  }
}
