/** What becomes of a session in every interleaving: dead tokens stay refused, a logout ends exactly what it should, and a
    request nobody disturbs does what the store object does. */
module TokenSessions {
  import opened Wrappers
  import opened TokenStore
  import opened TokenSystem

  // ----- Dead tokens and ended sign-ins -----

  /** A request that has read no claims yet, for a token that is revoked or expired; or one refused already. */
  predicate Doomed(s: Sys, pc: Pc, token: string) {
    pc.Rejected? || ((pc == Asked(token) || pc == Cleared(token)) && token in s.rows && (s.rows[token].revoked || s.rows[token].expiresAt <= s.now))
  }

  lemma NextKeepsDoomed(check: bool, s: Sys, a: Action, id: nat, token: string)
    requires RowsOk(s) && ReqsOk(s) && id in s.reqs && Doomed(s, s.reqs[id], token)
    ensures id in Next(check, s, a).reqs && Doomed(Next(check, s, a), Next(check, s, a).reqs[id], token)
  {
    if token in s.rows {
      NextKeepsRows(check, s, a, token);
    }
    if a.Step? && a.id in s.reqs && a.id != id {
      StepMovesOne(check, s, a);
    }
  }

  lemma {:induction false} DoomedStays(check: bool, s: Sys, acts: seq<Action>, id: nat, token: string)
    requires Inv(s) && id in s.reqs && Doomed(s, s.reqs[id], token)
    ensures id in ExecFrom(check, s, acts).reqs && Doomed(ExecFrom(check, s, acts), ExecFrom(check, s, acts).reqs[id], token)
    decreases |acts|
  {
    if acts != [] {
      NextKeepsDoomed(check, s, acts[0], id, token);
      NextKeepsInv(check, s, acts[0]);
      DoomedStays(check, Next(check, s, acts[0]), acts[1..], id, token);
    }
  }

  /** A request that arrives with a revoked or expired token is never accepted, however the run goes on. */
  lemma {:induction false} DeadTokenIsRefused(check: bool, acts: seq<Action>, more: seq<Action>, id: nat, token: string)
    requires var s := Exec(check, acts);
      id in s.reqs && s.reqs[id] == Asked(token) && token in s.rows && ActiveClaims(s.rows, token, s.now).None?
    ensures var end := ExecFrom(check, Exec(check, acts), more); id in end.reqs && !end.reqs[id].Accepted?
  {
    Reachable(check, acts);
    DoomedStays(check, Exec(check, acts), more, id, token);
  }

  ghost predicate NoLiveRow(s: Sys, login: nat) {
    forall t | t in s.rows && s.rows[t].login == login :: s.rows[t].revoked
  }

  /** Neither a live row nor a rotation that will insert one. */
  ghost predicate SignedOut(s: Sys, login: nat) {
    NoLiveRow(s, login) && forall i | i in s.reqs && Rotating(s.reqs[i]) :: s.reqs[i].row.login != login
  }

  lemma NextKeepsSignedOut(check: bool, s: Sys, a: Action, login: nat)
    requires RowsOk(s) && ReqsOk(s) && login < |s.logins| && SignedOut(s, login)
    ensures login < |Next(check, s, a).logins| && SignedOut(Next(check, s, a), login)
  {
    if a.Step? && a.id in s.reqs {
      StepMovesOne(check, s, a);
      assert ReqOk(s, s.reqs[a.id]);
    }
  }

  lemma {:induction false} SignedOutStays(check: bool, s: Sys, acts: seq<Action>, login: nat)
    requires Inv(s) && login < |s.logins| && SignedOut(s, login)
    ensures SignedOut(ExecFrom(check, s, acts), login)
    decreases |acts|
  {
    if acts != [] {
      NextKeepsSignedOut(check, s, acts[0], login);
      NextKeepsInv(check, s, acts[0]);
      SignedOutStays(check, Next(check, s, acts[0]), acts[1..], login);
    }
  }

  /** A rotation under way can bring its sign-in back to life. */
  lemma RotationRevives(check: bool, s: Sys, id: nat) returns (more: seq<Action>)
    requires id in s.reqs && Rotating(s.reqs[id])
    ensures !NoLiveRow(ExecFrom(check, s, more), s.reqs[id].row.login)
  {
    var step := Step(id, Done, Up(0), "", 0);
    if s.reqs[id].Inserting? {
      more := [step] + [];
      ExecCons(check, s, step, []);
      assert s.reqs[id].heir in Next(check, s, step).rows;
    } else {
      more := [step] + ([step] + []);
      ExecCons(check, s, step, [step] + []);
      var s1 := Next(check, s, step);
      ExecCons(check, s1, step, []);
      assert s.reqs[id].heir in Next(check, s1, step).rows;
    }
  }

  /** A logout ends the sign-in for good, in every continuation, exactly when the sign-in was over already, or the token it
      presents is the live one and the revoking statement takes effect. A logout that comes after its token was
      rotated ends nothing, and neither does one whose statement is lost, although both are answered alike. */
  lemma {:induction false} LogoutEndsSignInExactly(check: bool, acts: seq<Action>, step: Action)
    requires var s := Exec(check, acts);
      step.Step? && step.id in s.reqs && s.reqs[step.id].Leaving? && s.reqs[step.id].token in s.rows
    ensures var s := Exec(check, acts); var token := s.reqs[step.id].token; var login := s.rows[token].login;
      (forall more: seq<Action> :: NoLiveRow(ExecFrom(check, Next(check, s, step), more), login))
      <==> (Unrevoked(s.rows, token) && step.db != Lost(false)) || SignedOut(s, login)
  {
    Reachable(check, acts);
    var s := Exec(check, acts);
    var token := s.reqs[step.id].token;
    var login := s.rows[token].login;
    var s' := Next(check, s, step);
    NextKeepsInv(check, s, step);
    if (Unrevoked(s.rows, token) && step.db != Lost(false)) || SignedOut(s, login) {
      LogoutStepEnds(check, s, step);
      forall more: seq<Action> ensures NoLiveRow(ExecFrom(check, s', more), login) {
        SignedOutStays(check, s', more, login);
      }
    } else {
      var more := IdleLogoutEndsNothing(check, s, step);
      assert !NoLiveRow(ExecFrom(check, s', more), login);
    }
  }

  /** A logout that revokes nothing, because its token was rotated before or because its statement is lost. */
  lemma IdleLogoutEndsNothing(check: bool, s: Sys, step: Action) returns (more: seq<Action>)
    requires step.Step? && step.id in s.reqs && s.reqs[step.id].Leaving? && s.reqs[step.id].token in s.rows
    requires s.rows[s.reqs[step.id].token].revoked || step.db == Lost(false)
    requires !SignedOut(s, s.rows[s.reqs[step.id].token].login)
    ensures Next(check, s, step).reqs[step.id] == LoggedOut
    ensures !NoLiveRow(ExecFrom(check, Next(check, s, step), more), s.rows[s.reqs[step.id].token].login)
  {
    var login := s.rows[s.reqs[step.id].token].login;
    var s' := Next(check, s, step);
    assert s' == At(s, step.id, LoggedOut);
    if NoLiveRow(s, login) {
      var i :| i in s.reqs && Rotating(s.reqs[i]) && s.reqs[i].row.login == login;
      more := RotationRevives(check, s', i);
    } else {
      more := [];
      var t :| t in s.rows && s.rows[t].login == login && !s.rows[t].revoked;
      assert t in s'.rows && ExecFrom(check, s', more) == s';
    }
  }

  /** The lost statement by itself: the user is told to be logged out, and the token goes on working. */
  lemma LostLogoutLeavesTokenLive(check: bool, acts: seq<Action>, step: Action)
    requires var s := Exec(check, acts);
      step.Step? && step.db == Lost(false) && step.id in s.reqs && s.reqs[step.id].Leaving?
    ensures var s := Exec(check, acts); var token := s.reqs[step.id].token; var s' := Next(check, s, step);
      s'.reqs[step.id] == LoggedOut && ActiveClaims(s'.rows, token, s'.now) == ActiveClaims(s.rows, token, s.now)
  {
  }

  lemma LogoutStepEnds(check: bool, s: Sys, step: Action)
    requires Inv(s) && step.Step? && step.id in s.reqs && s.reqs[step.id].Leaving? && s.reqs[step.id].token in s.rows
    requires (Unrevoked(s.rows, s.reqs[step.id].token) && step.db != Lost(false)) || SignedOut(s, s.rows[s.reqs[step.id].token].login)
    ensures var login := s.rows[s.reqs[step.id].token].login;
      login < |Next(check, s, step).logins| && SignedOut(Next(check, s, step), login)
  {
    if SignedOut(s, s.rows[s.reqs[step.id].token].login) {
      NextKeepsSignedOut(check, s, step, s.rows[s.reqs[step.id].token].login);
    } else {
      assert OneEnd(s);
    }
  }

  // ----- How long tokens live -----

  /** A sign-in's token works for its whole time to live, and no longer. */
  lemma SignInLives(s: Sys, token: string, claims: Claims, ttl: int, t: int)
    requires token !in s.minted
    ensures ActiveClaims(SignInStep(s, token, claims, ttl).rows, token, t) == if t < s.now + ttl then Some(claims) else None
  {
  }

  /** When a refresh is accepted, the token it hands out works for its whole time to live, counted from that moment, for the
      claims of the token it replaced; that one works no more. */
  lemma HeirLives(check: bool, acts: seq<Action>, step: Action, t: int)
    requires var s := Exec(check, acts); step.Step? && step.id in s.reqs && s.reqs[step.id].Inserting?
    ensures var s := Exec(check, acts); var s' := Next(check, s, step); var used := s.reqs[step.id].token;
      && step.id in s'.reqs && (s'.reqs[step.id].Accepted? <==> step.db.Done?)
      && (s'.reqs[step.id].Accepted? ==>
            && used in s.rows && s'.reqs[step.id].token == used
            && ActiveClaims(s'.rows, s'.reqs[step.id].heir, t) == (if t < s.now + step.ttl then Some(s.rows[used].claims) else None)
            && ActiveClaims(s'.rows, used, t) == None)
  {
    Reachable(check, acts);
    var s := Exec(check, acts);
    InsertLives(s, step.id, step.db, step.ttl, t);
  }

  lemma InsertLives(s: Sys, id: nat, db: Db, ttl: int, t: int)
    requires ReqsOk(s) && id in s.reqs && s.reqs[id].Inserting?
    ensures var p := s.reqs[id]; var s' := InsertStep(s, id, p.token, p.heir, p.row, p.claims, db, ttl);
      && id in s'.reqs && (s'.reqs[id].Accepted? <==> db.Done?)
      && (s'.reqs[id].Accepted? ==>
            && p.token in s.rows && s'.reqs[id].token == p.token && s'.reqs[id].heir == p.heir
            && ActiveClaims(s'.rows, p.heir, t) == (if t < s.now + ttl then Some(s.rows[p.token].claims) else None)
            && ActiveClaims(s'.rows, p.token, t) == None)
  {
    assert ReqOk(s, s.reqs[id]);
  }

  /** A refresh whose statement reports an error is refused, whether or not the statement was applied. */
  lemma LostIsRefused(check: bool, s: Sys, step: Action)
    requires step.Step? && step.db.Lost? && step.id in s.reqs
    requires s.reqs[step.id].Cleared? || s.reqs[step.id].Inserting? || (s.reqs[step.id].Claimed? && step.heir !in s.minted)
    ensures step.id in Next(check, s, step).reqs && Next(check, s, step).reqs[step.id] == Rejected
  {
  }

  // ----- Undisturbed requests -----

  function Steps(step: Action): seq<Action> {
    [step] + ([step] + ([step] + ([step] + ([step] + []))))
  }

  /** The machine and the store object agree: a request for an active token that nobody disturbs, with Redis up or with the
      check left out, is accepted with the token's claims and leaves the table the object leaves. */
  lemma {:induction false} UndisturbedRefresh(check: bool, s: Sys, id: nat, token: string, redis: Redis, heir: string, ttl: int)
    requires BlacklistOk(s) && id in s.reqs && s.reqs[id] == Asked(token) && heir !in s.minted
    requires ActiveClaims(s.rows, token, s.now).Some? && (check ==> redis.Up?)
    ensures var end := ExecFrom(check, s, Steps(Step(id, Done, redis, heir, ttl)));
      && end.rows == RotatedRows(s.rows, token, heir, ttl, s.now)
      && end.blacklist == (if redis.Up? then AddListed(s.blacklist, token, s.rows[token].expiresAt, s.now - redis.lag, s.now) else s.blacklist)
      && end.reqs == s.reqs[id := Accepted(token, heir, s.rows[token].claims)]
  {
    var step := Step(id, Done, redis, heir, ttl);
    var claims := s.rows[token].claims;
    var s2 := At(s, id, Claimed(token, claims));
    ReadsRun(check, s, id, token, step);
    ExecCons(check, s, step, [step] + ([step] + ([step] + ([step] + []))));
    ExecCons(check, At(s, id, Cleared(token)), step, [step] + ([step] + ([step] + [])));
    RotationRuns(check, s2, step, token, claims);
    assert s2.reqs[id := Accepted(token, heir, claims)] == s.reqs[id := Accepted(token, heir, claims)];
  }

  lemma ReadsRun(check: bool, s: Sys, id: nat, token: string, step: Action)
    requires BlacklistOk(s) && id in s.reqs && s.reqs[id] == Asked(token) && ActiveClaims(s.rows, token, s.now).Some?
    requires step.Step? && step.id == id && step.db.Done? && (check ==> step.redis.Up?)
    ensures Next(check, s, step) == At(s, id, Cleared(token))
    ensures Next(check, At(s, id, Cleared(token)), step) == At(s, id, Claimed(token, s.rows[token].claims))
  {
    assert s.reqs[id := Cleared(token)][id := Claimed(token, s.rows[token].claims)] == s.reqs[id := Claimed(token, s.rows[token].claims)];
  }

  lemma {:induction false} RotationRuns(check: bool, s: Sys, step: Action, token: string, claims: Claims)
    requires step.Step? && step.db.Done? && step.id in s.reqs && s.reqs[step.id] == Claimed(token, claims) && step.heir !in s.minted
    requires Unrevoked(s.rows, token)
    ensures var end := ExecFrom(check, s, [step] + ([step] + ([step] + [])));
      && end.rows == RotatedRows(s.rows, token, step.heir, step.ttl, s.now)
      && end.blacklist == (if step.redis.Up? then AddListed(s.blacklist, token, s.rows[token].expiresAt, s.now - step.redis.lag, s.now) else s.blacklist)
      && end.reqs == s.reqs[step.id := Accepted(token, step.heir, claims)]
  {
    var id, row := step.id, s.rows[token];
    var s3 := At(s.(minted := s.minted + {step.heir}, rows := RevokeRow(s.rows, token)), id, Revoked(token, step.heir, row, claims));
    assert Next(check, s, step) == s3;
    var s4 := ListStep(s3, id, token, row, step.redis, Inserting(token, step.heir, row, claims));
    assert Next(check, s3, step) == s4;
    ExecCons(check, s, step, [step] + ([step] + []));
    ExecCons(check, s3, step, [step] + []);
    ExecCons(check, s4, step, []);
  }

  /** Signing in gives a token that works: the next refresh with it, left alone, is accepted for the user who signed in. */
  lemma SignInThenRefresh(acts: seq<Action>, token: string, claims: Claims, ttl: int, id: nat, heir: string)
    requires var s := Exec(true, acts); token !in s.minted && heir !in s.minted && heir != token && id !in s.reqs && ttl > 0
    ensures var s := Next(true, Next(true, Exec(true, acts), SignIn(token, claims, ttl)), Refresh(id, token));
      var end := ExecFrom(true, s, Steps(Step(id, Done, Up(0), heir, ttl)));
      && id in end.reqs && end.reqs[id] == Accepted(token, heir, claims)
      && end.now == s.now
      && (forall t: int :: ActiveClaims(end.rows, heir, t) == if t < s.now + ttl then Some(claims) else None)
      && (forall t: int :: ActiveClaims(end.rows, token, t) == None)
  {
    var s := Next(true, Next(true, Exec(true, acts), SignIn(token, claims, ttl)), Refresh(id, token));
    AsksAfterSignIn(acts, token, claims, ttl, id);
    UndisturbedRefresh(true, s, id, token, Up(0), heir, ttl);
    StepsKeepTime(true, s, Step(id, Done, Up(0), heir, ttl));
  }

  lemma AsksAfterSignIn(acts: seq<Action>, token: string, claims: Claims, ttl: int, id: nat)
    requires var s := Exec(true, acts); token !in s.minted && id !in s.reqs && ttl > 0
    ensures var s0 := Exec(true, acts); var s := Next(true, Next(true, s0, SignIn(token, claims, ttl)), Refresh(id, token));
      && BlacklistOk(s) && id in s.reqs && s.reqs[id] == Asked(token) && s.minted == s0.minted + {token}
      && token in s.rows && s.rows[token].claims == claims && ActiveClaims(s.rows, token, s.now) == Some(claims)
  {
    Reachable(true, acts);
    var s0 := Exec(true, acts);
    NextKeepsInv(true, s0, SignIn(token, claims, ttl));
  }

  lemma {:induction false} StepsKeepTime(check: bool, s: Sys, step: Action)
    requires step.Step?
    ensures ExecFrom(check, s, Steps(step)).now == s.now
  {
    StepsNowIs(check, s, Steps(step));
  }

  lemma {:induction false} StepsNowIs(check: bool, s: Sys, acts: seq<Action>)
    requires forall a | a in acts :: !a.Tick?
    ensures ExecFrom(check, s, acts).now == s.now
    decreases |acts|
  {
    if acts != [] {
      StepsNowIs(check, Next(check, s, acts[0]), acts[1..]);
    }
  }
}
