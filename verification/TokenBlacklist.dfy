/** What the Redis blacklist adds to the database: it never knows more, and asking it changes no decision unless it does not
    answer. */
module TokenBlacklist {
  import opened Wrappers
  import opened TokenStore
  import opened TokenSystem
  import opened TokenSessions

  /** Whatever Redis lists is dead in the database, now and for ever. */
  lemma {:induction false} ListedIsDead(check: bool, acts: seq<Action>, more: seq<Action>, token: string, now: int)
    requires token in Exec(check, acts).blacklist
    ensures ActiveClaims(ExecFrom(check, Exec(check, acts), more).rows, token, now) == None
  {
    Reachable(check, acts);
    RevokedStaysRevoked(check, Exec(check, acts), more, token);
  }

  /** About to list the token it revoked. */
  predicate Listing(pc: Pc) {
    pc.Revoked? || pc.Left?
  }

  /** A token is listed by one request only, the one that revoked it. */
  ghost predicate OneLister(s: Sys) {
    && (forall i | i in s.reqs && Listing(s.reqs[i]) :: s.reqs[i].token !in s.blacklist)
    && (forall i, j | i in s.reqs && j in s.reqs && i != j && Listing(s.reqs[i]) && Listing(s.reqs[j]) :: s.reqs[i].token != s.reqs[j].token)
  }

  /** A request becomes a lister by revoking its token, which nobody else can have done before. */
  lemma RevokerIsAlone(s: Sys, id: nat, token: string)
    requires BlacklistOk(s) && ReqsOk(s) && Unrevoked(s.rows, token)
    ensures token !in s.blacklist
    ensures forall i | i in s.reqs && i != id && Listing(s.reqs[i]) :: s.reqs[i].token != token
  {
    forall i | i in s.reqs && i != id && Listing(s.reqs[i]) ensures s.reqs[i].token != token {
      assert ReqOk(s, s.reqs[i]);
    }
  }

  lemma NewLister(check: bool, s: Sys, a: Action)
    requires a.Step? && a.id in s.reqs && a.id in Next(check, s, a).reqs && Listing(Next(check, s, a).reqs[a.id])
    ensures Next(check, s, a).blacklist == s.blacklist && Unrevoked(s.rows, Next(check, s, a).reqs[a.id].token)
  {
    match s.reqs[a.id]
    case Claimed(t, c) => assert Next(check, s, a) == RotateStep(s, a.id, t, c, a.db, a.heir);
    case Leaving(t) => assert Next(check, s, a) == LeaveStep(s, a.id, t, a.db);
    case _ =>
  }

  /** Redis is written to only by a lister, for its own token, and the lister is one no more. */
  lemma OnlyListersList(check: bool, s: Sys, a: Action)
    requires a.Step? && a.id in s.reqs
    ensures Next(check, s, a).blacklist != s.blacklist ==>
      Listing(s.reqs[a.id]) && Next(check, s, a).blacklist.Keys == s.blacklist.Keys + {s.reqs[a.id].token}
  {
  }

  lemma MovedKeepsOneLister(s: Sys, s': Sys, id: nat)
    requires BlacklistOk(s) && ReqsOk(s) && OneLister(s) && id in s.reqs && id in s'.reqs && s'.reqs == s.reqs[id := s'.reqs[id]]
    requires Listing(s'.reqs[id]) ==> s'.blacklist == s.blacklist && Unrevoked(s.rows, s'.reqs[id].token)
    requires s'.blacklist != s.blacklist ==> Listing(s.reqs[id]) && s'.blacklist.Keys == s.blacklist.Keys + {s.reqs[id].token}
    ensures OneLister(s')
  {
    if Listing(s'.reqs[id]) {
      RevokerIsAlone(s, id, s'.reqs[id].token);
    }
    forall i | i in s'.reqs && Listing(s'.reqs[i]) ensures s'.reqs[i].token !in s'.blacklist {
      assert s'.reqs[i].token !in s'.blacklist.Keys;
    }
  }

  lemma NextKeepsOneLister(check: bool, s: Sys, a: Action)
    requires BlacklistOk(s) && ReqsOk(s) && OneLister(s)
    ensures OneLister(Next(check, s, a))
  {
    if a.Step? && a.id in s.reqs {
      StepMovesOne(check, s, a);
      OnlyListersList(check, s, a);
      if Listing(Next(check, s, a).reqs[a.id]) {
        NewLister(check, s, a);
      }
      MovedKeepsOneLister(s, Next(check, s, a), a.id);
    }
  }

  lemma {:induction false} RunKeepsOneLister(check: bool, s: Sys, acts: seq<Action>)
    requires Inv(s) && OneLister(s)
    ensures OneLister(ExecFrom(check, s, acts))
    decreases |acts|
  {
    if acts != [] {
      NextKeepsInv(check, s, acts[0]);
      NextKeepsOneLister(check, s, acts[0]);
      RunKeepsOneLister(check, Next(check, s, acts[0]), acts[1..]);
    }
  }

  lemma NextKeepsListing(check: bool, s: Sys, a: Action, token: string)
    requires OneLister(s) && token in s.blacklist
    ensures token in Next(check, s, a).blacklist && Next(check, s, a).blacklist[token] == s.blacklist[token]
  {
  }

  lemma {:induction false} ListingsLast(check: bool, s: Sys, acts: seq<Action>, token: string)
    requires Inv(s) && OneLister(s) && token in s.blacklist
    ensures token in ExecFrom(check, s, acts).blacklist && ExecFrom(check, s, acts).blacklist[token] == s.blacklist[token]
    decreases |acts|
  {
    if acts != [] {
      NextKeepsInv(check, s, acts[0]);
      NextKeepsOneLister(check, s, acts[0]);
      NextKeepsListing(check, s, acts[0], token);
      ListingsLast(check, Next(check, s, acts[0]), acts[1..], token);
    }
  }

  lemma ListStepLists(check: bool, s: Sys, step: Action)
    requires step.Step? && step.redis.Up? && step.id in s.reqs
    requires Listing(s.reqs[step.id]) && s.now - step.redis.lag < s.reqs[step.id].row.expiresAt
    ensures var pc := s.reqs[step.id]; var listed := Next(check, s, step).blacklist;
      pc.token in listed && listed[pc.token] == pc.row.expiresAt + step.redis.lag
  {
  }

  /** A token that has expired when the rest is computed is not listed at all. */
  lemma ExpiredIsNotListed(check: bool, s: Sys, step: Action)
    requires step.Step? && step.redis.Up? && step.id in s.reqs
    requires Listing(s.reqs[step.id]) && s.now - step.redis.lag >= s.reqs[step.id].row.expiresAt
    ensures Next(check, s, step).blacklist == s.blacklist
  {
  }

  lemma {:induction false} ListedFromThen(check: bool, s: Sys, step: Action, more: seq<Action>, token: string, until: int, t: int)
    requires Inv(s) && OneLister(s) && token in Next(check, s, step).blacklist && Next(check, s, step).blacklist[token] == until
    ensures Listed(ExecFrom(check, Next(check, s, step), more).blacklist, token, t) <==> t < until
  {
    NextKeepsInv(check, s, step);
    NextKeepsOneLister(check, s, step);
    ListingsLast(check, Next(check, s, step), more, token);
  }

  /** A request that revoked a token with time left and then reaches Redis makes Redis refuse the token from then on, in
      every continuation, until its expiry and beyond it by exactly the time the command took to get there. */
  lemma {:induction false} ListedUntilExpiry(check: bool, acts: seq<Action>, step: Action, more: seq<Action>, t: int)
    requires var s := Exec(check, acts);
      && step.Step? && step.redis.Up? && step.id in s.reqs
      && Listing(s.reqs[step.id]) && s.now - step.redis.lag < s.reqs[step.id].row.expiresAt
    ensures var s := Exec(check, acts); var pc := s.reqs[step.id];
      Listed(ExecFrom(check, Next(check, s, step), more).blacklist, pc.token, t) <==> t < pc.row.expiresAt + step.redis.lag
  {
    Reachable(check, acts);
    RunKeepsOneLister(check, INIT, acts);
    var s := Exec(check, acts);
    ListStepLists(check, s, step);
    ListedFromThen(check, s, step, more, s.reqs[step.id].token, s.reqs[step.id].row.expiresAt + step.redis.lag, t);
  }

  // ----- The blacklist check decides nothing -----

  /** No blacklist check of the run hit an unreachable Redis. */
  predicate Answered(s: Sys, acts: seq<Action>)
    decreases |acts|
  {
    acts == [] ||
    (&& (acts[0].Step? && acts[0].id in s.reqs && s.reqs[acts[0].id].Asked? ==> acts[0].redis.Up?)
     && Answered(Next(true, s, acts[0]), acts[1..]))
  }

  /** The same request with the check and without it: equal, or refused by Redis here and about to be
      refused by the database there. */
  predicate Matches(rows: map<string, Row>, p: Pc, q: Pc) {
    p == q || (p.Rejected? && q.Cleared? && q.token in rows && rows[q.token].revoked)
  }

  ghost predicate Similar(s: Sys, u: Sys) {
    && u == s.(reqs := u.reqs)
    && u.reqs.Keys == s.reqs.Keys
    && forall id | id in s.reqs :: Matches(s.rows, s.reqs[id], u.reqs[id])
  }

  lemma MatchesPersist(check: bool, s: Sys, a: Action, p: Pc, q: Pc)
    requires Inv(s) && Matches(s.rows, p, q)
    ensures Matches(Next(check, s, a).rows, p, q)
  {
    if p != q {
      NextKeepsRows(check, s, a, q.token);
    }
  }

  /** A request at the same point in both systems makes the same move in both. */
  lemma SameMove(s: Sys, u: Sys, a: Action)
    requires u == s.(reqs := u.reqs)
    requires a.Step? && a.id in s.reqs && a.id in u.reqs && u.reqs[a.id] == s.reqs[a.id] && !s.reqs[a.id].Asked?
    ensures var s', u' := Next(true, s, a), Next(false, u, a);
      a.id in s'.reqs && s'.reqs == s.reqs[a.id := s'.reqs[a.id]] && u' == s'.(reqs := u.reqs[a.id := s'.reqs[a.id]])
  {
  }

  /** Moves that leave the table alone in both systems: the check itself, and the refusal that follows a skipped one. */
  lemma CheckMove(s: Sys, u: Sys, a: Action)
    requires BlacklistOk(s) && u == s.(reqs := u.reqs)
    requires a.Step? && a.id in s.reqs && a.id in u.reqs && Matches(s.rows, s.reqs[a.id], u.reqs[a.id])
    requires s.reqs[a.id].Asked? || u.reqs[a.id] != s.reqs[a.id]
    requires s.reqs[a.id].Asked? ==> a.redis.Up?
    ensures var s', u' := Next(true, s, a), Next(false, u, a);
      && a.id in s'.reqs && s' == s.(reqs := s.reqs[a.id := s'.reqs[a.id]])
      && a.id in u'.reqs && u' == u.(reqs := u.reqs[a.id := u'.reqs[a.id]])
      && Matches(s.rows, s'.reqs[a.id], u'.reqs[a.id])
  {
    assert s.reqs == s.reqs[a.id := s.reqs[a.id]];
  }

  lemma StepKeepsSimilar(s: Sys, u: Sys, a: Action)
    requires Inv(s) && Similar(s, u)
    requires a.Step? && a.id in s.reqs
    requires s.reqs[a.id].Asked? ==> a.redis.Up?
    ensures Similar(Next(true, s, a), Next(false, u, a))
  {
    assert a.id in u.reqs.Keys;
    assert Matches(s.rows, s.reqs[a.id], u.reqs[a.id]);
    if s.reqs[a.id].Asked? || u.reqs[a.id] != s.reqs[a.id] {
      CheckMove(s, u, a);
    } else {
      SameMove(s, u, a);
      forall id | id in s.reqs && id != a.id ensures Matches(Next(true, s, a).rows, s.reqs[id], u.reqs[id]) {
        MatchesPersist(true, s, a, s.reqs[id], u.reqs[id]);
      }
    }
  }

  /** Arrivals, sign-ins and the clock do the same to both systems. */
  lemma SameArrival(s: Sys, u: Sys, a: Action)
    requires u == s.(reqs := u.reqs) && u.reqs.Keys == s.reqs.Keys
    requires a.Step? ==> a.id !in s.reqs
    ensures var s', u' := Next(true, s, a), Next(false, u, a);
      && u' == s'.(reqs := u'.reqs) && u'.reqs.Keys == s'.reqs.Keys
      && (forall id | id in s.reqs :: s'.reqs[id] == s.reqs[id] && u'.reqs[id] == u.reqs[id])
      && (forall id | id in s'.reqs && id !in s.reqs :: s'.reqs[id] == u'.reqs[id])
  {
    assert forall id :: id in u.reqs <==> id in u.reqs.Keys;
  }

  lemma OthersKeepSimilar(s: Sys, u: Sys, a: Action)
    requires Inv(s) && Similar(s, u)
    requires a.Step? ==> a.id !in s.reqs
    ensures Similar(Next(true, s, a), Next(false, u, a))
  {
    SameArrival(s, u, a);
    forall id | id in s.reqs ensures Matches(Next(true, s, a).rows, s.reqs[id], u.reqs[id]) {
      MatchesPersist(true, s, a, s.reqs[id], u.reqs[id]);
    }
  }

  lemma {:induction false} RunsStaySimilar(s: Sys, u: Sys, acts: seq<Action>)
    requires Inv(s) && Similar(s, u) && Answered(s, acts)
    ensures Similar(ExecFrom(true, s, acts), ExecFrom(false, u, acts))
    decreases |acts|
  {
    if acts != [] {
      if acts[0].Step? && acts[0].id in s.reqs {
        StepKeepsSimilar(s, u, acts[0]);
      } else {
        OthersKeepSimilar(s, u, acts[0]);
      }
      NextKeepsInv(true, s, acts[0]);
      RunsStaySimilar(Next(true, s, acts[0]), Next(false, u, acts[0]), acts[1..]);
    }
  }

  /** Dropping the blacklist check from the handler changes no run: same table, same accepted requests with the
      same tokens and claims. */
  lemma {:induction false} BlacklistDecidesNothing(acts: seq<Action>, id: nat)
    requires Answered(INIT, acts)
    ensures Exec(false, acts).rows == Exec(true, acts).rows
    ensures id in Exec(true, acts).reqs <==> id in Exec(false, acts).reqs
    ensures id in Exec(true, acts).reqs ==>
      var p, q := Exec(true, acts).reqs[id], Exec(false, acts).reqs[id]; (p.Accepted? || q.Accepted? ==> p == q)
  {
    RunsStaySimilar(INIT, INIT, acts);
    if id in Exec(true, acts).reqs {
      assert Matches(Exec(true, acts).rows, Exec(true, acts).reqs[id], Exec(false, acts).reqs[id]);
    }
  }

  /** At the check itself: a refusal there agrees with the database exactly when Redis answered or the database
      would have refused as well. */
  lemma OnlyAnOutageOverrules(acts: seq<Action>, id: nat, redis: Redis)
    requires id in Exec(true, acts).reqs && Exec(true, acts).reqs[id].Asked?
    ensures var s := Exec(true, acts); var token := s.reqs[id].token; var active := ActiveClaims(s.rows, token, s.now);
      (CheckStep(true, s, id, token, redis).reqs[id].Rejected? ==> active.None?) <==> redis.Up? || active.None?
  {
    Reachable(true, acts);
  }

  /** Whenever Redis is down, the check turns away every token that would have been accepted without it. */
  lemma {:induction false} OutageTurnsAway(s: Sys, id: nat, token: string, heir: string, ttl: int)
    requires Inv(s) && id in s.reqs && s.reqs[id] == Asked(token) && heir !in s.minted
    requires ActiveClaims(s.rows, token, s.now).Some?
    ensures exists acts: seq<Action> ::
      && id in ExecFrom(true, s, acts).reqs && ExecFrom(true, s, acts).reqs[id].Rejected?
      && id in ExecFrom(false, s, acts).reqs && ExecFrom(false, s, acts).reqs[id].Accepted?
  {
    UndisturbedRefresh(false, s, id, token, Down, heir, ttl);
    var step := Step(id, Done, Down, heir, ttl);
    var rest := [step] + ([step] + ([step] + ([step] + [])));
    ExecCons(true, s, step, rest);
    OverStays(true, Next(true, s, step), id, rest);
    assert Steps(step) == [step] + rest;
  }
}
