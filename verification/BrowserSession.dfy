/** One browser against the server: the interceptor decides when to refresh, the cookie holds the token it presents, and the
    server handles its request statement by statement among everybody else's. */
module BrowserSession {
  import opened Wrappers
  import opened TokenStore
  import Q = RefreshQueue
  import T = TokenSystem
  import TokenSessions

  /** `sent` is the server's number for the refresh in flight, `presented` every token the browser ever sent. */
  datatype Sys = Sys(q: Q.Sys, t: T.Sys, cookie: string, sent: Option<nat>, presented: seq<string>)

  datatype Action =
    | Page(e: Q.Event, id: nat)     // something happens in the browser; a refresh it starts gets the number `id`
    | Own(step: T.Action)           // the server advances the browser's refresh
    | Foreign(a: T.Action)          // anything else happens at the server
    | Answer(ending: Q.Ending)      // the answer reaches the browser

  /** The server's view of the browser's refresh. */
  predicate InFlight(s: Sys) {
    s.sent.Some? && s.sent.value in s.t.reqs
  }

  function Pc(s: Sys): T.Pc
    requires InFlight(s)
  {
    s.t.reqs[s.sent.value]
  }

  function PageStep(s: Sys, e: Q.Event, id: nat): Sys {
    var q := Q.Next(s.q, e);
    if q.inFlight <= s.q.inFlight then s.(q := q)
    else if id in s.t.reqs then s
    else s.(q := q, t := T.Next(true, s.t, T.Refresh(id, s.cookie)), sent := Some(id), presented := s.presented + [s.cookie])
  }

  /** An accepted refresh sets the cookie, whatever the page then makes of the answer. */
  function AnswerStep(s: Sys, ending: Q.Ending): Sys {
    if !InFlight(s) then s
    else match Pc(s)
      case Accepted(_, heir, _) => s.(q := Q.Next(s.q, Q.RefreshEnds(ending)), cookie := heir, sent := None)
      case Rejected => s.(q := Q.Next(s.q, Q.RefreshEnds(Q.Refused)), sent := None)
      case _ => s
  }

  function Next(s: Sys, a: Action): Sys {
    match a
    case Page(e, id) => if e.RefreshEnds? then s else PageStep(s, e, id)
    case Own(step) => if step.Step? && InFlight(s) && step.id == s.sent.value then s.(t := T.Next(true, s.t, step)) else s
    case Foreign(f) => if f.Step? && s.sent == Some(f.id) then s else s.(t := T.Next(true, s.t, f))
    case Answer(ending) => AnswerStep(s, ending)
  }

  function ExecFrom(s: Sys, acts: seq<Action>): Sys
    decreases |acts|
  {
    if acts == [] then s else ExecFrom(Next(s, acts[0]), acts[1..])
  }

  // ----- Undisturbed by outage, expiry and theft -----

  /** A request that may still revoke the token it came with. */
  predicate MayRevoke(pc: T.Pc) {
    pc.Asked? || pc.Cleared? || pc.Claimed? || pc.Leaving?
  }

  /** Tokens only this browser knows: its cookie and the one it is about to get. */
  predicate Secret(s: Sys, token: string) {
    token == s.cookie || (InFlight(s) && T.Minting(Pc(s)) && Pc(s).heir == token)
  }

  /** Database and Redis answer this browser, its token has not expired when it is looked up, a new token is not one somebody
      has guessed, and nobody else presents its tokens. Others may fare as they will. */
  ghost predicate Careful(s: Sys, a: Action) {
    match a
    case Own(step) =>
      step.Step? && InFlight(s) ==>
        && step.db.Done? && step.redis.Up?
        && (Pc(s).Cleared? && s.cookie in s.t.rows ==> s.t.rows[s.cookie].expiresAt > s.t.now)
        && (forall i | i in s.t.reqs && MayRevoke(s.t.reqs[i]) :: s.t.reqs[i].token != step.heir)
    case Foreign(f) => f.Refresh? || f.Logout? ==> !Secret(s, f.token)
    case _ => true
  }

  ghost predicate CarefulRun(s: Sys, acts: seq<Action>)
    decreases |acts|
  {
    acts == [] || (Careful(s, acts[0]) && CarefulRun(Next(s, acts[0]), acts[1..]))
  }

  // ----- The invariant -----

  /** The browser's own token, or its refresh, is in good order. */
  predicate TokenOk(s: Sys) {
    if s.sent.None? then Unrevoked(s.t.rows, s.cookie) else InFlight(s) && RefreshOk(s, Pc(s))
  }

  predicate RefreshOk(s: Sys, pc: T.Pc) {
    match pc
    case Asked(t) => t == s.cookie && Unrevoked(s.t.rows, t)
    case Cleared(t) => t == s.cookie && Unrevoked(s.t.rows, t)
    case Claimed(t, _) => t == s.cookie && Unrevoked(s.t.rows, t)
    case Revoked(t, _, _, _) => t == s.cookie
    case Inserting(t, _, _, _) => t == s.cookie
    case Accepted(t, heir, _) => t == s.cookie && Unrevoked(s.t.rows, heir)
    case _ => false
  }

  ghost predicate SecretsKept(s: Sys) {
    forall i | i in s.t.reqs && s.sent != Some(i) && MayRevoke(s.t.reqs[i]) :: !Secret(s, s.t.reqs[i].token)
  }

  predicate Used(s: Sys, token: string) {
    token in s.t.rows && s.t.rows[token].revoked
  }

  /** All tokens sent so far are used up, except the one in flight. */
  ghost predicate PresentedOk(s: Sys) {
    && |s.presented| == |s.q.leaders|
    && (forall i, j | 0 <= i < j < |s.presented| :: s.presented[i] != s.presented[j])
    && (s.sent.None? ==> forall i | 0 <= i < |s.presented| :: Used(s, s.presented[i]))
    && (s.sent.Some? ==> s.presented != [] && s.presented[|s.presented| - 1] == s.cookie
                         && forall i | 0 <= i < |s.presented| - 1 :: Used(s, s.presented[i]))
  }

  ghost predicate Healthy(s: Sys) {
    && T.Inv(s.t) && Q.Inv(s.q)
    && s.q.inFlight == (if s.sent.Some? then 1 else 0)
    && TokenOk(s) && SecretsKept(s) && PresentedOk(s)
  }

  // ----- Steps at the server -----

  /** A step of a request that does not hold a token leaves the token's row alone. */
  lemma RowUntouched(t: T.Sys, a: T.Action, token: string)
    requires T.RowsOk(t) && T.ReqsOk(t) && Unrevoked(t.rows, token)
    requires a.Step? && a.id in t.reqs && MayRevoke(t.reqs[a.id]) ==> t.reqs[a.id].token != token
    ensures Unrevoked(T.Next(true, t, a).rows, token)
  {
    assert token in t.minted;
    if a.Step? && a.id in t.reqs {
      assert T.ReqOk(t, t.reqs[a.id]);
    }
  }

  lemma UsedStays(s: Sys, a: T.Action, token: string)
    requires T.RowsOk(s.t) && T.ReqsOk(s.t) && Used(s, token)
    ensures token in T.Next(true, s.t, a).rows && T.Next(true, s.t, a).rows[token].revoked
  {
    T.NextKeepsRows(true, s.t, a, token);
  }

  lemma ServerKeepsPresented(s: Sys, a: T.Action)
    requires T.RowsOk(s.t) && T.ReqsOk(s.t) && PresentedOk(s)
    ensures PresentedOk(s.(t := T.Next(true, s.t, a)))
  {
    forall i | 0 <= i < |s.presented| && Used(s, s.presented[i]) ensures Used(s.(t := T.Next(true, s.t, a)), s.presented[i]) {
      UsedStays(s, a, s.presented[i]);
    }
  }

  /** A request keeps the token it came with. */
  lemma StepKeepsToken(t: T.Sys, a: T.Action)
    requires a.Step? && a.id in t.reqs
    ensures var pc := T.Next(true, t, a).reqs[a.id]; MayRevoke(pc) ==> MayRevoke(t.reqs[a.id]) && pc.token == t.reqs[a.id].token
  {
  }

  /** The browser's refresh goes forward and is never refused. */
  lemma OwnStepAdvances(s: Sys, step: T.Action)
    requires T.BlacklistOk(s.t) && T.RowsOk(s.t) && TokenOk(s) && InFlight(s) && step.Step? && step.id == s.sent.value && Careful(s, Own(step))
    ensures TokenOk(s.(t := T.Next(true, s.t, step)))
    ensures var pc := T.Next(true, s.t, step).reqs[step.id];
      T.Minting(pc) ==> pc.heir == (if T.Minting(Pc(s)) then Pc(s).heir else step.heir)
  {
  }

  lemma OwnKeepsHealthy(s: Sys, step: T.Action)
    requires Healthy(s) && InFlight(s) && step.Step? && step.id == s.sent.value && Careful(s, Own(step))
    ensures Healthy(s.(t := T.Next(true, s.t, step)))
  {
    var s' := s.(t := T.Next(true, s.t, step));
    T.NextKeepsInv(true, s.t, step);
    T.StepMovesOne(true, s.t, step);
    OwnStepAdvances(s, step);
    ServerKeepsPresented(s, step);
    forall i | i in s'.t.reqs && s'.sent != Some(i) && MayRevoke(s'.t.reqs[i]) ensures !Secret(s', s'.t.reqs[i].token) {
      assert s'.t.reqs[i] == s.t.reqs[i];
    }
  }

  /** What others do changes neither the browser's request nor its live token. */
  lemma ForeignLeavesAlone(s: Sys, f: T.Action)
    requires T.RowsOk(s.t) && T.ReqsOk(s.t) && TokenOk(s) && SecretsKept(s) && !(f.Step? && s.sent == Some(f.id))
    ensures TokenOk(s.(t := T.Next(true, s.t, f)))
    ensures InFlight(s) ==> InFlight(s.(t := T.Next(true, s.t, f))) && Pc(s.(t := T.Next(true, s.t, f))) == Pc(s)
  {
    if f.Step? && f.id in s.t.reqs {
      T.StepMovesOne(true, s.t, f);
    }
    if Unrevoked(s.t.rows, s.cookie) {
      RowUntouched(s.t, f, s.cookie);
    }
    if InFlight(s) && Pc(s).Accepted? {
      RowUntouched(s.t, f, Pc(s).heir);
    }
  }

  lemma ForeignKeepsSecrets(s: Sys, f: T.Action)
    requires T.RowsOk(s.t) && T.ReqsOk(s.t) && TokenOk(s) && SecretsKept(s) && Careful(s, Foreign(f)) && !(f.Step? && s.sent == Some(f.id))
    ensures SecretsKept(s.(t := T.Next(true, s.t, f)))
  {
    var s' := s.(t := T.Next(true, s.t, f));
    ForeignLeavesAlone(s, f);
    if f.Step? && f.id in s.t.reqs {
      T.StepMovesOne(true, s.t, f);
      StepKeepsToken(s.t, f);
    }
    forall i | i in s'.t.reqs && s'.sent != Some(i) && MayRevoke(s'.t.reqs[i]) ensures !Secret(s', s'.t.reqs[i].token) {
      assert forall token :: Secret(s', token) ==> Secret(s, token);
    }
  }

  lemma ForeignKeepsHealthy(s: Sys, f: T.Action)
    requires Healthy(s) && Careful(s, Foreign(f)) && !(f.Step? && s.sent == Some(f.id))
    ensures Healthy(s.(t := T.Next(true, s.t, f)))
  {
    T.NextKeepsInv(true, s.t, f);
    ForeignLeavesAlone(s, f);
    ForeignKeepsSecrets(s, f);
    ServerKeepsPresented(s, f);
  }

  // ----- Steps in the browser -----

  /** A page event starts at most one refresh, and only when none is in flight. */
  lemma PageStartsOne(q: Q.Sys, e: Q.Event)
    requires Q.Inv(q) && !e.RefreshEnds?
    ensures Q.Inv(Q.Next(q, e))
    ensures var q' := Q.Next(q, e);
      if q'.inFlight > q.inFlight then q.inFlight == 0 && q'.inFlight == 1 && |q'.leaders| == |q.leaders| + 1
      else q'.inFlight == q.inFlight && q'.leaders == q.leaders
  {
    Q.NextKeepsInv(q, e);
  }

  /** A refresh that has just been sent, as far as tokens are concerned. */
  lemma SentKeepsSecrets(s: Sys, s': Sys, id: nat)
    requires SecretsKept(s) && s.sent.None?
    requires s'.sent == Some(id) && s'.cookie == s.cookie && s'.t.reqs == s.t.reqs[id := T.Asked(s.cookie)]
    ensures SecretsKept(s')
  {
  }

  lemma SentKeepsPresented(s: Sys, s': Sys, id: nat)
    requires PresentedOk(s) && s.sent.None? && Unrevoked(s.t.rows, s.cookie)
    requires s'.sent == Some(id) && s'.cookie == s.cookie && s'.t.rows == s.t.rows
    requires s'.presented == s.presented + [s.cookie] && |s'.q.leaders| == |s.q.leaders| + 1
    ensures PresentedOk(s')
  {
    forall i | 0 <= i < |s.presented| ensures Used(s', s.presented[i]) && s.presented[i] != s.cookie {
      assert Used(s, s.presented[i]);
    }
  }

  lemma RefreshArrives(t: T.Sys, id: nat, token: string)
    requires T.Inv(t) && id !in t.reqs
    ensures var t' := T.Next(true, t, T.Refresh(id, token)); T.Inv(t') && t' == t.(reqs := t.reqs[id := T.Asked(token)])
  {
    T.NextKeepsInv(true, t, T.Refresh(id, token));
  }

  lemma LeadKeepsHealthy(s: Sys, e: Q.Event, id: nat)
    requires Healthy(s) && !e.RefreshEnds? && Q.Next(s.q, e).inFlight > s.q.inFlight && id !in s.t.reqs
    ensures Healthy(PageStep(s, e, id))
  {
    PageStartsOne(s.q, e);
    RefreshArrives(s.t, id, s.cookie);
    SentKeepsSecrets(s, PageStep(s, e, id), id);
    SentKeepsPresented(s, PageStep(s, e, id), id);
  }

  lemma QuietPageKeepsHealthy(s: Sys, e: Q.Event, id: nat)
    requires Healthy(s) && !e.RefreshEnds? && Q.Next(s.q, e).inFlight <= s.q.inFlight
    ensures Healthy(PageStep(s, e, id))
  {
    PageStartsOne(s.q, e);
    OnlyPageMoved(s, Q.Next(s.q, e));
  }

  lemma OnlyPageMoved(s: Sys, q: Q.Sys)
    requires TokenOk(s) && SecretsKept(s) && PresentedOk(s) && q.leaders == s.q.leaders
    ensures TokenOk(s.(q := q)) && SecretsKept(s.(q := q)) && PresentedOk(s.(q := q))
  {
    var s' := s.(q := q);
    forall token ensures Secret(s', token) <==> Secret(s, token) && (Used(s', token) <==> Used(s, token)) {
    }
  }

  lemma PageKeepsHealthy(s: Sys, e: Q.Event, id: nat)
    requires Healthy(s) && !e.RefreshEnds?
    ensures Healthy(PageStep(s, e, id))
  {
    if Q.Next(s.q, e).inFlight <= s.q.inFlight {
      QuietPageKeepsHealthy(s, e, id);
    } else if id !in s.t.reqs {
      LeadKeepsHealthy(s, e, id);
    }
  }

  /** The new cookie is the secret the refresh held before. */
  lemma AnsweredKeepsSecrets(s: Sys, s': Sys)
    requires SecretsKept(s) && InFlight(s) && Pc(s).Accepted?
    requires s'.sent.None? && s'.cookie == Pc(s).heir && s'.t == s.t
    ensures SecretsKept(s')
  {
  }

  lemma AnsweredKeepsPresented(s: Sys, s': Sys)
    requires PresentedOk(s) && s.sent.Some? && Used(s, s.cookie)
    requires s'.sent.None? && s'.t == s.t && s'.presented == s.presented && |s'.q.leaders| == |s.q.leaders|
    ensures PresentedOk(s')
  {
    forall i | 0 <= i < |s'.presented| ensures Used(s', s'.presented[i]) {
      assert i < |s.presented| - 1 ==> Used(s, s.presented[i]);
    }
  }

  lemma EndOfRefresh(q: Q.Sys, ending: Q.Ending)
    requires Q.Inv(q) && q.inFlight == 1
    ensures var q' := Q.Next(q, Q.RefreshEnds(ending)); Q.Inv(q') && q'.inFlight == 0 && q'.leaders == q.leaders
  {
    Q.NextKeepsInv(q, Q.RefreshEnds(ending));
  }

  /** The token an accepted request presented is used up. */
  lemma AcceptedIsUsed(s: Sys)
    requires T.RowsOk(s.t) && T.ReqsOk(s.t) && TokenOk(s) && InFlight(s) && Pc(s).Accepted?
    ensures Used(s, s.cookie)
  {
    assert T.ReqOk(s.t, Pc(s));
  }

  lemma AnswerKeepsHealthy(s: Sys, ending: Q.Ending)
    requires Healthy(s)
    ensures Healthy(AnswerStep(s, ending))
  {
    if InFlight(s) && Pc(s).Accepted? {
      EndOfRefresh(s.q, ending);
      AcceptedIsUsed(s);
      AnsweredKeepsSecrets(s, AnswerStep(s, ending));
      AnsweredKeepsPresented(s, AnswerStep(s, ending));
    }
  }

  lemma NextKeepsHealthy(s: Sys, a: Action)
    requires Healthy(s) && Careful(s, a)
    ensures Healthy(Next(s, a))
  {
    match a
    case Page(e, id) => if !e.RefreshEnds? { PageKeepsHealthy(s, e, id); }
    case Own(step) => if step.Step? && InFlight(s) && step.id == s.sent.value { OwnKeepsHealthy(s, step); }
    case Foreign(f) => if !(f.Step? && s.sent == Some(f.id)) { ForeignKeepsHealthy(s, f); }
    case Answer(ending) => AnswerKeepsHealthy(s, ending);
  }

  lemma {:induction false} RunKeepsHealthy(s: Sys, acts: seq<Action>)
    requires Healthy(s) && CarefulRun(s, acts)
    ensures Healthy(ExecFrom(s, acts))
    decreases |acts|
  {
    if acts != [] {
      NextKeepsHealthy(s, acts[0]);
      RunKeepsHealthy(Next(s, acts[0]), acts[1..]);
    }
  }

  // ----- What single flight is for -----

  /** The browser right after signing in with a fresh token nobody has guessed. */
  function SignedIn(before: seq<T.Action>, token: string, claims: Claims, ttl: int): Sys {
    Sys(Q.INIT, T.Next(true, T.Exec(true, before), T.SignIn(token, claims, ttl)), token, None, [])
  }

  lemma SignedInIsHealthy(before: seq<T.Action>, token: string, claims: Claims, ttl: int)
    requires var t := T.Exec(true, before);
      token !in t.minted && forall i | i in t.reqs && MayRevoke(t.reqs[i]) :: t.reqs[i].token != token
    ensures Healthy(SignedIn(before, token, claims, ttl))
  {
    T.Reachable(true, before);
    T.NextKeepsInv(true, T.Exec(true, before), T.SignIn(token, claims, ttl));
    Q.RunKeepsInv([]);
  }

  /** After any sign-in and however the page, the server and everybody else go on: the browser presents each refresh token at
      most once, starts as many refreshes as it presents tokens, and, without outage, expiry or theft, none of them is refused. */
  lemma {:induction false} EveryRefreshIsAccepted(before: seq<T.Action>, token: string, claims: Claims, ttl: int, acts: seq<Action>)
    requires var t := T.Exec(true, before);
      token !in t.minted && forall i | i in t.reqs && MayRevoke(t.reqs[i]) :: t.reqs[i].token != token
    requires CarefulRun(SignedIn(before, token, claims, ttl), acts)
    ensures var s := ExecFrom(SignedIn(before, token, claims, ttl), acts);
      && (forall i, j | 0 <= i < j < |s.presented| :: s.presented[i] != s.presented[j])
      && |s.presented| == |s.q.leaders|
      && (s.sent.Some? ==> InFlight(s) && !Pc(s).Rejected?)
      && (s.sent.None? ==> Unrevoked(s.t.rows, s.cookie))
  {
    SignedInIsHealthy(before, token, claims, ttl);
    RunKeepsHealthy(SignedIn(before, token, claims, ttl), acts);
  }

  // ----- A whole refresh -----

  /** The five statements of a refresh and its answer, with nothing in between. */
  function Round(id: nat, r: nat, heir: string, ttl: int): seq<Action> {
    [Page(Q.Unauthorized(r), id)] + (OwnSteps(id, heir, ttl, 5) + [Answer(Q.Renewed)])
  }

  function OwnSteps(id: nat, heir: string, ttl: int, n: nat): seq<Action> {
    if n == 0 then [] else [Own(T.Step(id, Done, T.Up(0), heir, ttl))] + OwnSteps(id, heir, ttl, n - 1)
  }

  function ServerSteps(id: nat, heir: string, ttl: int, n: nat): seq<T.Action> {
    if n == 0 then [] else [T.Step(id, Done, T.Up(0), heir, ttl)] + ServerSteps(id, heir, ttl, n - 1)
  }

  /** The server's part of a round is a run of the server alone. */
  lemma {:induction false} OwnStepsAreServerSteps(s: Sys, id: nat, heir: string, ttl: int, n: nat, rest: seq<Action>)
    requires s.sent == Some(id) && InFlight(s)
    ensures ExecFrom(s, OwnSteps(id, heir, ttl, n) + rest) == ExecFrom(s.(t := T.ExecFrom(true, s.t, ServerSteps(id, heir, ttl, n))), rest)
    decreases n
  {
    if n == 0 {
      assert OwnSteps(id, heir, ttl, n) + rest == rest;
    } else {
      var step := T.Step(id, Done, T.Up(0), heir, ttl);
      var acts := OwnSteps(id, heir, ttl, n) + rest;
      assert acts[0] == Own(step) && acts[1..] == OwnSteps(id, heir, ttl, n - 1) + rest;
      assert ServerSteps(id, heir, ttl, n)[1..] == ServerSteps(id, heir, ttl, n - 1);
      T.StepMovesOne(true, s.t, step);
      OwnStepsAreServerSteps(s.(t := T.Next(true, s.t, step)), id, heir, ttl, n - 1, rest);
    }
  }

  lemma {:induction false} FiveServerSteps(id: nat, heir: string, ttl: int)
    ensures ServerSteps(id, heir, ttl, 5) == TokenSessions.Steps(T.Step(id, Done, T.Up(0), heir, ttl))
  {
    var step := T.Step(id, Done, T.Up(0), heir, ttl);
    assert ServerSteps(id, heir, ttl, 1) == [step] + [];
    assert ServerSteps(id, heir, ttl, 2) == [step] + ([step] + []);
    assert ServerSteps(id, heir, ttl, 3) == [step] + ([step] + ([step] + []));
    assert ServerSteps(id, heir, ttl, 4) == [step] + ([step] + ([step] + ([step] + [])));
  }

  lemma LeadSends(s: Sys, r: nat, id: nat)
    requires Healthy(s) && s.sent.None? && id !in s.t.reqs
    requires r in s.q.reqs && s.q.reqs[r] == Q.Req(Q.Sent, false)
    ensures var s' := PageStep(s, Q.Unauthorized(r), id);
      && s'.sent == Some(id) && InFlight(s') && s'.cookie == s.cookie
      && s'.t == s.t.(reqs := s.t.reqs[id := T.Asked(s.cookie)])
      && s'.q.isRefreshing && s'.q.reqs == s.q.reqs[r := Q.Req(Q.Leading, true)] && s'.q.leaders == s.q.leaders + [r] && s'.q.inFlight == 1
  {
  }

  /** The answer makes the heir the cookie and sends the leading request again. */
  lemma AnswerRenews(s: Sys, r: nat)
    requires InFlight(s) && Pc(s).Accepted? && s.q.inFlight > 0 && s.q.leaders != [] && r in s.q.reqs && s.q.reqs[r] == Q.Req(Q.Leading, true)
    ensures var end := AnswerStep(s, Q.Renewed);
      && end.cookie == Pc(s).heir && end.sent.None? && end.t == s.t
      && !end.q.isRefreshing && end.q.queue == [] && r in end.q.reqs && end.q.reqs[r] == Q.Req(Q.Sent, true)
  {
  }

  lemma {:induction false} ExecCons(s: Sys, a: Action, rest: seq<Action>)
    ensures ExecFrom(s, [a] + rest) == ExecFrom(Next(s, a), rest)
  {
    assert ([a] + rest)[1..] == rest;
  }

  /** A browser whose token has not expired gets through a 401: the request leads a refresh, the cookie becomes the new token,
      which speaks for the same user, and the request is sent again. */
  lemma {:induction false} RefreshGoesThrough(s: Sys, r: nat, id: nat, heir: string, ttl: int)
    requires Healthy(s) && s.sent.None? && id !in s.t.reqs && heir !in s.t.minted
    requires r in s.q.reqs && s.q.reqs[r] == Q.Req(Q.Sent, false)
    requires s.cookie in s.t.rows && s.t.rows[s.cookie].expiresAt > s.t.now
    ensures var end := ExecFrom(s, Round(id, r, heir, ttl));
      && end.cookie == heir && end.sent.None? && !end.q.isRefreshing && r in end.q.reqs && end.q.reqs[r] == Q.Req(Q.Sent, true)
      && (forall t: int :: ActiveClaims(end.t.rows, heir, t) == if t < s.t.now + ttl then Some(s.t.rows[s.cookie].claims) else None)
  {
    var s1 := PageStep(s, Q.Unauthorized(r), id);
    LeadSends(s, r, id);
    ExecCons(s, Page(Q.Unauthorized(r), id), OwnSteps(id, heir, ttl, 5) + [Answer(Q.Renewed)]);
    ServerAccepts(s1, id, heir, ttl);
    AnswerRenews(AfterServer(s1, id, heir, ttl), r);
  }

  function AfterServer(s: Sys, id: nat, heir: string, ttl: int): Sys {
    s.(t := T.ExecFrom(true, s.t, ServerSteps(id, heir, ttl, 5)))
  }

  lemma {:induction false} ServerAccepts(s: Sys, id: nat, heir: string, ttl: int)
    requires s.sent == Some(id) && InFlight(s) && Pc(s) == T.Asked(s.cookie) && T.BlacklistOk(s.t) && heir !in s.t.minted
    requires ActiveClaims(s.t.rows, s.cookie, s.t.now).Some?
    ensures var s' := AfterServer(s, id, heir, ttl);
      && ExecFrom(s, OwnSteps(id, heir, ttl, 5) + [Answer(Q.Renewed)]) == Next(s', Answer(Q.Renewed))
      && InFlight(s') && Pc(s') == T.Accepted(s.cookie, heir, s.t.rows[s.cookie].claims)
      && s'.t.rows == RotatedRows(s.t.rows, s.cookie, heir, ttl, s.t.now)
  {
    OwnStepsAreServerSteps(s, id, heir, ttl, 5, [Answer(Q.Renewed)]);
    FiveServerSteps(id, heir, ttl);
    TokenSessions.UndisturbedRefresh(true, s.t, id, s.cookie, T.Up(0), heir, ttl);
    LastAction(AfterServer(s, id, heir, ttl), Answer(Q.Renewed));
  }

  lemma {:induction false} LastAction(s: Sys, a: Action)
    ensures ExecFrom(s, [a]) == Next(s, a)
  {
    assert [a][1..] == [];
  }
}
