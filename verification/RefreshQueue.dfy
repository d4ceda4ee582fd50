/** The browser's response interceptor: the first request to see a 401 refreshes the session, the
    others wait in a queue until that refresh is over. */
module RefreshQueue {

  /** How a refresh can end: it works; it fails, or its answer cannot be stored; or the waiting requests are released
      and resending the leading one throws. */
  datatype Ending = Renewed | Refused | Broken

  /** A promise handed out to a waiting request during the refresh with that number. */
  datatype Ticket = Ticket(request: nat, episode: nat)

  /** A promise being kept or broken by a refresh. */
  datatype Settlement = Settlement(ticket: nat, episode: nat, ok: bool)

  function SettleAll(queue: seq<nat>, episode: nat, ok: bool): seq<Settlement> {
    seq(|queue|, i requires 0 <= i < |queue| => Settlement(queue[i], episode, ok))
  }

  // ----- The interceptor among its requests, event by event -----

  datatype Status =
    | Sent                  // on the wire
    | Leading               // waiting for the refresh it started
    | Parked(ticket: nat)
    | Released              // promise kept, about to be sent again
    | Closed

  /** `retried` is the mark a request gets when it leads a refresh. */
  datatype Req = Req(status: Status, retried: bool)

  datatype Sys = Sys(
    isRefreshing: bool, queue: seq<nat>, inFlight: nat,
    reqs: map<nat, Req>, tickets: seq<Ticket>, settled: seq<Settlement>, leaders: seq<nat>)

  datatype Event =
    | Send(r: nat)
    | Unauthorized(r: nat)     // 401
    | Other(r: nat)            // any other response or error
    | Resend(r: nat)           // the continuation of a kept promise
    | RefreshEnds(ending: Ending)

  const INIT := Sys(false, [], 0, map[], [], [], [])

  function Mark(s: Sys, r: nat, req: Req): Sys {
    s.(reqs := s.reqs[r := req])
  }

  function OnUnauthorized(s: Sys, r: nat): Sys
    requires r in s.reqs
  {
    if s.reqs[r].retried then Mark(s, r, Req(Closed, true))
    else if s.isRefreshing then
      var n := |s.tickets|;
      Mark(s, r, Req(Parked(n), false)).(queue := s.queue + [n], tickets := s.tickets + [Ticket(r, |s.leaders|)])
    else
      Mark(s, r, Req(Leading, true)).(isRefreshing := true, inFlight := s.inFlight + 1, leaders := s.leaders + [r])
  }

  /** What the end of a refresh does to a request. */
  function AfterEnd(s: Sys, r: nat, ending: Ending): Req
    requires r in s.reqs
  {
    var req := s.reqs[r];
    if req.status.Leading? then req.(status := if ending.Renewed? then Sent else Closed)
    else if req.status.Parked? && req.status.ticket in s.queue then req.(status := if ending.Refused? then Closed else Released)
    else req
  }

  function OnRefreshEnded(s: Sys, ending: Ending): Sys
    requires s.leaders != []
  {
    s.(isRefreshing := false, queue := [], inFlight := if s.inFlight > 0 then s.inFlight - 1 else 0,
       reqs := map r | r in s.reqs :: AfterEnd(s, r, ending),
       settled := s.settled + SettleAll(s.queue, |s.leaders|, !ending.Refused?))
  }

  function Next(s: Sys, e: Event): Sys {
    match e
    case Send(r) => if r in s.reqs then s else Mark(s, r, Req(Sent, false))
    case Unauthorized(r) => if r in s.reqs && s.reqs[r].status.Sent? then OnUnauthorized(s, r) else s
    case Other(r) => if r in s.reqs && s.reqs[r].status.Sent? then Mark(s, r, s.reqs[r].(status := Closed)) else s
    case Resend(r) => if r in s.reqs && s.reqs[r].status.Released? then Mark(s, r, s.reqs[r].(status := Sent)) else s
    case RefreshEnds(ending) => if s.inFlight > 0 && s.leaders != [] then OnRefreshEnded(s, ending) else s
  }

  function Exec(events: seq<Event>): Sys {
    if events == [] then INIT else Next(Exec(events[..|events| - 1]), events[|events| - 1])
  }

  // ----- The closure itself -----

  class Interceptor {
    var isRefreshing: bool
    var pendingQueue: seq<nat>
    /** Promises handed out and settled so far, and refreshes started. */
    var promises: nat
    var settled: seq<Settlement>
    var episodes: nat
    /** The events so far. */
    ghost var run: seq<Event>

    /** The closure's variables are those of the machine after the same events. */
    ghost predicate Valid() reads this {
      var s := Exec(run);
      && isRefreshing == s.isRefreshing && pendingQueue == s.queue && settled == s.settled
      && promises == |s.tickets| && episodes == |s.leaders|
    }

    constructor ()
      ensures Valid() && run == []
    {
      isRefreshing, pendingQueue, promises, settled, episodes, run := false, [], 0, [], 0, [];
    }

    /** Events the closure takes no part in. */
    ghost method Observe(e: Event)
      requires Valid() && (e.Send? || e.Other? || e.Resend?)
      modifies this`run
      ensures Valid() && run == old(run) + [e]
    {
      assert (run + [e])[..|run|] == run;
      run := run + [e];
    }

    /** A 401: a request that led a refresh before fails; otherwise it waits if a refresh is running, else leads one. */
    method OnUnauthorized(r: nat, retried: bool) returns (leads: bool)
      requires Valid() && r in Exec(run).reqs && Exec(run).reqs[r] == Req(Sent, retried)
      modifies this
      ensures Valid() && run == old(run) + [Unauthorized(r)]
      ensures leads <==> !retried && !old(isRefreshing)
      ensures pendingQueue == old(pendingQueue) + if !retried && old(isRefreshing) then [old(promises)] else []
      ensures isRefreshing <==> old(isRefreshing) || leads
      ensures episodes == old(episodes) + (if leads then 1 else 0) && settled == old(settled)
    {
      assert (run + [Unauthorized(r)])[..|run|] == run;
      run := run + [Unauthorized(r)];
      leads := false;
      if !retried {
        if isRefreshing {
          pendingQueue := pendingQueue + [promises];
          promises := promises + 1;
        } else {
          isRefreshing := true;
          episodes := episodes + 1;
          leads := true;
        }
      }
    }

    method ProcessQueue(ok: bool)
      modifies this`pendingQueue, this`settled
      ensures pendingQueue == []
      ensures settled == old(settled) + SettleAll(old(pendingQueue), episodes, ok)
    {
      var i := 0;
      while i < |pendingQueue|
        invariant 0 <= i <= |pendingQueue| && pendingQueue == old(pendingQueue)
        invariant settled == old(settled) + SettleAll(pendingQueue[..i], episodes, ok)
      {
        settled := settled + [Settlement(pendingQueue[i], episodes, ok)];
        i := i + 1;
      }
      assert pendingQueue[..i] == pendingQueue;
      pendingQueue := [];
    }

    /** The continuation of the refresh, in the order of its try, catch and finally blocks. */
    method OnRefreshEnded(ending: Ending)
      requires Valid() && isRefreshing
      modifies this
      ensures Valid() && run == old(run) + [RefreshEnds(ending)]
      ensures !isRefreshing && pendingQueue == []
      ensures settled == old(settled) + SettleAll(old(pendingQueue), old(episodes), !ending.Refused?)
      ensures |settled| == |old(settled)| + |old(pendingQueue)| && old(settled) <= settled
      ensures forall i | 0 <= i < |old(pendingQueue)| ::
        settled[|old(settled)| + i] == Settlement(old(pendingQueue)[i], old(episodes), ending == Renewed || ending == Broken)
    {
      RunKeepsInv(run);
      if !ending.Refused? {
        ProcessQueue(true);
      }
      if !ending.Renewed? {
        ProcessQueue(false);
      }
      isRefreshing := false;
      assert (run + [RefreshEnds(ending)])[..|run|] == run;
      run := run + [RefreshEnds(ending)];
    }
  }

  // ----- The invariant -----

  /** Tickets are settled in the order of issue: those settled, then those waiting, make up all of them. */
  ghost predicate QueueOk(s: Sys) {
    && s.inFlight == (if s.isRefreshing then 1 else 0)
    && (s.isRefreshing ==> s.leaders != [])
    && (s.queue != [] ==> s.isRefreshing)
    && |s.settled| + |s.queue| == |s.tickets|
    && (forall i | 0 <= i < |s.settled| :: s.settled[i].ticket == i && s.settled[i].episode == s.tickets[i].episode)
    && (forall j | 0 <= j < |s.queue| :: s.queue[j] == |s.settled| + j)
    && (forall n | |s.settled| <= n < |s.tickets| :: s.tickets[n].episode == |s.leaders|)
  }

  ghost predicate LeadersOk(s: Sys) {
    && (forall i | 0 <= i < |s.leaders| :: s.leaders[i] in s.reqs && s.reqs[s.leaders[i]].retried)
    && (forall i, j | 0 <= i < j < |s.leaders| :: s.leaders[i] != s.leaders[j])
    && (forall r | r in s.reqs && s.reqs[r].status.Leading? :: s.isRefreshing && s.leaders != [] && r == s.leaders[|s.leaders| - 1])
  }

  /** A parked request waits in the queue with its own ticket. */
  ghost predicate ParkedOk(s: Sys) {
    forall r | r in s.reqs && s.reqs[r].status.Parked? ::
      var n := s.reqs[r].status.ticket; |s.settled| <= n < |s.tickets| && s.tickets[n].request == r
  }

  ghost predicate Inv(s: Sys) {
    QueueOk(s) && LeadersOk(s) && ParkedOk(s)
  }

  lemma UnauthorizedKeepsQueue(s: Sys, r: nat)
    requires QueueOk(s) && r in s.reqs
    ensures QueueOk(OnUnauthorized(s, r))
  {
    var s' := OnUnauthorized(s, r);
    forall j | 0 <= j < |s'.queue| ensures s'.queue[j] == |s'.settled| + j {
      assert j < |s.queue| ==> s'.queue[j] == s.queue[j];
    }
  }

  lemma UnauthorizedKeepsInv(s: Sys, r: nat)
    requires Inv(s) && r in s.reqs && s.reqs[r].status.Sent?
    ensures Inv(OnUnauthorized(s, r))
  {
    var s' := OnUnauthorized(s, r);
    UnauthorizedKeepsQueue(s, r);
    assert LeadersOk(s');
    assert ParkedOk(s');
  }

  lemma QueueMembers(s: Sys, n: nat)
    requires QueueOk(s) && |s.settled| <= n < |s.tickets|
    ensures n in s.queue
  {
    assert s.queue[n - |s.settled|] == n;
  }

  lemma EndKeepsInv(s: Sys, ending: Ending)
    requires Inv(s) && s.inFlight > 0 && s.leaders != []
    ensures Inv(OnRefreshEnded(s, ending))
  {
    var s' := OnRefreshEnded(s, ending);
    forall r | r in s'.reqs ensures !s'.reqs[r].status.Leading? && !s'.reqs[r].status.Parked? && s'.reqs[r].retried == s.reqs[r].retried {
      if s.reqs[r].status.Parked? {
        QueueMembers(s, s.reqs[r].status.ticket);
      }
    }
    assert QueueOk(s') by {
      forall i | 0 <= i < |s'.settled| ensures s'.settled[i].ticket == i && s'.settled[i].episode == s'.tickets[i].episode {
        if i >= |s.settled| {
          assert s'.settled[i] == Settlement(s.queue[i - |s.settled|], |s.leaders|, !ending.Refused?);
        }
      }
    }
  }

  /** Events that only move one request between the wire and the application. */
  lemma StatusKeepsInv(s: Sys, r: nat, req: Req)
    requires Inv(s) && !req.status.Leading? && !req.status.Parked?
    requires r in s.reqs ==> req.retried == s.reqs[r].retried
    ensures Inv(Mark(s, r, req))
  {
    var s' := Mark(s, r, req);
    assert QueueOk(s');
    assert LeadersOk(s');
    assert ParkedOk(s');
  }

  lemma NextKeepsInv(s: Sys, e: Event)
    requires Inv(s)
    ensures Inv(Next(s, e))
  {
    match e
    case Unauthorized(r) => if r in s.reqs && s.reqs[r].status.Sent? { UnauthorizedKeepsInv(s, r); }
    case RefreshEnds(ending) => if s.inFlight > 0 && s.leaders != [] { EndKeepsInv(s, ending); }
    case Send(r) => if r !in s.reqs { StatusKeepsInv(s, r, Req(Sent, false)); }
    case Other(r) => if r in s.reqs && s.reqs[r].status.Sent? { StatusKeepsInv(s, r, s.reqs[r].(status := Closed)); }
    case Resend(r) => if r in s.reqs && s.reqs[r].status.Released? { StatusKeepsInv(s, r, s.reqs[r].(status := Sent)); }
  }

  lemma {:induction false} RunKeepsInv(events: seq<Event>)
    ensures Inv(Exec(events))
  {
    if events != [] {
      RunKeepsInv(events[..|events| - 1]);
      NextKeepsInv(Exec(events[..|events| - 1]), events[|events| - 1]);
    }
  }

  // ----- What every order of events guarantees -----

  /** One refresh at a time, and nobody waits without one. */
  lemma {:induction false} SingleFlight(events: seq<Event>)
    ensures var s := Exec(events); s.inFlight <= 1 && (s.inFlight == 1 <==> s.isRefreshing) && (s.queue != [] ==> s.isRefreshing)
  {
    RunKeepsInv(events);
  }

  /** Every promise is settled at most once, by the refresh during which it was made; and when no refresh is running
      all of them have been. */
  lemma {:induction false} SettledOnceByOwnRefresh(events: seq<Event>, n: nat)
    requires n < |Exec(events).tickets|
    ensures var s := Exec(events);
      && (n < |s.settled| ==> s.settled[n].ticket == n && s.settled[n].episode == s.tickets[n].episode)
      && (forall i | 0 <= i < |s.settled| && i != n :: s.settled[i].ticket != n)
      && (n in s.queue <==> n >= |s.settled|)
      && (!s.isRefreshing ==> n < |s.settled|)
  {
    RunKeepsInv(events);
    var s := Exec(events);
    if n >= |s.settled| {
      QueueMembers(s, n);
    }
  }

  /** Each request leads one refresh at most, so there are never more refreshes than requests. */
  lemma {:induction false} LeadsAtMostOnce(events: seq<Event>, i: nat, j: nat)
    ensures var s := Exec(events); i < j < |s.leaders| ==> s.leaders[i] != s.leaders[j]
    ensures |Exec(events).leaders| <= |Exec(events).reqs|
  {
    RunKeepsInv(events);
    var s := Exec(events);
    DistinctFit(s.leaders, s.reqs.Keys);
  }

  lemma {:induction false} DistinctFit(xs: seq<nat>, all: set<nat>)
    requires forall i | 0 <= i < |xs| :: xs[i] in all
    requires forall i, j | 0 <= i < j < |xs| :: xs[i] != xs[j]
    ensures |xs| <= |all|
  {
    if xs != [] {
      var n := |xs| - 1;
      DistinctFit(xs[..n], all - {xs[n]});
    }
  }

  /** Nobody waits for ever: the end of a refresh sends its leader and every parked request again if the session was renewed,
      closes them all if it was refused, and leaves everybody else alone. */
  lemma {:induction false} EndFreesEverybody(events: seq<Event>, ending: Ending, r: nat)
    requires Exec(events).isRefreshing && r in Exec(events).reqs
    ensures var before, after := Exec(events).reqs[r].status, Next(Exec(events), RefreshEnds(ending)).reqs[r].status;
      && !after.Parked? && !after.Leading?
      && (before.Parked? ==> after == if ending.Refused? then Closed else Released)
      && (before.Leading? ==> after == if ending.Renewed? then Sent else Closed)
      && (!before.Parked? && !before.Leading? ==> after == before)
  {
    RunKeepsInv(events);
    var s := Exec(events);
    if s.reqs[r].status.Parked? {
      QueueMembers(s, s.reqs[r].status.ticket);
    }
  }

  /** What a 401 does, in every run: a request that led a refresh before fails; any other waits for the refresh that is running,
      or, if none is, starts one and is marked. */
  lemma {:induction false} UnauthorizedIsHandled(events: seq<Event>, r: nat)
    requires r in Exec(events).reqs && Exec(events).reqs[r].status == Sent
    ensures var s, s' := Exec(events), Exec(events + [Unauthorized(r)]);
      && r in s'.reqs
      && (s.reqs[r].retried ==> s'.reqs[r] == Req(Closed, true) && s'.inFlight == s.inFlight && s'.queue == s.queue)
      && (!s.reqs[r].retried && s.isRefreshing ==>
            s'.reqs[r].status.Parked? && s'.reqs[r].status.ticket in s'.queue && !s'.reqs[r].retried && s'.inFlight == s.inFlight)
      && (!s.reqs[r].retried && !s.isRefreshing ==>
            s'.reqs[r] == Req(Leading, true) && s'.isRefreshing && s'.inFlight == s.inFlight + 1 && s'.leaders == s.leaders + [r])
  {
    assert (events + [Unauthorized(r)])[..|events|] == events;
  }
}
