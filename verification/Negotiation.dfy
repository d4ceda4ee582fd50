/** Task negotiations between agents: offers, answers, cancellations, expiry timers, and the running statistics. */
module Negotiation {
  import opened Wrappers

  datatype State = Pending | Accepted | Rejected | Cancelled

  /** `answers` lists every answer that took effect. */
  datatype Neg = Neg(state: State, createdAt: int, answers: seq<bool>)

  datatype Stats = Stats(proposed: nat, accepted: nat, rejected: nat, average: int)

  datatype Error = NotFound | InvalidState

  /** `live` is the service's table. `ever` keeps every negotiation ever proposed as its holders last saw it, and
      `durations` how long each accepted offer took; the service stores neither. */
  datatype Book = Book(live: map<string, Neg>, ever: map<string, Neg>, stats: Stats, durations: seq<int>)

  const EMPTY := Book(map[], map[], Stats(0, 0, 0, 0), [])

  // ----- The operations, each under the service lock -----

  function Put(b: Book, id: string, n: Neg): Book {
    b.(live := b.live[id := n], ever := b.ever[id := n])
  }

  function Propose(b: Book, id: string, now: int): Book {
    Put(b, id, Neg(Pending, now, [])).(stats := b.stats.(proposed := b.stats.proposed + 1))
  }

  /** The timer of an offer. */
  function Expire(b: Book, id: string): Book {
    if id in b.live && b.live[id].state.Pending?
      then b.(live := b.live - {id}, ever := b.ever[id := b.live[id].(state := Cancelled)])
      else b
  }

  /** The running average; zero counts as not set yet. */
  function Averaged(average: int, duration: int): int {
    if average == 0 then duration else (average * 3 + duration) / 4
  }

  function Answer(b: Book, id: string, accepted: bool, now: int): Book
    requires id in b.live
  {
    var n := b.live[id];
    var n1 := n.(state := if accepted then Accepted else Rejected, answers := n.answers + [accepted]);
    var b1 := Put(b, id, n1);
    if accepted
      then b1.(stats := b.stats.(accepted := b.stats.accepted + 1, average := Averaged(b.stats.average, now - n.createdAt)),
               durations := b.durations + [now - n.createdAt])
      else b1.(stats := b.stats.(rejected := b.stats.rejected + 1))
  }

  function Respond(b: Book, id: string, accepted: bool, now: int): Book {
    if id in b.live && b.live[id].state.Pending? then Answer(b, id, accepted, now) else b
  }

  /** Cancelling is allowed in any state, also after an answer. */
  function Cancel(b: Book, id: string): Book {
    if id in b.live then Put(b, id, b.live[id].(state := Cancelled)) else b
  }

  predicate Stale(n: Neg, maxAge: int, now: int) {
    now - n.createdAt > maxAge && !n.state.Pending?
  }

  function Cleanup(b: Book, maxAge: int, now: int): Book {
    b.(live := map id | id in b.live && !Stale(b.live[id], maxAge, now) :: b.live[id])
  }

  // ----- Runs -----

  datatype Event =
    | Proposed(id: string)
    | TimedOut(id: string)
    | Responded(id: string, accepted: bool)
    | Withdrawn(id: string)
    | Swept(maxAge: int)
    | Tick(elapsed: nat)

  datatype Sys = Sys(now: int, book: Book)

  function Next(s: Sys, e: Event): Sys {
    match e
    case Proposed(id) => if id in s.book.ever then s else s.(book := Propose(s.book, id, s.now))
    case TimedOut(id) => s.(book := Expire(s.book, id))
    case Responded(id, accepted) => s.(book := Respond(s.book, id, accepted, s.now))
    case Withdrawn(id) => s.(book := Cancel(s.book, id))
    case Swept(maxAge) => s.(book := Cleanup(s.book, maxAge, s.now))
    case Tick(elapsed) => s.(now := s.now + elapsed)
  }

  function Exec(events: seq<Event>): Sys {
    if events == [] then Sys(0, EMPTY) else Next(Exec(events[..|events| - 1]), events[|events| - 1])
  }

  // ----- The service object -----

  class Service {
    var negotiations: map<string, Neg>
    var stats: Stats
    ghost var ever: map<string, Neg>
    ghost var durations: seq<int>
    /** Everything that happened so far. */
    ghost var run: seq<Event>

    ghost function View(): Book reads this { Book(negotiations, ever, stats, durations) }

    /** The service stands where its run leads. */
    ghost predicate Valid() reads this {
      Exec(run).book == View()
    }

    ghost function Clock(): int reads this { Exec(run).now }

    constructor ()
      ensures Valid() && run == [] && View() == EMPTY
    {
      negotiations, stats, ever, durations, run := map[], Stats(0, 0, 0, 0), map[], [], [];
    }

    /** Writes down what has just been done, after the clock has moved on to `now`. */
    ghost method Record(before: Book, now: int, e: Event)
      requires Exec(run).book == before && now >= Clock()
      requires View() == Next(Sys(now, before), e).book && Next(Sys(now, before), e).now == now
      modifies this`run
      ensures Valid() && Clock() == now && run == old(run) + [Tick(now - old(Clock())), e]
    {
      var waited := run + [Tick(now - Clock())];
      assert waited[..|run|] == run;
      assert (waited + [e])[..|waited|] == waited;
      assert run + [Tick(now - Clock()), e] == waited + [e];
      run := waited + [e];
    }

    /** Identifiers are freshly generated. */
    method ProposeTask(id: string, now: int)
      requires Valid() && now >= Clock() && id !in ever
      modifies this
      ensures Valid() && run == old(run) + [Tick(now - old(Clock())), Proposed(id)]
      ensures View() == Propose(old(View()), id, now)
      ensures negotiations == old(negotiations)[id := Neg(Pending, now, [])] && stats == old(stats).(proposed := old(stats).proposed + 1)
    {
      negotiations := negotiations[id := Neg(Pending, now, [])];
      stats := stats.(proposed := stats.proposed + 1);
      ever := ever[id := Neg(Pending, now, [])];
      Record(old(View()), now, Proposed(id));
    }

    method OnTimer(id: string, now: int)
      requires Valid() && now >= Clock()
      modifies this
      ensures Valid() && run == old(run) + [Tick(now - old(Clock())), TimedOut(id)]
      ensures View() == Expire(old(View()), id)
      ensures stats == old(stats)
      ensures negotiations == if id in old(negotiations) && old(negotiations)[id].state == Pending then old(negotiations) - {id} else old(negotiations)
    {
      if id in negotiations && negotiations[id].state == Pending {
        ever := ever[id := negotiations[id].(state := Cancelled)];
        negotiations := negotiations - {id};
      }
      Record(old(View()), now, TimedOut(id));
    }

    method RespondToOffer(id: string, accepted: bool, now: int) returns (err: Option<Error>)
      requires Valid() && now >= Clock()
      modifies this
      ensures Valid() && run == old(run) + [Tick(now - old(Clock())), Responded(id, accepted)]
      ensures View() == Respond(old(View()), id, accepted, now)
      ensures err.Some? ==> negotiations == old(negotiations) && stats == old(stats)
      ensures err.None? ==>
        && id in old(negotiations)
        && negotiations == old(negotiations)[id := old(negotiations)[id].(state := if accepted then Accepted else Rejected, answers := old(negotiations)[id].answers + [accepted])]
      ensures err.None? && accepted ==>
        var took := now - old(negotiations)[id].createdAt;
        stats == old(stats).(accepted := old(stats).accepted + 1, average := if old(stats).average == 0 then took else (3 * old(stats).average + took) / 4)
      ensures err.None? && !accepted ==> stats == old(stats).(rejected := old(stats).rejected + 1)
      ensures err == if id !in old(negotiations) then Some(NotFound) else if !old(negotiations)[id].state.Pending? then Some(InvalidState) else None
    {
      if id !in negotiations {
        Record(old(View()), now, Responded(id, accepted));
        return Some(NotFound);
      }
      var neg := negotiations[id];
      if neg.state != Pending {
        Record(old(View()), now, Responded(id, accepted));
        return Some(InvalidState);
      }
      neg := neg.(answers := neg.answers + [accepted]);
      if accepted {
        neg := neg.(state := Accepted);
        var duration := now - neg.createdAt;
        if stats.average == 0 {
          stats := stats.(accepted := stats.accepted + 1, average := duration);
        } else {
          stats := stats.(accepted := stats.accepted + 1, average := (stats.average * 3 + duration) / 4);
        }
        durations := durations + [duration];
      } else {
        neg := neg.(state := Rejected);
        stats := stats.(rejected := stats.rejected + 1);
      }
      negotiations := negotiations[id := neg];
      ever := ever[id := neg];
      Record(old(View()), now, Responded(id, accepted));
      err := None;
    }

    method CancelNegotiation(id: string, now: int) returns (err: Option<Error>)
      requires Valid() && now >= Clock()
      modifies this
      ensures Valid() && run == old(run) + [Tick(now - old(Clock())), Withdrawn(id)]
      ensures View() == Cancel(old(View()), id)
      ensures stats == old(stats)
      ensures negotiations == if id in old(negotiations) then old(negotiations)[id := old(negotiations)[id].(state := Cancelled)] else old(negotiations)
      ensures err == if id !in old(negotiations) then Some(NotFound) else None
    {
      if id !in negotiations {
        Record(old(View()), now, Withdrawn(id));
        return Some(NotFound);
      }
      negotiations := negotiations[id := negotiations[id].(state := Cancelled)];
      ever := ever[id := negotiations[id]];
      Record(old(View()), now, Withdrawn(id));
      err := None;
    }

    method RemoveOld(maxAge: int, now: int)
      requires Valid() && now >= Clock()
      modifies this
      ensures Valid() && run == old(run) + [Tick(now - old(Clock())), Swept(maxAge)]
      ensures View() == Cleanup(old(View()), maxAge, now)
      ensures stats == old(stats)
      ensures forall id :: id in negotiations <==> id in old(negotiations) && (old(negotiations)[id].state == Pending || now - old(negotiations)[id].createdAt <= maxAge)
      ensures forall id | id in negotiations :: negotiations[id] == old(negotiations)[id]
    {
      var todo := negotiations.Keys;
      while todo != {}
        invariant todo <= negotiations.Keys
        invariant stats == old(stats) && ever == old(ever) && durations == old(durations) && run == old(run)
        invariant negotiations == map id | id in old(negotiations) && (id in todo || !Stale(old(negotiations)[id], maxAge, now)) :: old(negotiations)[id]
      {
        var id :| id in todo;
        todo := todo - {id};
        var neg := negotiations[id];
        var isOld := now - neg.createdAt > maxAge;
        var final := neg.state == Accepted || neg.state == Rejected || neg.state == Cancelled;
        if isOld && final {
          negotiations := negotiations - {id};
        }
      }
      Record(old(View()), now, Swept(maxAge));
    }
  }

  // ----- The invariant -----

  predicate NegOk(n: Neg, now: int) {
    && |n.answers| <= 1 && n.createdAt <= now
    && (n.state.Pending? ==> n.answers == [])
    && (n.state.Accepted? ==> n.answers == [true])
    && (n.state.Rejected? ==> n.answers == [false])
  }

  function AnsweredWith(ever: map<string, Neg>, answers: seq<bool>): set<string> {
    set id | id in ever && ever[id].answers == answers
  }

  ghost predicate TableOk(s: Sys) {
    && (forall id | id in s.book.live :: id in s.book.ever && s.book.ever[id] == s.book.live[id])
    && (forall id | id in s.book.ever && s.book.ever[id].state.Pending? :: id in s.book.live)
    && (forall id | id in s.book.ever :: NegOk(s.book.ever[id], s.now))
  }

  ghost predicate CountsOk(b: Book) {
    && b.stats.proposed == |b.ever.Keys|
    && b.stats.accepted == |AnsweredWith(b.ever, [true])|
    && b.stats.rejected == |AnsweredWith(b.ever, [false])|
  }

  predicate Least(xs: seq<int>, m: int) {
    m in xs && forall i | 0 <= i < |xs| :: m <= xs[i]
  }

  predicate Greatest(xs: seq<int>, m: int) {
    m in xs && forall i | 0 <= i < |xs| :: xs[i] <= m
  }

  ghost predicate AverageOk(b: Book) {
    && (b.durations == [] ==> b.stats.average == 0)
    && (forall lo, hi | Least(b.durations, lo) && Greatest(b.durations, hi) :: lo <= b.stats.average <= hi)
  }

  ghost predicate Inv(s: Sys) {
    TableOk(s) && CountsOk(s.book) && AverageOk(s.book)
  }

  /** Rewriting a negotiation moves it between the sets of equal answers. */
  lemma AnswersUpdate(ever: map<string, Neg>, id: string, n: Neg, answers: seq<bool>)
    ensures |AnsweredWith(ever[id := n], answers)| == |AnsweredWith(ever, answers)|
      + (if n.answers == answers then 1 else 0) - (if id in ever && ever[id].answers == answers then 1 else 0)
  {
    var before, after := AnsweredWith(ever, answers), AnsweredWith(ever[id := n], answers);
    assert after == if n.answers == answers then before + {id} else before - {id};
  }

  lemma KeysUpdate(ever: map<string, Neg>, id: string, n: Neg)
    ensures |ever[id := n].Keys| == |ever.Keys| + if id in ever then 0 else 1
  {
    assert ever[id := n].Keys == ever.Keys + {id};
  }

  lemma {:induction false} HasBounds(xs: seq<int>) returns (lo: int, hi: int)
    requires xs != []
    ensures Least(xs, lo) && Greatest(xs, hi)
  {
    var n := |xs| - 1;
    if n == 0 {
      lo, hi := xs[0], xs[0];
    } else {
      var l, h := HasBounds(xs[..n]);
      lo := if xs[n] < l then xs[n] else l;
      hi := if xs[n] > h then xs[n] else h;
      forall i | 0 <= i < |xs| ensures lo <= xs[i] <= hi {
        assert i < n ==> xs[i] == xs[..n][i];
      }
    }
  }

  /** Truncating division keeps a weighted mean between its terms. */
  lemma AverageStaysWithin(durations: seq<int>, average: int, d: int, lo: int, hi: int)
    requires durations == [] ==> average == 0
    requires forall l, h | Least(durations, l) && Greatest(durations, h) :: l <= average <= h
    requires Least(durations + [d], lo) && Greatest(durations + [d], hi)
    ensures lo <= Averaged(average, d) <= hi
  {
    var all := durations + [d];
    assert all[|durations|] == d;
    if durations != [] {
      var l, h := HasBounds(durations);
      var i :| 0 <= i < |durations| && durations[i] == l;
      var j :| 0 <= j < |durations| && durations[j] == h;
      assert all[i] == l && all[j] == h;
    }
  }

  lemma AnswerKeepsInv(s: Sys, id: string, accepted: bool)
    requires Inv(s) && id in s.book.live && s.book.live[id].state.Pending?
    ensures Inv(s.(book := Answer(s.book, id, accepted, s.now)))
  {
    var s' := s.(book := Answer(s.book, id, accepted, s.now));
    var n := s'.book.ever[id];
    assert NegOk(s.book.ever[id], s.now);
    assert n.answers == [accepted];
    assert TableOk(s');
    KeysUpdate(s.book.ever, id, n);
    AnswersUpdate(s.book.ever, id, n, [true]);
    AnswersUpdate(s.book.ever, id, n, [false]);
    if accepted {
      forall lo, hi | Least(s'.book.durations, lo) && Greatest(s'.book.durations, hi) ensures lo <= s'.book.stats.average <= hi {
        AverageStaysWithin(s.book.durations, s.book.stats.average, s.now - n.createdAt, lo, hi);
      }
    }
  }

  /** Steps that change only states, never answers. */
  lemma StateKeepsCounts(b: Book, id: string, n: Neg)
    requires CountsOk(b) && id in b.ever && n.answers == b.ever[id].answers
    ensures CountsOk(b.(ever := b.ever[id := n]))
  {
    KeysUpdate(b.ever, id, n);
    AnswersUpdate(b.ever, id, n, [true]);
    AnswersUpdate(b.ever, id, n, [false]);
  }

  lemma NextKeepsInv(s: Sys, e: Event)
    requires Inv(s)
    ensures Inv(Next(s, e))
  {
    var b := s.book;
    match e
    case Proposed(id) =>
      if id !in b.ever {
        KeysUpdate(b.ever, id, Neg(Pending, s.now, []));
        AnswersUpdate(b.ever, id, Neg(Pending, s.now, []), [true]);
        AnswersUpdate(b.ever, id, Neg(Pending, s.now, []), [false]);
      }
    case TimedOut(id) => if id in b.live { StateKeepsCounts(b, id, b.live[id].(state := Cancelled)); }
    case Responded(id, accepted) => if id in b.live && b.live[id].state.Pending? { AnswerKeepsInv(s, id, accepted); }
    case Withdrawn(id) => if id in b.live { StateKeepsCounts(b, id, b.live[id].(state := Cancelled)); }
    case Swept(_) =>
    case Tick(_) =>
  }

  lemma {:induction false} RunKeepsInv(events: seq<Event>)
    ensures Inv(Exec(events))
  {
    if events != [] {
      RunKeepsInv(events[..|events| - 1]);
      NextKeepsInv(Exec(events[..|events| - 1]), events[|events| - 1]);
    }
  }

  // ----- What every run guarantees -----

  /** Each negotiation is answered at most once, and every proposal is accounted for. */
  lemma {:induction false} ProposalsAreConserved(events: seq<Event>)
    ensures var b := Exec(events).book;
      && (forall id | id in b.ever :: |b.ever[id].answers| <= 1)
      && b.stats.proposed == b.stats.accepted + b.stats.rejected + |AnsweredWith(b.ever, [])|
  {
    RunKeepsInv(events);
    var s := Exec(events);
    forall id | id in s.book.ever ensures |s.book.ever[id].answers| <= 1 {
      assert NegOk(s.book.ever[id], s.now);
    }
    AnswersPartition(s.book.ever);
  }

  lemma AnswersPartition(ever: map<string, Neg>)
    requires forall id | id in ever :: |ever[id].answers| <= 1
    ensures |ever.Keys| == |AnsweredWith(ever, [true])| + |AnsweredWith(ever, [false])| + |AnsweredWith(ever, [])|
  {
    var yes, no, open := AnsweredWith(ever, [true]), AnsweredWith(ever, [false]), AnsweredWith(ever, []);
    forall id | id in ever ensures id in yes || id in no || id in open {
      var a := ever[id].answers;
      if |a| == 0 {
        assert a == [];
      } else if a[0] {
        assert a == [true];
      } else {
        assert a == [false];
      }
    }
    assert [true][0] != [false][0];
    assert yes !! no;
    assert (yes + no) !! open;
    assert ever.Keys == (yes + no) + open;
  }

  /** pending -> answered -> cancelled, or pending -> cancelled, and nothing else. */
  predicate Moves(from: State, to: State) {
    from == to || from.Pending? || to.Cancelled?
  }

  lemma StepMovesForward(s: Sys, e: Event, id: string)
    requires TableOk(s) && id in s.book.ever
    ensures var n := s.book.ever[id];
      && id in Next(s, e).book.ever
      && Moves(n.state, Next(s, e).book.ever[id].state)
      && (!n.state.Pending? ==> Next(s, e).book.ever[id].answers == n.answers)
      && Next(s, e).book.ever[id].createdAt == n.createdAt
  {
  }

  /** However the run goes on, a negotiation only moves forward, and the answers of one that is no longer
      pending are final. */
  lemma {:induction false} StatesOnlyMoveForward(events: seq<Event>, more: seq<Event>, id: string)
    requires id in Exec(events).book.ever
    ensures var n, b := Exec(events).book.ever[id], Exec(events + more).book;
      && id in b.ever
      && Moves(n.state, b.ever[id].state)
      && (!n.state.Pending? ==> b.ever[id].answers == n.answers)
      && b.ever[id].createdAt == n.createdAt
    decreases |more|
  {
    if more == [] {
      assert events + more == events;
    } else {
      var k := |more| - 1;
      StatesOnlyMoveForward(events, more[..k], id);
      RunKeepsInv(events + more[..k]);
      StepMovesForward(Exec(events + more[..k]), more[k], id);
      LastOfMore(events, more);
    }
  }

  lemma {:induction false} LastOfMore(events: seq<Event>, more: seq<Event>)
    requires more != []
    ensures Exec(events + more) == Next(Exec(events + more[..|more| - 1]), more[|more| - 1])
  {
    var all := events + more;
    assert all[..|all| - 1] == events + more[..|more| - 1];
  }

  /** Once its timer has fired, an offer can never be answered any more, whatever happens later; and an offer
      nobody answered, withdrew or timed out is still in the table, open to an answer. */
  lemma {:induction false} TimedOutIsClosed(events: seq<Event>, more: seq<Event>, id: string)
    requires id in Exec(events).book.ever
    ensures var n, n' := Exec(events).book.ever[id], Exec(events + [TimedOut(id)] + more).book.ever;
      id in n' && !n'[id].state.Pending? && n'[id].answers == n.answers
    ensures Exec(events).book.ever[id].state.Pending? ==>
      id in Exec(events).book.live && Exec(events + [TimedOut(id)]).book.ever[id].state.Cancelled?
      && id !in Exec(events + [TimedOut(id)]).book.live
  {
    RunKeepsInv(events);
    var fired := events + [TimedOut(id)];
    assert fired[..|fired| - 1] == events;
    StatesOnlyMoveForward(fired, more, id);
  }

  lemma {:induction false} ExecLast(events: seq<Event>, e: Event)
    ensures Exec(events + [e]) == Next(Exec(events), e)
  {
    assert (events + [e])[..|events|] == events;
  }

  /** A withdrawn negotiation is cancelled, answered or not, and stays so with the answers it had. */
  lemma {:induction false} WithdrawnIsClosed(events: seq<Event>, more: seq<Event>, id: string)
    requires id in Exec(events).book.live
    ensures var ever := Exec(events + [Withdrawn(id)] + more).book.ever;
      id in ever && ever[id].state == Cancelled && ever[id].answers == Exec(events).book.live[id].answers
  {
    RunKeepsInv(events);
    ExecLast(events, Withdrawn(id));
    StatesOnlyMoveForward(events + [Withdrawn(id)], more, id);
  }

  /** An answer to a pending offer is what becomes of it: accepted or rejected, for good, though it may still be withdrawn; it is
      counted once, and an answer to anything else changes nothing. */
  lemma {:induction false} AnswerIsFinal(events: seq<Event>, id: string, accepted: bool, more: seq<Event>)
    requires id in Exec(events).book.ever && Exec(events).book.ever[id].state == Pending
    ensures var b, b' := Exec(events).book, Exec(events + [Responded(id, accepted)]).book;
      && id in b'.ever && b'.ever[id].state == (if accepted then Accepted else Rejected) && b'.ever[id].answers == [accepted]
      && b'.stats.accepted == b.stats.accepted + (if accepted then 1 else 0) && b'.stats.rejected == b.stats.rejected + (if accepted then 0 else 1)
      && b'.stats.proposed == b.stats.proposed
    ensures var ever := Exec(events + [Responded(id, accepted)] + more).book.ever;
      id in ever && ever[id].answers == [accepted] && (ever[id].state == Cancelled || ever[id].state == if accepted then Accepted else Rejected)
  {
    RunKeepsInv(events);
    assert NegOk(Exec(events).book.ever[id], Exec(events).now);
    ExecLast(events, Responded(id, accepted));
    StatesOnlyMoveForward(events + [Responded(id, accepted)], more, id);
  }

  lemma {:induction false} LateAnswerChangesNothing(events: seq<Event>, id: string, accepted: bool)
    requires id in Exec(events).book.ever ==> Exec(events).book.ever[id].state != Pending
    ensures Exec(events + [Responded(id, accepted)]) == Exec(events)
  {
    RunKeepsInv(events);
    ExecLast(events, Responded(id, accepted));
  }

  /** The average lies between the shortest and the longest acceptance. */
  lemma {:induction false} AverageIsBounded(events: seq<Event>, lo: int, hi: int)
    requires Least(Exec(events).book.durations, lo) && Greatest(Exec(events).book.durations, hi)
    ensures 0 <= lo <= Exec(events).book.stats.average <= hi
  {
    RunKeepsInv(events);
    DurationsNonNegative(events);
    var xs := Exec(events).book.durations;
    var i :| 0 <= i < |xs| && xs[i] == lo;
  }

  lemma {:induction false} DurationsNonNegative(events: seq<Event>)
    ensures var xs := Exec(events).book.durations; forall i | 0 <= i < |xs| :: xs[i] >= 0
    ensures |Exec(events).book.durations| == Exec(events).book.stats.accepted
  {
    if events != [] {
      var front, e := events[..|events| - 1], events[|events| - 1];
      DurationsNonNegative(front);
      RunKeepsInv(front);
      if e.Responded? && e.id in Exec(front).book.live {
        assert NegOk(Exec(front).book.ever[e.id], Exec(front).now);
      }
    }
  }
}
