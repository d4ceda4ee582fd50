/** The events inside the frames: the server marshals token, error and final events to compact JSON, the browser
    parses them and calls back. */
module SseEvents {
  import opened Wrappers
  import opened Json
  import opened Sse

  // ----- The server's events -----

  datatype Event =
    | Token(text: string)
    | Failed(message: string)
    | Finished(duration: string, output: string, steps: int, tokensUsed: int)

  /** The members in the printer's order, which is that of their names. */
  function Fields(e: Event): seq<Field> {
    match e
    case Token(t) => [Field("token", Str(t))]
    case Failed(m) => [Field("error", Str(m))]
    case Finished(d, o, n, t) =>
      [Field("done", Bool(true)), Field("duration", Str(d)), Field("output", Str(o)), Field("steps", Num(n)), Field("tokensUsed", Num(t))]
  }

  function Marshal(e: Event): string {
    PrintObject(Fields(e))
  }

  lemma {:induction false} ParseMarshal(e: Event)
    ensures ReadObject(Marshal(e)) == Some(Fields(e))
  {
    ObjectRoundTrip(Fields(e));
  }

  lemma BracedIsDeliverable(body: string)
    requires '\n' !in body
    ensures Deliverable("{" + body + "}")
  {
    var s := "{" + body + "}";
    ObjectLayout(body);
    forall i | 0 <= i < |s| ensures s[i] != '\n' {
      assert 0 < i < |s| - 1 ==> s[i] == body[i - 1];
    }
    Strings.TrimFixesTight(IsSpace, s);
  }

  /** Whatever its texts are, an event travels intact in a frame. */
  lemma {:induction false} MarshalIsDeliverable(e: Event)
    ensures Deliverable(Marshal(e))
  {
    FieldsHaveNoNewline(Fields(e));
    BracedIsDeliverable(PrintFields(Fields(e)));
  }

  // ----- The browser's callbacks -----

  datatype Callback = OnToken(text: Scalar) | OnError(message: Scalar) | OnDone(event: seq<Field>)

  /** The member of that name; of several the last counts. */
  function Member(fields: seq<Field>, name: string): Option<Scalar> {
    if fields == [] then None
    else
      var last := fields[|fields| - 1];
      if last.name == name then Some(last.value) else Member(fields[..|fields| - 1], name)
  }

  /** What a condition in JavaScript makes of a member. */
  predicate Truthy(v: Option<Scalar>) {
    match v
    case None => false
    case Some(Str(s)) => s != ""
    case Some(Num(n)) => n != 0
    case Some(Bool(b)) => b
  }

  function React(evt: seq<Field>): seq<Callback> {
    var error, done, token := Member(evt, "error"), Member(evt, "done"), Member(evt, "token");
    if Truthy(error) then [OnError(error.value)]
    else if Truthy(done) then [OnDone(evt)]
    else if token.Some? then [OnToken(token.value)]
    else []
  }

  /** Malformed payloads are skipped. */
  function Dispatch(payload: string): seq<Callback> {
    match ReadObject(payload)
    case None => []
    case Some(evt) => React(evt)
  }

  function DispatchAll(payloads: seq<string>): seq<Callback> {
    if payloads == [] then [] else Dispatch(payloads[0]) + DispatchAll(payloads[1..])
  }

  function Payloads(events: seq<Event>): seq<string> {
    seq(|events|, i requires 0 <= i < |events| => Marshal(events[i]))
  }

  /** The callback an event stands for: the token, the message, or an object with the members of the final event. */
  predicate Means(e: Event, c: Callback) {
    match e
    case Token(t) => c == OnToken(Str(t))
    case Failed(m) => c == OnError(Str(m))
    case Finished(duration, output, steps, tokensUsed) =>
      && c.OnDone?
      && Member(c.event, "done") == Some(Bool(true))
      && Member(c.event, "duration") == Some(Str(duration))
      && Member(c.event, "output") == Some(Str(output))
      && Member(c.event, "steps") == Some(Num(steps))
      && Member(c.event, "tokensUsed") == Some(Num(tokensUsed))
      && Member(c.event, "error") == None
  }

  /** One callback for each event, in order. */
  ghost predicate AllMeant(events: seq<Event>, calls: seq<Callback>) {
    |calls| == |events| && forall i | 0 <= i < |events| :: Means(events[i], calls[i])
  }

  lemma NamesDiffer()
    ensures "token" != "error" && "token" != "done" && "error" != "done"
    ensures "duration" != "done" && "output" != "done" && "steps" != "done" && "tokensUsed" != "done"
    ensures "duration" != "error" && "output" != "error" && "steps" != "error" && "tokensUsed" != "error"
    ensures "duration" != "output" && "duration" != "steps" && "duration" != "tokensUsed"
    ensures "output" != "steps" && "output" != "tokensUsed" && "steps" != "tokensUsed"
  {
    assert "token"[0] == 't' && "error"[0] == 'e' && "done"[0] == 'd' && "steps"[0] == 's' && "output"[0] == 'o';
    assert |"done"| == 4 && |"duration"| == 8 && |"tokensUsed"| == 10;
  }

  lemma {:induction false} MemberLast(fields: seq<Field>, f: Field, name: string)
    ensures Member(fields + [f], name) == if f.name == name then Some(f.value) else Member(fields, name)
  {
    assert (fields + [f])[..|fields|] == fields;
  }

  /** Looking up a name in an object of five members with different names. */
  lemma {:induction false} MemberOfFive(f: seq<Field>, name: string)
    requires |f| == 5
    ensures Member(f, name) ==
      if f[4].name == name then Some(f[4].value) else if f[3].name == name then Some(f[3].value)
      else if f[2].name == name then Some(f[2].value) else if f[1].name == name then Some(f[1].value)
      else if f[0].name == name then Some(f[0].value) else None
  {
    assert f == f[..4] + [f[4]];
    MemberLast(f[..4], f[4], name);
    assert f[..4] == f[..3] + [f[3]];
    MemberLast(f[..3], f[3], name);
    assert f[..3] == f[..2] + [f[2]];
    MemberLast(f[..2], f[2], name);
    assert f[..2] == [f[0]] + [f[1]];
    MemberLast([f[0]], f[1], name);
    MemberLast([], f[0], name);
  }

  lemma FinalMembers(e: Event)
    requires e.Finished?
    ensures Means(e, OnDone(Fields(e)))
  {
    NamesDiffer();
    var f := Fields(e);
    MemberOfFive(f, "done");
    MemberOfFive(f, "duration");
    MemberOfFive(f, "output");
    MemberOfFive(f, "steps");
    MemberOfFive(f, "tokensUsed");
    MemberOfFive(f, "error");
  }

  lemma MembersOf(e: Event)
    requires !e.Finished?
    ensures e.Token? ==> Member(Fields(e), "error") == None && Member(Fields(e), "done") == None && Member(Fields(e), "token") == Some(Str(e.text))
    ensures e.Failed? ==> Member(Fields(e), "error") == Some(Str(e.message)) && Member(Fields(e), "done") == None && Member(Fields(e), "token") == None
  {
    NamesDiffer();
  }

  /** Of an object with several members an error counts first, then the end, then a token. */
  lemma {:induction false} ReactTo(evt: seq<Field>)
    ensures forall m | Member(evt, "error") == Some(Str(m)) && m != "" :: React(evt) == [OnError(Str(m))]
    ensures Member(evt, "error") == None && Member(evt, "done") == Some(Bool(true)) ==> React(evt) == [OnDone(evt)]
    ensures forall t | Member(evt, "error") == None && Member(evt, "done") == None && Member(evt, "token") == Some(t) :: React(evt) == [OnToken(t)]
    ensures Member(evt, "error") == None && Member(evt, "done") == None && Member(evt, "token") == None ==> React(evt) == []
  {
  }

  lemma ReactToFinal(e: Event, evt: seq<Field>)
    requires e.Finished? && Means(e, OnDone(evt))
    ensures React(evt) == [OnDone(evt)]
  {
  }

  lemma ReactToOther(e: Event)
    requires !e.Finished?
    ensures e == Failed("") ==> React(Fields(e)) == []
    ensures e != Failed("") ==> |React(Fields(e))| == 1 && Means(e, React(Fields(e))[0])
  {
    MembersOf(e);
  }

  lemma ReactToEvent(e: Event)
    ensures e == Failed("") ==> React(Fields(e)) == []
    ensures e != Failed("") ==> |React(Fields(e))| == 1 && Means(e, React(Fields(e))[0])
  {
    if e.Finished? {
      FinalMembers(e);
      ReactToFinal(e, Fields(e));
    } else {
      ReactToOther(e);
    }
  }

  lemma {:induction false} DispatchReacts(e: Event)
    ensures Dispatch(Marshal(e)) == React(Fields(e))
  {
    ParseMarshal(e);
  }

  /** One event, one callback, the one it stands for; except that an error without a message goes unnoticed. */
  lemma EventIsDispatched(e: Event)
    ensures e == Failed("") ==> Dispatch(Marshal(e)) == []
    ensures e != Failed("") ==> |Dispatch(Marshal(e))| == 1 && Means(e, Dispatch(Marshal(e))[0])
  {
    DispatchReacts(e);
    ReactToEvent(e);
  }

  lemma {:induction false} DispatchCons(events: seq<Event>)
    requires events != []
    ensures DispatchAll(Payloads(events)) == Dispatch(Marshal(events[0])) + DispatchAll(Payloads(events[1..]))
  {
    assert Payloads(events)[1..] == Payloads(events[1..]);
  }

  lemma {:induction false} DispatchCount(events: seq<Event>)
    ensures |DispatchAll(Payloads(events))| <= |events|
    ensures Failed("") in events ==> |DispatchAll(Payloads(events))| < |events|
  {
    if events != [] {
      EventIsDispatched(events[0]);
      DispatchCons(events);
      DispatchCount(events[1..]);
      assert Failed("") in events ==> events[0] == Failed("") || Failed("") in events[1..];
    }
  }

  lemma {:induction false} DispatchInOrder(events: seq<Event>)
    requires Failed("") !in events
    ensures AllMeant(events, DispatchAll(Payloads(events)))
  {
    if events != [] {
      EventIsDispatched(events[0]);
      DispatchCons(events);
      DispatchInOrder(events[1..]);
      MeantCons(events, Dispatch(Marshal(events[0]))[0], DispatchAll(Payloads(events[1..])));
    }
  }

  lemma MeantCons(events: seq<Event>, first: Callback, rest: seq<Callback>)
    requires events != [] && Means(events[0], first) && AllMeant(events[1..], rest)
    ensures AllMeant(events, [first] + rest)
  {
    forall i | 0 <= i < |events| ensures Means(events[i], ([first] + rest)[i]) {
      assert i > 0 ==> events[i] == events[1..][i - 1];
    }
  }

  /** The payloads of a stream cause exactly one callback per event, the one it stands for and in order, if and only if
      no error of the stream has an empty message. */
  lemma DispatchMeansEvents(events: seq<Event>)
    ensures AllMeant(events, DispatchAll(Payloads(events))) <==> Failed("") !in events
  {
    if Failed("") in events {
      DispatchCount(events);
    } else {
      DispatchInOrder(events);
    }
  }

  /** End to end: the events of an execution, printed as frames and cut into chunks anywhere, leave an empty buffer and cause
      exactly the callbacks they stand for, if and only if no error has an empty message. */
  method ReceiveEvents(events: seq<Event>, chunks: seq<string>) returns (calls: seq<Callback>, left: string)
    requires Concat(chunks) == Stream(Payloads(events))
    ensures left == ""
    ensures AllMeant(events, calls) <==> Failed("") !in events
  {
    var payloads;
    payloads, left := PumpStream(Payloads(events), chunks);
    forall p | p in Payloads(events) ensures Deliverable(p) {
      var i :| 0 <= i < |events| && Payloads(events)[i] == p;
      MarshalIsDeliverable(events[i]);
    }
    DispatchMeansEvents(events);
    calls := DispatchAll(payloads);
  }
}
