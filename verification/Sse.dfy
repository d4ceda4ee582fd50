/** Server-sent events between the agent handler, which prints frames, and the browser, which
    reads the text in arbitrary pieces (section 9.2 of the WHATWG HTML standard). */
module Sse {
  import Strings

  // ----- JavaScript string operations -----

  /** `split("\n\n")`: separators are found left to right without overlap. */
  function Split(s: string): (parts: seq<string>)
    ensures |parts| >= 1
  {
    if |s| < 2 then [s]
    else if s[0] == '\n' && s[1] == '\n' then [""] + Split(s[2..])
    else Push(s[0], Split(s[1..]))
  }

  /** Puts a character in front of the first part. */
  function Push(c: char, parts: seq<string>): (r: seq<string>)
    requires |parts| >= 1
    ensures |r| == |parts|
  {
    [[c] + parts[0]] + parts[1..]
  }

  function Front(parts: seq<string>): seq<string>
    requires |parts| >= 1
  {
    parts[..|parts| - 1]
  }

  function Last(parts: seq<string>): string
    requires |parts| >= 1
  {
    parts[|parts| - 1]
  }

  predicate IsSpace(c: char) {
    var n := c as int;
    || 0x09 <= n <= 0x0D || n == 0x20 || n == 0xA0 || n == 0x1680 || 0x2000 <= n <= 0x200A
    || n == 0x2028 || n == 0x2029 || n == 0x202F || n == 0x205F || n == 0x3000 || n == 0xFEFF
  }

  function Trim(s: string): string {
    Strings.Trim(IsSpace, s)
  }

  const DATA := "data:"

  predicate IsData(part: string) {
    DATA <= Trim(part)
  }

  function Payload(part: string): string
    requires IsData(part)
  {
    Trim(Trim(part)[|DATA|..])
  }

  /** The payloads of the complete parts; anything that is not a data line is skipped. */
  function Extract(parts: seq<string>): seq<string> {
    if parts == [] then []
    else Item(parts[0]) + Extract(parts[1..])
  }

  function Item(part: string): seq<string> {
    if IsData(part) then [Payload(part)] else []
  }

  // ----- The reader -----

  class Reader {
    var buf: string
    var delivered: seq<string>
    /** Everything received so far. */
    ghost var received: string

    /** The state is that of a reader who got the whole text in one piece. */
    ghost predicate Valid() reads this {
      var parts := Split(received);
      buf == Last(parts) && delivered == Extract(Front(parts))
    }

    constructor ()
      ensures Valid() && buf == "" && delivered == [] && received == ""
    {
      buf, delivered, received := "", [], "";
    }

    method Receive(chunk: string)
      requires Valid()
      modifies this
      ensures Valid() && received == old(received) + chunk
    {
      buf := buf + chunk;
      var parts := Split(buf);
      buf := Last(parts);
      Deliver(Front(parts));
      ResumeExtract(received, chunk);
      received := received + chunk;
    }

    /** The loop over the complete parts. */
    method Deliver(parts: seq<string>)
      modifies this`delivered
      ensures delivered == old(delivered) + Extract(parts)
    {
      var i := 0;
      while i < |parts|
        invariant 0 <= i <= |parts|
        invariant delivered == old(delivered) + Extract(parts[..i])
      {
        ExtractLast(parts, i);
        var line := Trim(parts[i]);
        if DATA <= line {
          delivered := delivered + [Trim(line[|DATA|..])];
        }
        i := i + 1;
      }
      assert parts[..i] == parts;
    }
  }

  lemma ExtractLast(parts: seq<string>, i: nat)
    requires i < |parts|
    ensures Extract(parts[..i + 1]) == Extract(parts[..i]) + Item(parts[i])
  {
    assert parts[..i + 1] == parts[..i] + [parts[i]];
    ExtractAppend(parts[..i], [parts[i]]);
    assert [parts[i]][1..] == [];
  }

  lemma {:induction false} ResumeExtract(received: string, chunk: string)
    ensures var early, all, late := Split(received), Split(received + chunk), Split(Last(Split(received)) + chunk);
      Extract(Front(all)) == Extract(Front(early)) + Extract(Front(late)) && Last(all) == Last(late)
  {
    var early, all, late := Split(received), Split(received + chunk), Split(Last(Split(received)) + chunk);
    SplitAppend(received, chunk);
    assert Front(all) == Front(early) + Front(late);
    ExtractAppend(Front(early), Front(late));
  }

  lemma {:induction false} ExtractAppend(a: seq<string>, b: seq<string>)
    ensures Extract(a + b) == Extract(a) + Extract(b)
  {
    if a == [] {
      assert a + b == b;
    } else {
      assert (a + b)[1..] == a[1..] + b;
      ExtractAppend(a[1..], b);
    }
  }

  lemma {:induction false} OnlyPartIsWhole(s: string)
    requires |Split(s)| == 1
    ensures Split(s) == [s]
  {
    if |s| >= 2 {
      OnlyPartIsWhole(s[1..]);
      assert [s[0]] + s[1..] == s;
    }
  }

  lemma PushKeepsRest(c: char, parts: seq<string>, more: seq<string>)
    requires |parts| >= 1
    ensures Push(c, parts + more) == Push(c, parts) + more
    ensures |parts| >= 2 ==> Front(Push(c, parts)) == Push(c, Front(parts)) && Last(Push(c, parts)) == Last(parts)
  {
  }

  lemma Assoc<T>(x: seq<T>, y: seq<T>, z: seq<T>)
    ensures x + (y + z) == (x + y) + z
  {
  }

  lemma {:induction false} ResumeAfterSeparator(a: string, b: string)
    requires |a| >= 2 && a[0] == '\n' && a[1] == '\n'
    requires Split(a[2..] + b) == Front(Split(a[2..])) + Split(Last(Split(a[2..])) + b)
    ensures Split(a + b) == Front(Split(a)) + Split(Last(Split(a)) + b)
  {
    var tail := Split(a[2..]);
    var z := Split(Last(tail) + b);
    assert (a + b)[2..] == a[2..] + b;
    assert Split(a + b) == [""] + (Front(tail) + z);
    Assoc([""], Front(tail), z);
    assert Split(a) == [""] + tail;
    assert Front([""] + tail) == [""] + Front(tail) && Last([""] + tail) == Last(tail);
  }

  lemma {:induction false} ResumeAfterChar(a: string, b: string)
    requires |a| >= 2 && !(a[0] == '\n' && a[1] == '\n') && |Split(a[1..])| >= 2
    requires Split(a[1..] + b) == Front(Split(a[1..])) + Split(Last(Split(a[1..])) + b)
    ensures Split(a + b) == Front(Split(a)) + Split(Last(Split(a)) + b)
  {
    var tail := Split(a[1..]);
    var z := Split(Last(tail) + b);
    assert (a + b)[1..] == a[1..] + b;
    assert Split(a + b) == Push(a[0], Front(tail) + z);
    PushKeepsRest(a[0], Front(tail), z);
    assert Split(a) == Push(a[0], tail);
    PushKeepsRest(a[0], tail, []);
  }

  /** Splitting can be resumed: only the last, unfinished part matters for what follows. */
  lemma {:induction false} SplitAppend(a: string, b: string)
    ensures Split(a + b) == Front(Split(a)) + Split(Last(Split(a)) + b)
    decreases |a|
  {
    if |Split(a)| == 1 {
      OnlyPartIsWhole(a);
      assert Front([a]) == [];
    } else if a[0] == '\n' && a[1] == '\n' {
      SplitAppend(a[2..], b);
      ResumeAfterSeparator(a, b);
    } else {
      SplitAppend(a[1..], b);
      ResumeAfterChar(a, b);
    }
  }

  function Concat(chunks: seq<string>): string {
    if chunks == [] then "" else chunks[0] + Concat(chunks[1..])
  }

  function Glue(parts: seq<string>): string
    requires |parts| >= 1
  {
    if |parts| == 1 then parts[0] else parts[0] + "\n\n" + Glue(parts[1..])
  }

  /** Splitting loses nothing: the parts with blank lines between them are the text. */
  lemma {:induction false} SplitGlues(s: string)
    ensures Glue(Split(s)) == s
  {
    if |s| >= 2 {
      if s[0] == '\n' && s[1] == '\n' {
        SplitGlues(s[2..]);
        assert Split(s)[1..] == Split(s[2..]);
        assert s == "" + "\n\n" + s[2..];
      } else {
        SplitGlues(s[1..]);
        GluePush(s[0], Split(s[1..]));
        assert s == [s[0]] + s[1..];
      }
    }
  }

  lemma Regroup(c: char, first: string, sep: string, rest: string)
    ensures ([c] + first) + sep + rest == [c] + (first + sep + rest)
  {
  }

  lemma {:induction false} GluePush(c: char, parts: seq<string>)
    requires |parts| >= 1
    ensures Glue(Push(c, parts)) == [c] + Glue(parts)
  {
    assert Push(c, parts)[1..] == parts[1..];
    if |parts| > 1 {
      Regroup(c, parts[0], "\n\n", Glue(parts[1..]));
    }
  }

  /** Everything delivered is the text behind `data:` in some part, and a part without it delivers nothing. */
  lemma {:induction false} OnlyDataIsDelivered(parts: seq<string>, p: string)
    ensures p in Extract(parts) <==> exists i | 0 <= i < |parts| :: "data:" <= Trim(parts[i]) && p == Trim(Trim(parts[i])[5..])
    ensures |Extract(parts)| <= |parts|
  {
    if parts != [] {
      OnlyDataIsDelivered(parts[1..], p);
      if i :| 0 <= i < |parts| && "data:" <= Trim(parts[i]) && p == Trim(Trim(parts[i])[5..]) {
        assert i > 0 ==> parts[1..][i - 1] == parts[i];
      }
      if i :| 0 <= i < |parts[1..]| && "data:" <= Trim(parts[1..][i]) && p == Trim(Trim(parts[1..][i])[5..]) {
        assert parts[i + 1] == parts[1..][i];
      }
    }
  }

  /** However a text is cut into pieces, the reader ends in the state the whole text leads to. */
  method Pump(chunks: seq<string>) returns (delivered: seq<string>, buf: string)
    ensures var parts := Split(Concat(chunks)); delivered == Extract(Front(parts)) && buf == Last(parts)
  {
    var reader := new Reader();
    var i := 0;
    while i < |chunks|
      invariant 0 <= i <= |chunks| && reader.Valid()
      invariant reader.received + Concat(chunks[i..]) == Concat(chunks)
    {
      reader.Receive(chunks[i]);
      i := i + 1;
    }
    assert reader.received == Concat(chunks);
    return reader.delivered, reader.buf;
  }

  // ----- The printer -----

  function Frame(payload: string): string {
    "data: " + payload + "\n\n"
  }

  function Stream(payloads: seq<string>): string {
    if payloads == [] then "" else Frame(payloads[0]) + Stream(payloads[1..])
  }

  predicate HasBlankLine(s: string) {
    exists i | 0 <= i < |s| - 1 :: s[i] == '\n' && s[i + 1] == '\n'
  }

  /** What a payload must be like: no surrounding white space and no blank line in it. */
  predicate Deliverable(p: string) {
    Trim(p) == p && !HasBlankLine(p)
  }

  lemma StretchHasNoBlankLine(s: string, i: nat, j: nat)
    requires i <= j <= |s| && !HasBlankLine(s)
    ensures !HasBlankLine(s[i..j])
  {
    var t := s[i..j];
    forall k | 0 <= k < |t| - 1 ensures !(t[k] == '\n' && t[k + 1] == '\n') {
      assert t[k] == s[i + k] && t[k + 1] == s[i + k + 1];
    }
  }

  // ----- The round trip -----

  /** A text without blank line that does not end in a newline is cut off exactly at the separator after it. */
  lemma {:induction false} SplitAtSeparator(x: string, rest: string)
    requires !HasBlankLine(x) && (x == "" || x[|x| - 1] != '\n')
    ensures Split(x + "\n\n" + rest) == [x] + Split(rest)
    decreases |x|
  {
    var all := x + "\n\n" + rest;
    if x == "" {
      assert all[2..] == rest;
    } else {
      assert all[1..] == x[1..] + "\n\n" + rest;
      assert !(all[0] == '\n' && all[1] == '\n') by {
        if |x| > 1 {
          assert all[0] == x[0] && all[1] == x[1];
        }
      }
      StretchHasNoBlankLine(x, 1, |x|);
      SplitAtSeparator(x[1..], rest);
      assert [x[0]] + x[1..] == x;
    }
  }

  lemma FrameLine(p: string)
    requires Deliverable(p)
    ensures IsData("data: " + p) && Payload("data: " + p) == p
  {
    var line := "data: " + p;
    Strings.TrimFixesTight(IsSpace, p);
    if p == "" {
      assert line == "data: ";
      assert line[..5] == "data:" && IsSpace(line[5]);
      Strings.TrimFixesTight(IsSpace, "data:");
      assert Strings.TrimLeft(IsSpace, line) == line;
      assert Strings.TrimRight(IsSpace, line) == Strings.TrimRight(IsSpace, line[..5]) == "data:";
      assert Trim(line)[5..] == "";
    } else {
      assert !IsSpace(line[0]) && line[|line| - 1] == p[|p| - 1];
      Strings.TrimFixesTight(IsSpace, line);
      var value := line[5..];
      assert value == [' '] + p;
      assert value[1..] == p;
      assert Strings.TrimLeft(IsSpace, value) == Strings.TrimLeft(IsSpace, p);
    }
  }

  lemma {:induction false} FrameSplits(p: string, rest: string)
    requires Deliverable(p)
    ensures Split(Frame(p) + rest) == ["data: " + p] + Split(rest)
  {
    var line := "data: " + p;
    Strings.TrimFixesTight(IsSpace, p);
    forall k | 0 <= k < |line| - 1 ensures !(line[k] == '\n' && line[k + 1] == '\n') {
      if k >= 6 {
        assert line[k] == p[k - 6] && line[k + 1] == p[k - 5];
      }
    }
    assert line[|line| - 1] != '\n';
    SplitAtSeparator(line, rest);
    assert Frame(p) + rest == line + "\n\n" + rest;
  }

  lemma {:induction false} StreamDelivers(ps: seq<string>)
    requires forall p | p in ps :: Deliverable(p)
    ensures var parts := Split(Stream(ps)); Extract(Front(parts)) == ps && Last(parts) == ""
  {
    if ps != [] {
      var rest := Split(Stream(ps[1..]));
      StreamDelivers(ps[1..]);
      FrameSplits(ps[0], Stream(ps[1..]));
      FrameLine(ps[0]);
      var parts := Split(Stream(ps));
      assert Front(parts) == ["data: " + ps[0]] + Front(rest);
      ExtractAppend(["data: " + ps[0]], Front(rest));
      assert ["data: " + ps[0]][1..] == [];
    }
  }

  lemma {:induction false} PartsHaveNoBlankLine(s: string, i: nat)
    requires i < |Split(s)|
    ensures !HasBlankLine(Split(s)[i])
    ensures i == 0 && Split(s)[0] != "" ==> s != "" && Split(s)[0][0] == s[0]
    ensures i == 0 && |s| >= 2 && !(s[0] == '\n' && s[1] == '\n') ==> Split(s)[0] != ""
  {
    if |s| < 2 {
    } else if s[0] == '\n' && s[1] == '\n' {
      if i > 0 {
        PartsHaveNoBlankLine(s[2..], i - 1);
      }
    } else {
      PartsHaveNoBlankLine(s[1..], i);
    }
  }

  lemma PayloadIsDeliverable(part: string)
    requires IsData(part) && !HasBlankLine(part)
    ensures Deliverable(Payload(part))
  {
    var i, j := Strings.TrimIsStretch(IsSpace, part);
    StretchHasNoBlankLine(part, i, j);
    var line := Trim(part);
    StretchHasNoBlankLine(line, |DATA|, |line|);
    var value := line[|DATA|..];
    assert value == line[|DATA|..|line|];
    var k, l := Strings.TrimIsStretch(IsSpace, value);
    StretchHasNoBlankLine(value, k, l);
    Strings.TrimFixesTight(IsSpace, Trim(value));
  }

  lemma {:induction false} ExtractedAreDeliverable(parts: seq<string>)
    requires forall part | part in parts :: !HasBlankLine(part)
    ensures forall p | p in Extract(parts) :: Deliverable(p)
  {
    if parts != [] {
      ExtractedAreDeliverable(parts[1..]);
      if IsData(parts[0]) {
        PayloadIsDeliverable(parts[0]);
      }
    }
  }

  /** Printing a list of payloads and reading the text back, cut anywhere, returns that list and an empty buffer
      exactly when every payload is free of blank lines and surrounding white space. */
  lemma {:induction false} RoundTripExactly(ps: seq<string>)
    ensures var parts := Split(Stream(ps));
      (Extract(Front(parts)) == ps && Last(parts) == "") <==> (forall p | p in ps :: Deliverable(p))
  {
    var parts := Split(Stream(ps));
    if forall p | p in ps :: Deliverable(p) {
      StreamDelivers(ps);
    } else {
      forall part | part in Front(parts) ensures !HasBlankLine(part) {
        var i :| 0 <= i < |parts| - 1 && parts[i] == part;
        PartsHaveNoBlankLine(Stream(ps), i);
      }
      ExtractedAreDeliverable(Front(parts));
    }
  }

  /** The same for the executing reader and any chunking of the printed text. */
  method PumpStream(ps: seq<string>, chunks: seq<string>) returns (delivered: seq<string>, buf: string)
    requires Concat(chunks) == Stream(ps)
    ensures delivered == ps && buf == "" <==> forall p | p in ps :: Deliverable(p)
  {
    delivered, buf := Pump(chunks);
    RoundTripExactly(ps);
  }
}
