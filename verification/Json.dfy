/** JSON as far as the event stream uses it: Go's printer of flat, compact objects, and a reader for them. */
module Json {
  import opened Wrappers

  datatype Scalar = Str(s: string) | Num(n: int) | Bool(b: bool)

  datatype Field = Field(name: string, value: Scalar)

  /** What a reader got, and the text behind it. */
  datatype Read<+T> = Read(value: T, rest: string)

  // ----- Go's JSON string escaping and its inverse -----

  function Hex4(n: nat): string
    requires n < 0x10000
  {
    var n3 := n / 0x10;
    var n2 := n3 / 0x10;
    [HexDigit(n2 / 0x10), HexDigit(n2 % 0x10), HexDigit(n3 % 0x10), HexDigit(n % 0x10)]
  }

  function HexDigit(n: nat): (c: char)
    requires n < 0x10
    ensures HexValue(c) == Some(n) && ('0' <= c <= '9' || 'a' <= c <= 'f')
  {
    if n < 10 then ('0' as int + n) as char else ('a' as int + n - 10) as char
  }

  function HexValue(c: char): Option<nat> {
    if '0' <= c <= '9' then Some(c as int - '0' as int)
    else if 'a' <= c <= 'f' then Some(c as int - 'a' as int + 10)
    else if 'A' <= c <= 'F' then Some(c as int - 'A' as int + 10)
    else None
  }

  function HexCode(s: string): Option<nat>
    requires |s| == 4
  {
    match (HexValue(s[0]), HexValue(s[1]), HexValue(s[2]), HexValue(s[3]))
    case (Some(a), Some(b), Some(c), Some(d)) => Some(a * 0x1000 + b * 0x100 + c * 0x10 + d)
    case _ => None
  }

  /** The character after the backslash of a two-character escape. */
  function ShortEscape(c: char): Option<char> {
    match c
    case '"' => Some('"')
    case '\\' => Some('\\')
    case '\n' => Some('n')
    case '\r' => Some('r')
    case '\t' => Some('t')
    case _ => if c as int == 8 then Some('b') else if c as int == 12 then Some('f') else None
  }

  function Unshort(c: char): Option<char> {
    match c
    case '"' => Some('"')
    case '\\' => Some('\\')
    case '/' => Some('/')
    case 'n' => Some('\n')
    case 'r' => Some('\r')
    case 't' => Some('\t')
    case 'b' => Some(8 as char)
    case 'f' => Some(12 as char)
    case _ => None
  }

  /** Control characters, HTML-sensitive characters and the two line separators are written as code points. */
  predicate Coded(c: char) {
    c as int < 0x20 || c == '<' || c == '>' || c == '&' || c as int == 0x2028 || c as int == 0x2029
  }

  function EscapeChar(c: char): string {
    if ShortEscape(c).Some? then ['\\', ShortEscape(c).value]
    else if Coded(c) then "\\u" + Hex4(c as int)
    else [c]
  }

  function Escape(s: string): string {
    if s == "" then "" else EscapeChar(s[0]) + Escape(s[1..])
  }

  // ----- Strings -----

  function Cons(c: char, r: Option<Read<string>>): Option<Read<string>> {
    if r.Some? then Some(Read([c] + r.value.value, r.value.rest)) else None
  }

  /** Reads a string up to its closing quote; `None` when it is malformed. */
  function ReadBody(s: string): Option<Read<string>> {
    if s == "" then None
    else if s[0] == '"' then Some(Read("", s[1..]))
    else if s[0] == '\\' then
      if |s| < 2 then None
      else if s[1] == 'u' then
        if |s| < 6 || HexCode(s[2..6]).None? then None
        else
          var n := HexCode(s[2..6]).value;
          if n < 0xD800 then Cons(n as char, ReadBody(s[6..])) else None
      else if Unshort(s[1]).Some? then Cons(Unshort(s[1]).value, ReadBody(s[2..]))
      else None
    else if s[0] as int < 0x20 then None
    else Cons(s[0], ReadBody(s[1..]))
  }

  lemma HexRoundTrip(n: nat)
    requires n < 0x10000
    ensures HexCode(Hex4(n)) == Some(n) && '\n' !in Hex4(n)
  {
    var n3 := n / 0x10;
    var n2 := n3 / 0x10;
    assert n == n3 * 0x10 + n % 0x10 && n3 == n2 * 0x10 + n3 % 0x10;
  }

  lemma {:induction false} CharRoundTrip(c: char, rest: string)
    ensures ReadBody(EscapeChar(c) + rest) == Cons(c, ReadBody(rest))
  {
    var s := EscapeChar(c) + rest;
    if ShortEscape(c).Some? {
      assert s[2..] == rest;
    } else if Coded(c) {
      HexRoundTrip(c as int);
      assert s[2..6] == Hex4(c as int);
      assert s[6..] == rest;
    } else {
      assert s[1..] == rest;
    }
  }

  lemma {:induction false} StringRoundTrip(s: string, rest: string)
    ensures ReadBody(Escape(s) + "\"" + rest) == Some(Read(s, rest))
  {
    if s == "" {
      assert (Escape(s) + "\"" + rest)[1..] == rest;
    } else {
      var tail := Escape(s[1..]) + "\"" + rest;
      assert Escape(s) + "\"" + rest == EscapeChar(s[0]) + tail;
      CharRoundTrip(s[0], tail);
      StringRoundTrip(s[1..], rest);
      assert [s[0]] + s[1..] == s;
    }
  }

  lemma EscapedCharIsNoNewline(c: char)
    ensures '\n' !in EscapeChar(c)
  {
    if ShortEscape(c).None? && Coded(c) {
      HexRoundTrip(c as int);
    }
  }

  lemma {:induction false} EscapedHasNoNewline(s: string)
    ensures '\n' !in Escape(s)
  {
    if s != "" {
      EscapedHasNoNewline(s[1..]);
      EscapedCharIsNoNewline(s[0]);
    }
  }

  /** Characters that a browser could take for markup or a line end. */
  predicate Unsafe(c: char) {
    c == '<' || c == '>' || c == '&' || c as int < 0x20 || c as int == 0x2028 || c as int == 0x2029
  }

  predicate IsHexDigit(c: char) {
    '0' <= c <= '9' || 'a' <= c <= 'f'
  }

  lemma Hex4Digits(n: nat)
    requires n < 0x10000
    ensures |Hex4(n)| == 4 && IsHexDigit(Hex4(n)[0]) && IsHexDigit(Hex4(n)[1]) && IsHexDigit(Hex4(n)[2]) && IsHexDigit(Hex4(n)[3])
  {
  }

  lemma CodedCharIsSafe(code: string, x: char)
    requires |code| == 4 && IsHexDigit(code[0]) && IsHexDigit(code[1]) && IsHexDigit(code[2]) && IsHexDigit(code[3])
    requires x in "\\u" + code
    ensures !Unsafe(x)
  {
    var i :| 0 <= i < 6 && ("\\u" + code)[i] == x;
    assert i >= 2 ==> x == code[i - 2];
  }

  lemma EscapedCharIsSafe(c: char, x: char)
    requires x in EscapeChar(c)
    ensures !Unsafe(x)
  {
    if ShortEscape(c).None? && Coded(c) {
      Hex4Digits(c as int);
      CodedCharIsSafe(Hex4(c as int), x);
    }
  }

  /** Whatever the text, its literal contains no markup and no line end of any kind. */
  lemma {:induction false} EscapedIsSafe(s: string, x: char)
    requires x in Escape(s)
    ensures !Unsafe(x)
  {
    if x in EscapeChar(s[0]) {
      EscapedCharIsSafe(s[0], x);
    } else {
      EscapedIsSafe(s[1..], x);
    }
  }

  // ----- Numbers -----

  predicate IsDigit(c: char) {
    '0' <= c <= '9'
  }

  function Digit(n: nat): (c: char)
    requires n < 10
    ensures IsDigit(c) && c as int - '0' as int == n
  {
    ('0' as int + n) as char
  }

  function Decimal(n: nat): (s: string)
    ensures s != "" && forall i | 0 <= i < |s| :: IsDigit(s[i])
  {
    if n < 10 then [Digit(n)] else Decimal(n / 10) + [Digit(n % 10)]
  }

  /** Reads on from the value of the digits before. */
  function ReadDigits(s: string, value: nat): Read<nat> {
    if s != "" && IsDigit(s[0]) then ReadDigits(s[1..], value * 10 + (s[0] as int - '0' as int)) else Read(value, s)
  }

  lemma {:induction false} DecimalRoundTrip(n: nat, rest: string)
    ensures ReadDigits(Decimal(n) + rest, 0) == ReadDigits(rest, n)
  {
    if n < 10 {
      assert (Decimal(n) + rest)[1..] == rest;
    } else {
      var d := [Digit(n % 10)];
      assert Decimal(n) + rest == Decimal(n / 10) + (d + rest);
      DecimalRoundTrip(n / 10, d + rest);
      assert (d + rest)[1..] == rest;
    }
  }

  function ReadInt(s: string): Option<Read<int>> {
    if s == "" then None
    else if s[0] == '-' then
      if |s| < 2 || !IsDigit(s[1]) then None else var r := ReadDigits(s[1..], 0); var n: int := r.value; Some(Read(-n, r.rest))
    else if IsDigit(s[0]) then var r := ReadDigits(s, 0); Some(Read(r.value, r.rest))
    else None
  }

  // ----- Scalars and objects -----

  function Print(v: Scalar): string {
    match v
    case Str(s) => "\"" + Escape(s) + "\""
    case Num(n) => if n < 0 then "-" + Decimal(-n) else Decimal(n)
    case Bool(b) => if b then "true" else "false"
  }

  function ReadScalar(s: string): Option<Read<Scalar>> {
    if s == "" then None
    else if s[0] == '"' then
      (match ReadBody(s[1..]) case None => None case Some(r) => Some(Read(Str(r.value), r.rest)))
    else if "true" <= s then Some(Read(Bool(true), s[4..]))
    else if "false" <= s then Some(Read(Bool(false), s[5..]))
    else (match ReadInt(s) case None => None case Some(r) => Some(Read(Num(r.value), r.rest)))
  }

  function PrintField(f: Field): string {
    "\"" + Escape(f.name) + "\":" + Print(f.value)
  }

  function PrintFields(fields: seq<Field>): string {
    if fields == [] then "" else if |fields| == 1 then PrintField(fields[0]) else PrintField(fields[0]) + "," + PrintFields(fields[1..])
  }

  function PrintObject(fields: seq<Field>): string {
    "{" + PrintFields(fields) + "}"
  }

  function ReadField(s: string): Option<Read<Field>> {
    if s == "" || s[0] != '"' then None
    else match ReadBody(s[1..])
      case None => None
      case Some(name) =>
        if name.rest == "" || name.rest[0] != ':' then None
        else match ReadScalar(name.rest[1..])
          case None => None
          case Some(v) => Some(Read(Field(name.value, v.value), v.rest))
  }

  /** Reads fields up to the closing brace, which must end the text. */
  function ReadFields(s: string): Option<seq<Field>>
    decreases |s|
  {
    match ReadField(s)
    case None => None
    case Some(f) =>
      if f.rest == "}" then Some([f.value])
      else if f.rest == "" || f.rest[0] != ',' || |f.rest| > |s| then None
      else match ReadFields(f.rest[1..])
        case None => None
        case Some(more) => Some([f.value] + more)
  }

  /** Compact objects only: without white space and with scalar members. */
  function ReadObject(s: string): Option<seq<Field>> {
    if s == "" || s[0] != '{' then None else if s[1..] == "}" then Some([]) else ReadFields(s[1..])
  }

  /** Text that cannot be taken for the rest of a number. */
  predicate Ends(rest: string) {
    rest == "" || !IsDigit(rest[0])
  }

  lemma IntRoundTrip(n: int, rest: string)
    requires Ends(rest)
    ensures ReadInt(Print(Num(n)) + rest) == Some(Read(n, rest))
  {
    var s := Print(Num(n)) + rest;
    if n < 0 {
      assert s[1..] == Decimal(-n) + rest;
      DecimalRoundTrip(-n, rest);
    } else {
      assert s == Decimal(n) + rest;
      DecimalRoundTrip(n, rest);
    }
  }

  lemma QuotedRoundTrip(t: string, rest: string)
    ensures ReadScalar(Print(Str(t)) + rest) == Some(Read(Str(t), rest))
  {
    assert (Print(Str(t)) + rest)[1..] == Escape(t) + "\"" + rest;
    StringRoundTrip(t, rest);
  }

  lemma NumberRoundTrip(n: int, rest: string)
    requires Ends(rest)
    ensures ReadScalar(Print(Num(n)) + rest) == Some(Read(Num(n), rest))
  {
    var s := Print(Num(n)) + rest;
    IntRoundTrip(n, rest);
    assert s[0] == Print(Num(n))[0] && (s[0] == '-' || IsDigit(s[0]));
  }

  lemma BoolRoundTrip(b: bool, rest: string)
    ensures ReadScalar(Print(Bool(b)) + rest) == Some(Read(Bool(b), rest))
  {
    assert (Print(Bool(b)) + rest)[|Print(Bool(b))|..] == rest;
  }

  lemma ScalarRoundTrip(v: Scalar, rest: string)
    requires Ends(rest)
    ensures ReadScalar(Print(v) + rest) == Some(Read(v, rest))
  {
    match v
    case Str(t) => QuotedRoundTrip(t, rest);
    case Num(n) => NumberRoundTrip(n, rest);
    case Bool(b) => BoolRoundTrip(b, rest);
  }

  lemma FieldLayout(name: string, value: string, rest: string)
    ensures var s := "\"" + name + "\":" + value + rest; s[0] == '"' && s[1..] == name + "\"" + (":" + value + rest)
    ensures (":" + value + rest)[1..] == value + rest
  {
  }

  lemma FieldRoundTrip(f: Field, rest: string)
    requires Ends(rest)
    ensures ReadField(PrintField(f) + rest) == Some(Read(f, rest))
  {
    var value := Print(f.value);
    FieldLayout(Escape(f.name), value, rest);
    StringRoundTrip(f.name, ":" + value + rest);
    ScalarRoundTrip(f.value, rest);
  }

  lemma FieldsLayout(first: string, others: string)
    ensures (first + "," + others) + "}" == first + ("," + others + "}")
    ensures ("," + others + "}")[1..] == others + "}" && |"," + others + "}"| > 1
  {
  }

  /** Reading on after a field. */
  lemma {:induction false} FieldThenFields(f: Field, others: string)
    ensures ReadFields(PrintField(f) + ("," + others + "}")) ==
      match ReadFields(others + "}") case None => None case Some(more) => Some([f] + more)
  {
    FieldsLayout(PrintField(f), others);
    FieldRoundTrip(f, "," + others + "}");
  }

  lemma {:induction false} FieldsRoundTrip(fields: seq<Field>)
    requires fields != []
    ensures ReadFields(PrintFields(fields) + "}") == Some(fields)
    decreases |fields|
  {
    if |fields| == 1 {
      FieldRoundTrip(fields[0], "}");
      assert fields == [fields[0]];
    } else {
      FieldsLayout(PrintField(fields[0]), PrintFields(fields[1..]));
      FieldThenFields(fields[0], PrintFields(fields[1..]));
      FieldsRoundTrip(fields[1..]);
      assert [fields[0]] + fields[1..] == fields;
    }
  }

  lemma ObjectLayout(body: string)
    ensures var s := "{" + body + "}"; s[0] == '{' && s[|s| - 1] == '}' && s[1..] == body + "}" && s[1..|s| - 1] == body
    ensures body != "" ==> body + "}" != "}"
  {
    assert body != "" ==> |body + "}"| > |"}"|;
  }

  lemma {:induction false} FieldsAreNotEmpty(fields: seq<Field>)
    requires fields != []
    ensures PrintFields(fields) != ""
  {
    assert |PrintField(fields[0])| > 0;
  }

  /** Reading a printed object gives the object back, field by field. */
  lemma ObjectRoundTrip(fields: seq<Field>)
    ensures ReadObject(PrintObject(fields)) == Some(fields)
  {
    ObjectLayout(PrintFields(fields));
    if fields != [] {
      FieldsAreNotEmpty(fields);
      FieldsRoundTrip(fields);
    }
  }

  // ----- One line, whatever the text -----

  lemma FieldHasNoNewline(f: Field)
    ensures '\n' !in PrintField(f)
  {
    EscapedHasNoNewline(f.name);
    match f.value {
      case Str(s) => EscapedHasNoNewline(s);
      case Num(n) => assert forall i | 0 <= i < |Print(f.value)| :: Print(f.value)[i] == '-' || IsDigit(Print(f.value)[i]);
      case Bool(b) =>
    }
    assert '\n' !in Print(f.value);
  }

  lemma {:induction false} FieldsHaveNoNewline(fields: seq<Field>)
    ensures '\n' !in PrintFields(fields)
    decreases |fields|
  {
    if fields != [] {
      FieldHasNoNewline(fields[0]);
      FieldsHaveNoNewline(fields[1..]);
    }
  }
}
