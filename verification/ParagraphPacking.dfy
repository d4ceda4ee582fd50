/** Packing the lines of a text into chunks of bounded size, greedily and in one pass. */
module ParagraphPacking {
  import Strings

  /** Bytes a character takes in UTF-8; sizes are measured in them. */
  function Width(c: char): nat {
    var n := c as int;
    if n < 0x80 then 1 else if n < 0x800 then 2 else if n < 0x10000 then 3 else 4
  }

  function Bytes(s: string): nat {
    if s == "" then 0 else Width(s[0]) + Bytes(s[1..])
  }

  /** White space as Go's `unicode.IsSpace` has it. */
  predicate IsSpace(c: char) {
    var n := c as int;
    || 0x09 <= n <= 0x0D || n == 0x20 || n == 0x85 || n == 0xA0 || n == 0x1680 || 0x2000 <= n <= 0x200A
    || n == 0x2028 || n == 0x2029 || n == 0x202F || n == 0x205F || n == 0x3000
  }

  function Trim(s: string): string {
    Strings.Trim(IsSpace, s)
  }

  /** `strings.Split(text, "\n")`. */
  function Lines(text: string): (lines: seq<string>)
    ensures |lines| >= 1
  {
    if text == "" then [""]
    else
      var rest := Lines(text[1..]);
      if text[0] == '\n' then [""] + rest else [[text[0]] + rest[0]] + rest[1..]
  }

  /** The paragraphs of a list of raw lines: trimmed, blank ones dropped. */
  function Paragraphs(raw: seq<string>): seq<string> {
    if raw == [] then []
    else (if Trim(raw[0]) == "" then [] else [Trim(raw[0])]) + Paragraphs(raw[1..])
  }

  function Join(group: seq<string>): string {
    if group == [] then "" else if |group| == 1 then group[0] else group[0] + "\n" + Join(group[1..])
  }

  function Flatten(groups: seq<seq<string>>): seq<string> {
    if groups == [] then [] else groups[0] + Flatten(groups[1..])
  }

  // ----- The greedy rule -----

  /** What the builder has counted for a group: every line with its newline. */
  function Size(group: seq<string>): nat {
    if group == [] then 0 else Bytes(group[0]) + 1 + Size(group[1..])
  }

  /** Packs `rest` behind the open group `open`. */
  function PackFrom(max: int, open: seq<string>, rest: seq<string>): seq<seq<string>>
    decreases |rest|
  {
    if rest == [] then (if open == [] then [] else [open])
    else if open != [] && Size(open) + Bytes(rest[0]) > max then [open] + PackFrom(max, [rest[0]], rest[1..])
    else PackFrom(max, open + [rest[0]], rest[1..])
  }

  function Pack(max: int, lines: seq<string>): seq<seq<string>> {
    PackFrom(max, [], lines)
  }

  /** A group may be emitted if its text is within the limit; a single line always may. */
  predicate Allowed(max: int, group: seq<string>) {
    |group| <= 1 || Bytes(Join(group)) <= max
  }

  lemma {:induction false} BytesAppend(a: string, b: string)
    ensures Bytes(a + b) == Bytes(a) + Bytes(b)
  {
    if a == "" {
      assert a + b == b;
    } else {
      assert (a + b)[1..] == a[1..] + b;
      BytesAppend(a[1..], b);
    }
  }

  lemma {:induction false} SizeAppend(a: seq<string>, b: seq<string>)
    ensures Size(a + b) == Size(a) + Size(b)
  {
    if a == [] {
      assert a + b == b;
    } else {
      assert (a + b)[1..] == a[1..] + b;
      SizeAppend(a[1..], b);
    }
  }

  /** The count of the builder is the length of the joined text plus one. */
  lemma {:induction false} JoinedBytes(group: seq<string>)
    requires group != []
    ensures Bytes(Join(group)) == Size(group) - 1
  {
    if |group| > 1 {
      JoinedBytes(group[1..]);
      BytesAppend(group[0] + "\n", Join(group[1..]));
      BytesAppend(group[0], "\n");
      assert Bytes("\n") == 1;
    }
  }

  lemma {:induction false} AllowedBySize(max: int, group: seq<string>)
    ensures Allowed(max, group) <==> |group| <= 1 || Size(group) - 1 <= max
  {
    if group != [] {
      JoinedBytes(group);
    }
  }

  // ----- Lossless and within the limit -----

  lemma {:induction false} PackKeepsLines(max: int, open: seq<string>, rest: seq<string>)
    ensures Flatten(PackFrom(max, open, rest)) == open + rest
    decreases |rest|
  {
    if rest == [] {
      assert [open][1..] == [];
    } else if open != [] && Size(open) + Bytes(rest[0]) > max {
      PackKeepsLines(max, [rest[0]], rest[1..]);
      assert ([open] + PackFrom(max, [rest[0]], rest[1..]))[1..] == PackFrom(max, [rest[0]], rest[1..]);
      assert [rest[0]] + rest[1..] == rest;
    } else {
      PackKeepsLines(max, open + [rest[0]], rest[1..]);
      assert open + [rest[0]] + rest[1..] == open + rest;
    }
  }

  lemma {:induction false} PackIsAllowed(max: int, open: seq<string>, rest: seq<string>)
    requires Allowed(max, open)
    ensures forall g | g in PackFrom(max, open, rest) :: g != [] && Allowed(max, g)
    decreases |rest|
  {
    if rest == [] {
    } else if open != [] && Size(open) + Bytes(rest[0]) > max {
      PackIsAllowed(max, [rest[0]], rest[1..]);
    } else {
      SizeAppend(open, [rest[0]]);
      assert Size([rest[0]]) == Bytes(rest[0]) + 1;
      AllowedBySize(max, open + [rest[0]]);
      PackIsAllowed(max, open + [rest[0]], rest[1..]);
    }
  }

  // ----- Optimal -----

  /** The same groups without their first n lines. */
  function DropLines(groups: seq<seq<string>>, n: nat): seq<seq<string>> {
    if groups == [] then []
    else if |groups[0]| <= n then DropLines(groups[1..], n - |groups[0]|)
    else [groups[0][n..]] + groups[1..]
  }

  lemma {:induction false} DropLinesFacts(max: int, groups: seq<seq<string>>, n: nat)
    requires n <= |Flatten(groups)|
    requires forall g | g in groups :: Allowed(max, g)
    ensures Flatten(DropLines(groups, n)) == Flatten(groups)[n..]
    ensures forall g | g in DropLines(groups, n) :: Allowed(max, g)
    ensures |DropLines(groups, n)| <= |groups|
  {
    if groups != [] {
      var g, rest := groups[0], groups[1..];
      if |g| <= n {
        DropLinesFacts(max, rest, n - |g|);
      } else {
        SuffixAllowed(max, g, n);
        assert ([g[n..]] + rest)[1..] == rest;
      }
    }
  }

  lemma SuffixAllowed(max: int, g: seq<string>, n: nat)
    requires n <= |g| && Allowed(max, g)
    ensures Allowed(max, g[n..])
  {
    AllowedBySize(max, g);
    AllowedBySize(max, g[n..]);
    assert g == g[..n] + g[n..];
    SizeAppend(g[..n], g[n..]);
  }

  lemma {:induction false} PrefixIsSmaller(g: seq<string>, k: nat)
    requires k <= |g|
    ensures Size(g[..k]) <= Size(g)
  {
    assert g == g[..k] + g[k..];
    SizeAppend(g[..k], g[k..]);
  }

  /** If the next line does not fit the open group, no allowed grouping has a longer first group. */
  lemma {:induction false} FirstGroupIsNoLonger(max: int, open: seq<string>, rest: seq<string>, groups: seq<seq<string>>)
    requires open != [] && rest != [] && Size(open) + Bytes(rest[0]) > max
    requires Flatten(groups) == open + rest
    requires forall g | g in groups :: Allowed(max, g)
    ensures groups != [] && |groups[0]| <= |open|
  {
    assert groups != [];
    if |groups[0]| > |open| {
      LongerGroupIsTooLarge(open, rest, groups[0], Flatten(groups[1..]));
      AllowedBySize(max, groups[0]);
    }
  }

  lemma {:induction false} LongerGroupIsTooLarge(open: seq<string>, rest: seq<string>, g: seq<string>, tail: seq<string>)
    requires g + tail == open + rest && rest != [] && |g| > |open|
    ensures Size(g) >= Size(open) + Bytes(rest[0]) + 1
  {
    var k := |open| + 1;
    assert g[..k] == (g + tail)[..k] == (open + rest)[..k] == open + [rest[0]];
    PrefixIsSmaller(g, k);
    SizeAppend(open, [rest[0]]);
    assert Size([rest[0]]) == Bytes(rest[0]) + 1 + Size([]) by {
      assert [rest[0]][1..] == [];
    }
  }

  /** No way of cutting the same lines into allowed consecutive groups needs fewer of them. */
  lemma {:induction false} PackIsOptimal(max: int, open: seq<string>, rest: seq<string>, groups: seq<seq<string>>)
    requires Flatten(groups) == open + rest
    requires forall g | g in groups :: Allowed(max, g)
    ensures |PackFrom(max, open, rest)| <= |groups|
    decreases |rest|
  {
    if rest == [] {
    } else if open != [] && Size(open) + Bytes(rest[0]) > max {
      FirstGroupIsNoLonger(max, open, rest, groups);
      var fewer := DropLines(groups, |open|);
      DropLinesFacts(max, groups, |open|);
      DropLinesFacts(max, groups[1..], |open| - |groups[0]|);
      assert Flatten(fewer) == [rest[0]] + rest[1..];
      PackIsOptimal(max, [rest[0]], rest[1..], fewer);
    } else {
      assert open + rest == open + [rest[0]] + rest[1..];
      PackIsOptimal(max, open + [rest[0]], rest[1..], groups);
    }
  }

  // ----- Chunk texts and their lines -----

  /** A paragraph: not empty, no white space at its ends, no newline inside. */
  predicate IsParagraph(s: string) {
    s != "" && Strings.Tight(IsSpace, s) && '\n' !in s
  }

  lemma {:induction false} LinesHaveNoNewline(text: string)
    ensures forall l | l in Lines(text) :: '\n' !in l
  {
    if text != "" {
      LinesHaveNoNewline(text[1..]);
      var rest := Lines(text[1..]);
      if text[0] != '\n' {
        forall l | l in Lines(text) ensures '\n' !in l {
          assert l == [text[0]] + rest[0] || l in rest;
        }
      }
    }
  }

  lemma {:induction false} ParagraphsAre(raw: seq<string>)
    requires forall l | l in raw :: '\n' !in l
    ensures forall p | p in Paragraphs(raw) :: IsParagraph(p)
  {
    if raw != [] {
      ParagraphsAre(raw[1..]);
      if Trim(raw[0]) != "" {
        ParagraphIs(raw[0]);
      }
    }
  }

  lemma ParagraphIs(raw: string)
    requires '\n' !in raw && Trim(raw) != ""
    ensures IsParagraph(Trim(raw))
  {
    var i, j := Strings.TrimIsStretch(IsSpace, raw);
    forall k | 0 <= k < |Trim(raw)| ensures Trim(raw)[k] != '\n' {
      assert Trim(raw)[k] == raw[i + k];
    }
  }

  /** What the builder holds: every line of the group with a newline after it. */
  function Built(group: seq<string>): string {
    if group == [] then "" else group[0] + "\n" + Built(group[1..])
  }

  lemma {:induction false} BuiltAppend(a: seq<string>, b: seq<string>)
    ensures Built(a + b) == Built(a) + Built(b)
  {
    if a == [] {
      assert a + b == b;
    } else {
      assert (a + b)[1..] == a[1..] + b;
      BuiltAppend(a[1..], b);
    }
  }

  lemma {:induction false} BuiltIsJoined(group: seq<string>)
    requires group != []
    ensures Built(group) == Join(group) + "\n"
  {
    if |group| > 1 {
      BuiltIsJoined(group[1..]);
    } else {
      assert group[1..] == [];
    }
  }

  lemma {:induction false} JoinIsTight(group: seq<string>)
    requires group != [] && forall p | p in group :: IsParagraph(p)
    ensures Join(group) != "" && Strings.Tight(IsSpace, Join(group))
  {
    assert IsParagraph(group[0]);
    if |group| > 1 {
      JoinIsTight(group[1..]);
      var tail := Join(group[1..]);
      assert Join(group)[0] == group[0][0] && Join(group)[|Join(group)| - 1] == tail[|tail| - 1];
    }
  }

  /** Trimming the builder's text removes just the last newline. */
  lemma {:induction false} TrimBuilt(group: seq<string>)
    requires group != [] && forall p | p in group :: IsParagraph(p)
    ensures Trim(Built(group)) == Join(group)
  {
    BuiltIsJoined(group);
    JoinIsTight(group);
    var j := Join(group);
    var b := j + "\n";
    Strings.TrimFixesTight(IsSpace, j);
    assert Strings.TrimLeft(IsSpace, b) == b;
    assert IsSpace(b[|b| - 1]) && b[..|b| - 1] == j;
    assert Strings.TrimRight(IsSpace, b) == Strings.TrimRight(IsSpace, j);
  }

  lemma {:induction false} LinesOfLine(s: string, rest: string)
    requires '\n' !in s
    ensures Lines(s) == [s] && Lines(s + "\n" + rest) == [s] + Lines(rest)
  {
    var all := s + "\n" + rest;
    if s == "" {
      assert all[1..] == rest;
    } else {
      assert all[1..] == s[1..] + "\n" + rest;
      LinesOfLine(s[1..], rest);
      assert [s[0]] + s[1..] == s;
    }
  }

  /** Splitting a chunk's text gives its lines back. */
  lemma {:induction false} LinesOfJoin(group: seq<string>)
    requires group != [] && forall p | p in group :: '\n' !in p
    ensures Lines(Join(group)) == group
  {
    if |group| == 1 {
      LinesOfLine(group[0], "");
    } else {
      var rest := group[1..];
      LinesOfJoin(rest);
      assert Join(group) == group[0] + "\n" + Join(rest);
      LinesOfLine(group[0], Join(rest));
      assert [group[0]] + rest == group;
    }
  }

  // ----- The program -----

  datatype TextChunk = TextChunk(content: string, index: nat, source: string)

  /** Chunk i is the text of group i. */
  predicate Renders(text: string, chunks: seq<TextChunk>, groups: seq<seq<string>>) {
    |chunks| == |groups| && forall i | 0 <= i < |chunks| :: chunks[i] == TextChunk(Join(groups[i]), i, text)
  }

  lemma {:induction false} PackStep(max: int, done: seq<seq<string>>, open: seq<string>, para: string, more: seq<string>)
    ensures done + PackFrom(max, open, [para] + more) ==
      if open != [] && Size(open) + Bytes(para) > max
        then (done + [open]) + PackFrom(max, [para], more) else done + PackFrom(max, open + [para], more)
  {
    assert ([para] + more)[1..] == more;
    var later := PackFrom(max, [para], more);
    assert done + ([open] + later) == (done + [open]) + later;
  }

  lemma {:induction false} BuiltGrows(open: seq<string>, para: string)
    ensures Built(open + [para]) == Built(open) + (para + "\n") && Size(open + [para]) == Size(open) + (Bytes(para) + 1)
  {
    BuiltAppend(open, [para]);
    SizeAppend(open, [para]);
    assert [para][1..] == [];
  }

  predicate AllParagraphs(group: seq<string>) {
    forall p | p in group :: IsParagraph(p)
  }

  /** Emitting the open group. */
  lemma {:induction false} EmitRenders(text: string, chunks: seq<TextChunk>, done: seq<seq<string>>, open: seq<string>)
    requires Renders(text, chunks, done) && open != [] && AllParagraphs(open)
    ensures Renders(text, chunks + [TextChunk(Trim(Built(open)), |chunks|, text)], done + [open])
  {
    TrimBuilt(open);
  }

  lemma NextParagraph(raw: seq<string>, i: nat)
    requires i < |raw|
    ensures Paragraphs(raw[i..]) == if Trim(raw[i]) == "" then Paragraphs(raw[i + 1..]) else [Trim(raw[i])] + Paragraphs(raw[i + 1..])
  {
    assert raw[i..][1..] == raw[i + 1..];
  }

  method ChunkByParagraphs(text: string, max: int) returns (chunks: seq<TextChunk>)
    ensures Renders(text, chunks, Pack(max, Paragraphs(Lines(text))))
    ensures Solid(Contents(chunks)) == Solid(text)
  {
    LinesHaveNoNewline(text);
    chunks := ChunkLoop(text, Lines(text), max);
    ChunksKeepEveryCharacter(max, text, chunks);
  }

  /** The loop over the lines. */
  method ChunkLoop(text: string, paragraphs: seq<string>, max: int) returns (chunks: seq<TextChunk>)
    requires forall l | l in paragraphs :: '\n' !in l
    ensures Renders(text, chunks, Pack(max, Paragraphs(paragraphs)))
  {
    chunks := [];
    var chunkIndex := 0;
    var currentChunk, currentChunkSize := "", 0;
    ghost var done: seq<seq<string>>, open: seq<string> := [], [];
    ghost var all := Pack(max, Paragraphs(paragraphs));
    var i := 0;
    while i < |paragraphs|
      invariant 0 <= i <= |paragraphs| && chunkIndex == |chunks|
      invariant Renders(text, chunks, done)
      invariant AllParagraphs(open)
      invariant currentChunk == Built(open) && currentChunkSize == Size(open)
      invariant all == done + PackFrom(max, open, Paragraphs(paragraphs[i..]))
    {
      var para := Trim(paragraphs[i]);
      NextParagraph(paragraphs, i);
      if |para| != 0 {
        ParagraphIs(paragraphs[i]);
        PackStep(max, done, open, para, Paragraphs(paragraphs[i + 1..]));
        if currentChunkSize + Bytes(para) > max && currentChunkSize > 0 {
          EmitRenders(text, chunks, done, open);
          chunks := chunks + [TextChunk(Trim(currentChunk), chunkIndex, text)];
          chunkIndex := chunkIndex + 1;
          currentChunk, currentChunkSize := "", 0;
          done, open := done + [open], [];
          assert open + [para] == [para];
        }
        BuiltGrows(open, para);
        currentChunk := currentChunk + (para + "\n");
        currentChunkSize := currentChunkSize + (Bytes(para) + 1);
        open := open + [para];
      }
      i := i + 1;
    }
    if currentChunkSize > 0 {
      EmitRenders(text, chunks, done, open);
      chunks := chunks + [TextChunk(Trim(currentChunk), chunkIndex, text)];
    }
  }

  function ChunkLines(chunks: seq<TextChunk>): seq<seq<string>> {
    seq(|chunks|, i requires 0 <= i < |chunks| => Lines(chunks[i].content))
  }

  lemma {:induction false} ChunkLinesAreGroups(max: int, text: string, chunks: seq<TextChunk>)
    requires Renders(text, chunks, Pack(max, Paragraphs(Lines(text))))
    ensures ChunkLines(chunks) == Pack(max, Paragraphs(Lines(text)))
  {
    var lines := Paragraphs(Lines(text));
    var packed := Pack(max, lines);
    LinesHaveNoNewline(text);
    ParagraphsAre(Lines(text));
    PackKeepsLines(max, [], lines);
    PackIsAllowed(max, [], lines);
    forall i | 0 <= i < |packed| ensures Lines(chunks[i].content) == packed[i] {
      FlattenHas(packed, i);
      assert packed[i] in packed;
      LinesOfJoin(packed[i]);
    }
  }

  /** Reading the chunks in order, line by line, gives the paragraphs of the text; and a chunk over the limit is a
      single line. */
  lemma {:induction false} ChunksAreLossless(max: int, text: string, chunks: seq<TextChunk>)
    requires Renders(text, chunks, Pack(max, Paragraphs(Lines(text))))
    ensures Flatten(ChunkLines(chunks)) == Paragraphs(Lines(text))
    ensures forall i | 0 <= i < |chunks| :: Bytes(chunks[i].content) > max ==> |ChunkLines(chunks)[i]| == 1
  {
    var lines := Paragraphs(Lines(text));
    var packed := Pack(max, lines);
    ChunkLinesAreGroups(max, text, chunks);
    PackKeepsLines(max, [], lines);
    PackIsAllowed(max, [], lines);
    forall i | 0 <= i < |chunks| && Bytes(chunks[i].content) > max ensures |ChunkLines(chunks)[i]| == 1 {
      assert packed[i] in packed;
    }
  }

  lemma {:induction false} PackIsFewest(max: int, lines: seq<string>, groups: seq<seq<string>>)
    requires Flatten(groups) == lines && forall g | g in groups :: Allowed(max, g)
    ensures |Pack(max, lines)| <= |groups|
  {
    assert [] + lines == lines;
    PackIsOptimal(max, [], lines, groups);
  }

  /** No grouping of the same paragraphs, in order and within the limit, has fewer chunks. */
  lemma {:induction false} ChunksAreFewest(max: int, text: string, chunks: seq<TextChunk>, groups: seq<seq<string>>)
    requires Renders(text, chunks, Pack(max, Paragraphs(Lines(text))))
    requires Flatten(groups) == Paragraphs(Lines(text)) && forall g | g in groups :: Allowed(max, g)
    ensures |chunks| <= |groups|
  {
    PackIsFewest(max, Paragraphs(Lines(text)), groups);
  }

  lemma {:induction false} FlattenHas(groups: seq<seq<string>>, i: nat)
    requires i < |groups|
    ensures forall l | l in groups[i] :: l in Flatten(groups)
  {
    if i > 0 {
      FlattenHas(groups[1..], i - 1);
    }
  }

  // ----- No character is lost -----

  function Solid(s: string): string {
    Strings.Solid(IsSpace, s)
  }

  function AllSolid(lines: seq<string>): string {
    if lines == [] then "" else Solid(lines[0]) + AllSolid(lines[1..])
  }

  lemma {:induction false} AllSolidAppend(a: seq<string>, b: seq<string>)
    ensures AllSolid(a + b) == AllSolid(a) + AllSolid(b)
  {
    if a == [] {
      assert a + b == b;
    } else {
      assert (a + b)[1..] == a[1..] + b;
      AllSolidAppend(a[1..], b);
    }
  }

  lemma {:induction false} SolidLines(text: string)
    ensures AllSolid(Lines(text)) == Solid(text)
  {
    if text != "" {
      var rest := Lines(text[1..]);
      SolidLines(text[1..]);
      if text[0] == '\n' {
        assert Lines(text)[1..] == rest;
      } else {
        assert Lines(text)[1..] == rest[1..];
        Strings.SolidAppend(IsSpace, [text[0]], rest[0]);
      }
    }
  }

  lemma {:induction false} SolidParagraphs(raw: seq<string>)
    ensures AllSolid(Paragraphs(raw)) == AllSolid(raw)
  {
    if raw != [] {
      SolidParagraphs(raw[1..]);
      Strings.SolidTrim(IsSpace, raw[0]);
      var here := if Trim(raw[0]) == "" then [] else [Trim(raw[0])];
      assert AllSolid(here) == Solid(raw[0]);
      AllSolidAppend(here, Paragraphs(raw[1..]));
    }
  }

  lemma {:induction false} SolidJoin(group: seq<string>)
    ensures Solid(Join(group)) == AllSolid(group)
  {
    if |group| > 1 {
      SolidJoin(group[1..]);
      Strings.SolidAppend(IsSpace, group[0], "\n");
      Strings.SolidAppend(IsSpace, group[0] + "\n", Join(group[1..]));
    }
  }

  function Contents(chunks: seq<TextChunk>): string {
    if chunks == [] then "" else chunks[0].content + Contents(chunks[1..])
  }

  lemma {:induction false} SolidContents(text: string, chunks: seq<TextChunk>, groups: seq<seq<string>>)
    requires |chunks| == |groups| && forall i | 0 <= i < |chunks| :: chunks[i].content == Join(groups[i])
    ensures Solid(Contents(chunks)) == AllSolid(Flatten(groups))
  {
    if chunks != [] {
      SolidContents(text, chunks[1..], groups[1..]);
      SolidJoin(groups[0]);
      Strings.SolidAppend(IsSpace, chunks[0].content, Contents(chunks[1..]));
      AllSolidAppend(groups[0], Flatten(groups[1..]));
    }
  }

  /** White space aside, the chunks one after the other are the text, character by character. */
  lemma {:induction false} ChunksKeepEveryCharacter(max: int, text: string, chunks: seq<TextChunk>)
    requires Renders(text, chunks, Pack(max, Paragraphs(Lines(text))))
    ensures Solid(Contents(chunks)) == Solid(text)
    ensures forall i | 0 <= i < |chunks| :: chunks[i].index == i && chunks[i].source == text
  {
    var lines := Paragraphs(Lines(text));
    PackKeepsLines(max, [], lines);
    assert [] + lines == lines;
    SolidContents(text, chunks, Pack(max, lines));
    SolidParagraphs(Lines(text));
    SolidLines(text);
  }

  /** The lines of a text, joined again, are the text. */
  lemma {:induction false} LinesJoin(text: string)
    ensures Join(Lines(text)) == text
  {
    if text != "" {
      var rest := Lines(text[1..]);
      LinesJoin(text[1..]);
      if text[0] == '\n' {
        assert Lines(text)[1..] == rest;
        assert Join(Lines(text)) == "" + "\n" + Join(rest);
      } else {
        assert Lines(text)[1..] == rest[1..];
      }
      assert [text[0]] + text[1..] == text;
    }
  }

  // ----- Sizes are bytes -----

  /** The UTF-8 encoding of a character (section 3 of RFC 3629). */
  function Encoded(c: char): seq<int> {
    var n := c as int;
    if n < 0x80 then [n]
    else if n < 0x800 then [0xC0 + n / 64, 0x80 + n % 64]
    else if n < 0x10000 then [0xE0 + n / 4096, 0x80 + n / 64 % 64, 0x80 + n % 64]
    else [0xF0 + n / 262144, 0x80 + n / 4096 % 64, 0x80 + n / 64 % 64, 0x80 + n % 64]
  }

  /** The number a byte sequence encodes; the first byte tells how many follow. */
  function Decoded(bytes: seq<int>): int {
    if |bytes| == 1 && bytes[0] < 0x80 then bytes[0]
    else if |bytes| == 2 && 0xC0 <= bytes[0] < 0xE0 then (bytes[0] - 0xC0) * 64 + (bytes[1] - 0x80)
    else if |bytes| == 3 && 0xE0 <= bytes[0] < 0xF0 then (bytes[0] - 0xE0) * 4096 + (bytes[1] - 0x80) * 64 + (bytes[2] - 0x80)
    else if |bytes| == 4 && 0xF0 <= bytes[0] < 0xF8 then
      (bytes[0] - 0xF0) * 262144 + (bytes[1] - 0x80) * 4096 + (bytes[2] - 0x80) * 64 + (bytes[3] - 0x80)
    else -1
  }

  /** The width of a character is the length of its encoding, and the encoding is one: it reads back. */
  lemma WidthIsEncodedLength(c: char)
    ensures Width(c) == |Encoded(c)| && Decoded(Encoded(c)) == c as int
  {
    var n := c as int;
    assert n == (n / 64) * 64 + n % 64;
    assert n / 64 == (n / 64 / 64) * 64 + n / 64 % 64 && n / 64 / 64 == n / 4096;
    assert n / 4096 == (n / 4096 / 64) * 64 + n / 4096 % 64 && n / 4096 / 64 == n / 262144;
  }

  function Utf8(s: string): seq<int> {
    if s == "" then [] else Encoded(s[0]) + Utf8(s[1..])
  }

  lemma {:induction false} BytesAreEncoded(s: string)
    ensures Bytes(s) == |Utf8(s)|
  {
    if s != "" {
      WidthIsEncodedLength(s[0]);
      BytesAreEncoded(s[1..]);
    }
  }
}
