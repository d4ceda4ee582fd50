/** Reciprocal rank fusion of a vector search and a keyword search. Scores are exact reals. */
module RankFusion {

  datatype Doc = Doc(id: string, content: string, score: real)

  /** What position `i`, counted from zero, contributes. */
  function Share(i: nat): (r: real)
    ensures r > 0.0
  {
    1.0 / (60.0 + (i + 1) as real)
  }

  function Ids(docs: seq<Doc>): set<string> {
    if docs == [] then {} else Ids(docs[..|docs| - 1]) + {docs[|docs| - 1].id}
  }

  /** The sum of the shares of all positions at which a document occurs. */
  function ListScore(docs: seq<Doc>, id: string): (r: real)
    ensures r >= 0.0
  {
    if docs == [] then 0.0
    else
      var n := |docs| - 1;
      ListScore(docs[..n], id) + if docs[n].id == id then Share(n) else 0.0
  }

  function Fused(vector: seq<Doc>, keyword: seq<Doc>, id: string): real {
    ListScore(vector, id) + ListScore(keyword, id)
  }

  lemma {:induction false} IdsMembers(docs: seq<Doc>, id: string)
    ensures id in Ids(docs) <==> exists i | 0 <= i < |docs| :: docs[i].id == id
  {
    if docs != [] {
      var n := |docs| - 1;
      IdsMembers(docs[..n], id);
      if i :| 0 <= i < |docs| && docs[i].id == id {
        assert i < n ==> docs[..n][i].id == id;
      }
    }
  }

  lemma Snoc(docs: seq<Doc>, i: nat)
    requires i < |docs|
    ensures Ids(docs[..i + 1]) == Ids(docs[..i]) + {docs[i].id}
    ensures forall id :: ListScore(docs[..i + 1], id) == ListScore(docs[..i], id) + if docs[i].id == id then Share(i) else 0.0
  {
    assert docs[..i + 1][..i] == docs[..i];
  }

  lemma {:induction false} AbsentScoresNothing(docs: seq<Doc>, id: string)
    ensures id !in Ids(docs) ==> ListScore(docs, id) == 0.0
    ensures id in Ids(docs) ==> ListScore(docs, id) > 0.0
  {
    if docs != [] {
      AbsentScoresNothing(docs[..|docs| - 1], id);
    }
  }

  // ----- The program -----

  function Or0(scores: map<string, real>, id: string): real {
    if id in scores then scores[id] else 0.0
  }

  /** Adds the shares of one list to a score table. */
  method Accumulate(docs: seq<Doc>, start: map<string, real>) returns (scores: map<string, real>)
    ensures scores.Keys == start.Keys + Ids(docs)
    ensures forall id :: Or0(scores, id) == Or0(start, id) + ListScore(docs, id)
  {
    scores := start;
    var rank := 0;
    while rank < |docs|
      invariant 0 <= rank <= |docs|
      invariant scores.Keys == start.Keys + Ids(docs[..rank])
      invariant forall id :: Or0(scores, id) == Or0(start, id) + ListScore(docs[..rank], id)
    {
      Snoc(docs, rank);
      var id := docs[rank].id;
      scores := scores[id := Or0(scores, id) + Share(rank)];
      rank := rank + 1;
    }
    assert docs[..rank] == docs;
  }

  /** The entry of the document table for an identifier comes from the list that takes precedence. */
  predicate From(vector: seq<Doc>, keyword: seq<Doc>, id: string, d: Doc) {
    d.id == id && if id in Ids(vector) then d in vector else d in keyword
  }

  /** Every listed document once; one found by the vector search is taken from there. */
  method Collect(vector: seq<Doc>, keyword: seq<Doc>) returns (docs: map<string, Doc>)
    ensures docs.Keys == Ids(vector) + Ids(keyword)
    ensures forall id | id in docs :: From(vector, keyword, id, docs[id])
  {
    docs := map[];
    var i := 0;
    while i < |vector|
      invariant 0 <= i <= |vector|
      invariant docs.Keys == Ids(vector[..i])
      invariant forall id | id in docs :: docs[id].id == id && docs[id] in vector
    {
      Snoc(vector, i);
      docs := docs[vector[i].id := vector[i]];
      i := i + 1;
    }
    assert vector[..i] == vector;
    i := 0;
    while i < |keyword|
      invariant 0 <= i <= |keyword|
      invariant docs.Keys == Ids(vector) + Ids(keyword[..i])
      invariant forall id | id in docs :: From(vector, keyword, id, docs[id])
    {
      Snoc(keyword, i);
      if keyword[i].id !in docs {
        docs := docs[keyword[i].id := keyword[i]];
      }
      i := i + 1;
    }
    assert keyword[..i] == keyword;
  }

  predicate Descending(docs: seq<Doc>) {
    forall i, j | 0 <= i < j < |docs| :: docs[i].score >= docs[j].score
  }

  predicate DistinctIds(docs: seq<Doc>) {
    forall i, j | 0 <= i < j < |docs| :: docs[i].id != docs[j].id
  }

  /** The table in whatever order the map yields it, with the fused scores in place. */
  method Tabulate(docs: map<string, Doc>, scores: map<string, real>) returns (table: seq<Doc>)
    requires docs.Keys == scores.Keys
    requires forall id | id in docs :: docs[id].id == id
    ensures |table| == |docs.Keys| && DistinctIds(table) && Ids(table) == docs.Keys
    ensures forall i | 0 <= i < |table| :: table[i].id in docs && table[i] == docs[table[i].id].(score := scores[table[i].id])
  {
    table := [];
    var todo := docs.Keys;
    while todo != {}
      invariant todo <= docs.Keys
      invariant |table| == |docs.Keys| - |todo| && DistinctIds(table) && Ids(table) == docs.Keys - todo
      invariant forall i | 0 <= i < |table| :: table[i].id in docs && table[i] == docs[table[i].id].(score := scores[table[i].id])
    {
      var id :| id in todo;
      IdsMembers(table, id);
      var longer := table + [docs[id].(score := scores[id])];
      assert longer[..|table|] == table;
      table := longer;
      todo := todo - {id};
    }
  }

  /** Putting `d` behind the documents that score at least as much keeps the order. */
  lemma InsertKeepsOrder(docs: seq<Doc>, d: Doc, k: nat, longer: seq<Doc>)
    requires Descending(docs) && k <= |docs| && longer == docs[..k] + [d] + docs[k..]
    requires forall j | 0 <= j < k :: docs[j].score >= d.score
    requires k < |docs| ==> docs[k].score < d.score
    ensures Descending(longer)
  {
    forall i | 0 <= i < |longer| ensures longer[i] == if i < k then docs[i] else if i == k then d else docs[i - 1] {
    }
    forall j | k <= j < |docs| ensures docs[j].score < d.score {
      assert j > k ==> docs[k].score >= docs[j].score;
    }
  }

  /** One insertion of an insertion sort. */
  method InsertByScore(docs: seq<Doc>, d: Doc) returns (longer: seq<Doc>)
    requires Descending(docs)
    ensures Descending(longer) && multiset(longer) == multiset(docs) + multiset{d}
  {
    var k := 0;
    while k < |docs| && docs[k].score >= d.score
      invariant 0 <= k <= |docs|
      invariant forall j | 0 <= j < k :: docs[j].score >= d.score
    {
      k := k + 1;
    }
    longer := docs[..k] + [d] + docs[k..];
    InsertKeepsOrder(docs, d, k, longer);
    assert multiset(longer) == multiset(docs) + multiset{d} by {
      assert docs == docs[..k] + docs[k..];
    }
  }

  /** Any sorting routine would do: the order of equal scores is left open. */
  method SortByScore(docs: seq<Doc>) returns (sorted: seq<Doc>)
    ensures Descending(sorted) && multiset(sorted) == multiset(docs)
  {
    sorted := [];
    var i := 0;
    while i < |docs|
      invariant 0 <= i <= |docs|
      invariant Descending(sorted) && multiset(sorted) == multiset(docs[..i])
    {
      sorted := InsertByScore(sorted, docs[i]);
      assert docs[..i + 1] == docs[..i] + [docs[i]];
      i := i + 1;
    }
    assert docs[..i] == docs;
  }

  /** A result as fusion reports it: the document of the list that takes precedence, with the fused score. */
  ghost predicate IsEntry(vector: seq<Doc>, keyword: seq<Doc>, d: Doc) {
    && d.id in Ids(vector) + Ids(keyword)
    && d.score == Fused(vector, keyword, d.id)
    && exists e :: From(vector, keyword, d.id, e) && d == e.(score := d.score)
  }

  /** What fusion promises of its output: the best `topK` of all documents found, each once, best first. */
  ghost predicate IsFusion(vector: seq<Doc>, keyword: seq<Doc>, topK: nat, out: seq<Doc>) {
    var all := Ids(vector) + Ids(keyword);
    && |out| == (if topK <= |all| then topK else |all|)
    && DistinctIds(out) && Descending(out)
    && (forall i | 0 <= i < |out| :: IsEntry(vector, keyword, out[i]))
    && (forall id, i | id in all - Ids(out) && 0 <= i < |out| :: Fused(vector, keyword, id) <= out[i].score)
  }

  /** The document is one of the list, apart from its score. */
  predicate TakenFrom(d: Doc, docs: seq<Doc>) {
    exists k | 0 <= k < |docs| :: docs[k].id == d.id && docs[k].content == d.content
  }

  lemma {:induction false} EntryIsTaken(vector: seq<Doc>, keyword: seq<Doc>, d: Doc)
    requires IsEntry(vector, keyword, d)
    ensures TakenFrom(d, if d.id in Ids(vector) then vector else keyword)
  {
    var e :| From(vector, keyword, d.id, e) && d == e.(score := d.score);
    var docs := if d.id in Ids(vector) then vector else keyword;
    var k :| 0 <= k < |docs| && docs[k] == e;
  }

  /** The whole ranking before it is cut. */
  ghost predicate IsRanking(vector: seq<Doc>, keyword: seq<Doc>, sorted: seq<Doc>) {
    var all := Ids(vector) + Ids(keyword);
    && |sorted| == |all| && Ids(sorted) == all
    && DistinctIds(sorted) && Descending(sorted)
    && (forall i | 0 <= i < |sorted| :: IsEntry(vector, keyword, sorted[i]))
  }

  lemma PrefixIds(docs: seq<Doc>, n: nat, j: nat)
    requires n <= |docs| && j < |docs|
    ensures j < n ==> docs[j].id in Ids(docs[..n])
  {
    if j < n {
      IdsMembers(docs[..n], docs[j].id);
      assert docs[..n][j].id == docs[j].id;
    }
  }

  lemma CutRanking(vector: seq<Doc>, keyword: seq<Doc>, topK: nat, sorted: seq<Doc>, n: nat)
    requires IsRanking(vector, keyword, sorted) && n == if topK <= |sorted| then topK else |sorted|
    ensures IsFusion(vector, keyword, topK, sorted[..n])
  {
    var out := sorted[..n];
    forall id, i | id in Ids(sorted) - Ids(out) && 0 <= i < n ensures Fused(vector, keyword, id) <= out[i].score {
      IdsMembers(sorted, id);
      var j :| 0 <= j < |sorted| && sorted[j].id == id;
      PrefixIds(sorted, n, j);
      assert IsEntry(vector, keyword, sorted[j]);
    }
  }

  /** The promise clause by clause. */
  lemma {:induction false} FusionExplained(vector: seq<Doc>, keyword: seq<Doc>, topK: nat, out: seq<Doc>)
    requires IsFusion(vector, keyword, topK, out)
    ensures |out| == if topK <= |Ids(vector) + Ids(keyword)| then topK else |Ids(vector) + Ids(keyword)|
    ensures forall i, j | 0 <= i < j < |out| :: out[i].id != out[j].id && out[i].score >= out[j].score
    ensures forall i | 0 <= i < |out| :: out[i].score == Fused(vector, keyword, out[i].id)
    ensures forall i | 0 <= i < |out| :: TakenFrom(out[i], if out[i].id in Ids(vector) then vector else keyword)
    ensures forall id, i | id in Ids(vector) + Ids(keyword) && id !in Ids(out) && 0 <= i < |out| :: Fused(vector, keyword, id) <= out[i].score
  {
    forall i | 0 <= i < |out| ensures TakenFrom(out[i], if out[i].id in Ids(vector) then vector else keyword) {
      EntryIsTaken(vector, keyword, out[i]);
    }
  }

  /** Scores, documents, table and order: everything but the cut. */
  method RankAll(vector: seq<Doc>, keyword: seq<Doc>) returns (sorted: seq<Doc>)
    ensures IsRanking(vector, keyword, sorted)
  {
    var found := Accumulate(vector, map[]);
    var scores := Accumulate(keyword, found);
    var docs := Collect(vector, keyword);
    var table := Tabulate(docs, scores);
    TableEntries(vector, keyword, docs, scores, table);
    sorted := SortByScore(table);
    PermutationRanks(vector, keyword, table, sorted);
  }

  method Fuse(vector: seq<Doc>, keyword: seq<Doc>, topK: nat) returns (out: seq<Doc>)
    ensures IsFusion(vector, keyword, topK, out)
    ensures |out| == if topK <= |Ids(vector) + Ids(keyword)| then topK else |Ids(vector) + Ids(keyword)|
    ensures forall i, j | 0 <= i < j < |out| :: out[i].id != out[j].id && out[i].score >= out[j].score
    ensures forall i | 0 <= i < |out| :: out[i].score == Fused(vector, keyword, out[i].id)
    ensures forall i | 0 <= i < |out| :: TakenFrom(out[i], if out[i].id in Ids(vector) then vector else keyword)
    ensures forall id, i | id in Ids(vector) + Ids(keyword) && id !in Ids(out) && 0 <= i < |out| :: Fused(vector, keyword, id) <= out[i].score
  {
    var sorted := RankAll(vector, keyword);
    var n := topK;
    if n > |sorted| {
      n := |sorted|;
    }
    out := sorted[..n];
    CutRanking(vector, keyword, topK, sorted, n);
    FusionExplained(vector, keyword, topK, out);
  }

  lemma {:induction false} TableEntries(vector: seq<Doc>, keyword: seq<Doc>, docs: map<string, Doc>, scores: map<string, real>, table: seq<Doc>)
    requires docs.Keys == scores.Keys == Ids(vector) + Ids(keyword)
    requires forall id :: Or0(scores, id) == Fused(vector, keyword, id)
    requires forall id | id in docs :: From(vector, keyword, id, docs[id])
    requires forall i | 0 <= i < |table| :: table[i].id in docs && table[i] == docs[table[i].id].(score := scores[table[i].id])
    ensures forall i | 0 <= i < |table| :: IsEntry(vector, keyword, table[i])
  {
    forall i | 0 <= i < |table| ensures IsEntry(vector, keyword, table[i]) {
      var id := table[i].id;
      assert Or0(scores, id) == Fused(vector, keyword, id);
      assert From(vector, keyword, id, docs[id]);
    }
  }

  lemma {:induction false} PermutationRanks(vector: seq<Doc>, keyword: seq<Doc>, table: seq<Doc>, sorted: seq<Doc>)
    requires |table| == |Ids(vector) + Ids(keyword)| && Ids(table) == Ids(vector) + Ids(keyword) && DistinctIds(table)
    requires forall i | 0 <= i < |table| :: IsEntry(vector, keyword, table[i])
    requires Descending(sorted) && multiset(sorted) == multiset(table)
    ensures IsRanking(vector, keyword, sorted)
  {
    assert |sorted| == |multiset(sorted)| == |multiset(table)| == |table|;
    forall d: Doc ensures d in sorted <==> d in table {
      assert d in sorted <==> d in multiset(sorted);
      assert d in table <==> d in multiset(table);
    }
    forall i | 0 <= i < |sorted| ensures IsEntry(vector, keyword, sorted[i]) {
      assert sorted[i] in table;
    }
    forall i, j | 0 <= i < j < |sorted| ensures sorted[i].id != sorted[j].id {
      PermutedDistinct(table, sorted, i, j);
    }
    SameMembersSameIds(table, sorted);
  }

  lemma {:induction false} SameMembersSameIds(a: seq<Doc>, b: seq<Doc>)
    requires forall d: Doc :: d in a <==> d in b
    ensures Ids(a) == Ids(b)
  {
    forall id ensures id in Ids(a) <==> id in Ids(b) {
      IdsMembers(a, id);
      IdsMembers(b, id);
      if i :| 0 <= i < |a| && a[i].id == id { assert a[i] in b; }
      if i :| 0 <= i < |b| && b[i].id == id { assert b[i] in a; }
    }
  }

  lemma PermutedDistinct(table: seq<Doc>, sorted: seq<Doc>, i: nat, j: nat)
    requires multiset(sorted) == multiset(table) && DistinctIds(table) && i < j < |sorted|
    ensures sorted[i].id != sorted[j].id
  {
    var a, b := sorted[i], sorted[j];
    assert a in multiset(sorted) && b in multiset(sorted);
    assert a in table && b in table;
    if a == b {
      assert sorted == sorted[..j] + [b] + sorted[j + 1..];
      assert a in sorted[..j];
      assert multiset(sorted)[a] >= 2;
      OccursOnce(table, a);
    }
  }

  lemma {:induction false} OccursOnce(table: seq<Doc>, d: Doc)
    requires DistinctIds(table)
    ensures multiset(table)[d] <= 1
  {
    if table != [] {
      var n := |table| - 1;
      assert table == table[..n] + [table[n]];
      OccursOnce(table[..n], d);
      if d == table[n] {
        assert d !in table[..n];
      }
    }
  }
}
