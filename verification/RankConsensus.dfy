/** What fusion means for a reader: documents that both searches found come first, as long as not too many are asked for. */
module RankConsensus {
  import opened RankFusion

  /** What the two searches deliver: no document twice, at most twice as many as asked for. */
  predicate Searched(docs: seq<Doc>, topK: nat) {
    DistinctIds(docs) && |docs| <= 2 * topK
  }

  lemma {:induction false} UniqueScore(docs: seq<Doc>, i: nat)
    requires DistinctIds(docs) && i < |docs|
    ensures ListScore(docs, docs[i].id) == Share(i)
  {
    var n := |docs| - 1;
    if i == n {
      IdsMembers(docs[..n], docs[n].id);
      AbsentScoresNothing(docs[..n], docs[n].id);
    } else {
      UniqueScore(docs[..n], i);
    }
  }

  lemma ReciprocalShrinks(x: real, y: real)
    requires 0.0 < x <= y
    ensures 1.0 / x >= 1.0 / y
  {
    var a, b := 1.0 / x, 1.0 / y;
    assert a * x == 1.0 && b * y == 1.0 && b > 0.0;
    assert b * x <= b * y;
    assert (a - b) * x >= 0.0;
  }

  lemma ShareShrinks(i: nat, j: nat)
    requires i <= j
    ensures Share(i) >= Share(j)
  {
    ReciprocalShrinks(60.0 + (i + 1) as real, 60.0 + (j + 1) as real);
  }

  lemma {:induction false} ScoreOf(docs: seq<Doc>, id: string, topK: nat)
    requires Searched(docs, topK) && topK >= 1
    ensures id in Ids(docs) ==> Share(2 * topK - 1) <= ListScore(docs, id) <= Share(0)
    ensures id !in Ids(docs) ==> ListScore(docs, id) == 0.0
  {
    AbsentScoresNothing(docs, id);
    if id in Ids(docs) {
      IdsMembers(docs, id);
      var i :| 0 <= i < |docs| && docs[i].id == id;
      UniqueScore(docs, i);
      ShareShrinks(i, 2 * topK - 1);
      ShareShrinks(0, i);
    }
  }

  /** Two of the smallest shares outweigh one of the largest, up to thirty results. */
  lemma TwoLastBeatOneFirst(topK: nat)
    requires 1 <= topK
    ensures 2.0 * Share(2 * topK - 1) > Share(0) <==> topK <= 30
  {
    assert Share(0) == 1.0 / 61.0;
    if topK <= 30 {
      ShareShrinks(2 * topK - 1, 59);
      assert Share(59) == 1.0 / 120.0;
    } else {
      ShareShrinks(61, 2 * topK - 1);
      assert Share(61) == 1.0 / 122.0;
    }
  }

  /** A document both searches found scores higher than one only a single search found. */
  lemma {:induction false} ConsensusScoresHigher(vector: seq<Doc>, keyword: seq<Doc>, topK: nat, both: string, one: string)
    requires Searched(vector, topK) && Searched(keyword, topK) && topK <= 30
    requires both in Ids(vector) * Ids(keyword)
    requires one !in Ids(vector) * Ids(keyword)
    ensures Fused(vector, keyword, both) > Fused(vector, keyword, one)
  {
    IdsMembers(vector, both);
    ScoreOf(vector, both, topK);
    ScoreOf(keyword, both, topK);
    ScoreOf(vector, one, topK);
    ScoreOf(keyword, one, topK);
    TwoLastBeatOneFirst(topK);
  }

  /** In the output every document found by both searches comes before every document found by only one. */
  lemma {:induction false} ConsensusComesFirst(vector: seq<Doc>, keyword: seq<Doc>, topK: nat, out: seq<Doc>, both: string, i: nat)
    requires Searched(vector, topK) && Searched(keyword, topK) && topK <= 30
    requires IsFusion(vector, keyword, topK, out)
    requires both in Ids(vector) * Ids(keyword)
    requires i < |out| && out[i].id !in Ids(vector) * Ids(keyword)
    ensures exists j | 0 <= j < i :: out[j].id == both
  {
    assert IsEntry(vector, keyword, out[i]);
    ConsensusScoresHigher(vector, keyword, topK, both, out[i].id);
    assert both in Ids(out);
    IdsMembers(out, both);
    var j :| 0 <= j < |out| && out[j].id == both;
    assert IsEntry(vector, keyword, out[j]);
    assert j < i;
  }

  function Named(c: char, n: nat): Doc {
    Doc(seq(n + 1, _ => c), "", 0.0)
  }

  function VectorWitness(n: nat): seq<Doc> {
    seq(n, i requires 0 <= i < n => Named('a', i))
  }

  function KeywordWitness(n: nat): seq<Doc> {
    seq(n, i requires 0 <= i < n => if i == n - 1 then Named('a', i) else Named('b', i))
  }

  lemma WitnessesAreDistinct(n: nat)
    requires n >= 2
    ensures DistinctIds(VectorWitness(n)) && DistinctIds(KeywordWitness(n))
    ensures forall i, j | 0 <= i < n && 0 <= j < n :: VectorWitness(n)[i].id == KeywordWitness(n)[j].id ==> i == j == n - 1
  {
    var v, k := VectorWitness(n), KeywordWitness(n);
    forall i | 0 <= i < n ensures |v[i].id| == |k[i].id| == i + 1 {
    }
    forall i | 0 <= i < n ensures v[i].id[0] == 'a' && (i < n - 1 ==> k[i].id[0] == 'b') {
    }
  }

  /** Lists on which agreement does not win: the shared document is last in both. */
  lemma {:induction false} WitnessBeyondThirty(topK: nat) returns (vector: seq<Doc>, keyword: seq<Doc>, both: string, one: string)
    requires topK >= 31
    ensures Searched(vector, topK) && Searched(keyword, topK)
    ensures Ids(vector) * Ids(keyword) == {both} && one in Ids(vector) - Ids(keyword)
    ensures Fused(vector, keyword, both) <= Fused(vector, keyword, one)
  {
    var n := 2 * topK;
    vector, keyword := VectorWitness(n), KeywordWitness(n);
    WitnessesAreDistinct(n);
    both, one := vector[n - 1].id, vector[0].id;
    assert keyword[n - 1].id == both;
    forall id ensures id in Ids(vector) * Ids(keyword) <==> id == both {
      IdsMembers(vector, id);
      IdsMembers(keyword, id);
    }
    IdsMembers(vector, one);
    assert one != both by {
      assert |one| == 1 && |both| == n;
    }
    assert one in Ids(vector) && one !in Ids(vector) * Ids(keyword);
    UniqueScore(vector, n - 1);
    UniqueScore(keyword, n - 1);
    UniqueScore(vector, 0);
    AbsentScoresNothing(keyword, one);
    TwoLastBeatOneFirst(topK);
  }

  // ----- Rankings with a document as far behind as ties allow -----

  /** All of the documents `ids`, ranked. */
  ghost predicate Ranks(vector: seq<Doc>, keyword: seq<Doc>, ids: set<string>, sorted: seq<Doc>) {
    && |sorted| == |ids| && Ids(sorted) == ids
    && DistinctIds(sorted) && Descending(sorted)
    && (forall i | 0 <= i < |sorted| :: IsEntry(vector, keyword, sorted[i]))
  }

  lemma {:induction false} EntryExists(vector: seq<Doc>, keyword: seq<Doc>, id: string) returns (d: Doc)
    requires id in Ids(vector) + Ids(keyword)
    ensures IsEntry(vector, keyword, d) && d.id == id
  {
    IdsMembers(vector, id);
    IdsMembers(keyword, id);
    var docs := if id in Ids(vector) then vector else keyword;
    var i :| 0 <= i < |docs| && docs[i].id == id;
    d := docs[i].(score := Fused(vector, keyword, id));
    assert From(vector, keyword, id, docs[i]) && d == docs[i].(score := d.score);
  }

  lemma PlaceFor(docs: seq<Doc>, score: real) returns (k: nat)
    ensures k <= |docs| && (forall j | 0 <= j < k :: docs[j].score >= score) && (k < |docs| ==> docs[k].score < score)
  {
    k := 0;
    while k < |docs| && docs[k].score >= score
      invariant k <= |docs| && forall j | 0 <= j < k :: docs[j].score >= score
    {
      k := k + 1;
    }
  }

  lemma {:induction false} IdsAppend(a: seq<Doc>, b: seq<Doc>)
    ensures Ids(a + b) == Ids(a) + Ids(b)
  {
    if b == [] {
      assert a + b == a;
    } else {
      var n := |b| - 1;
      IdsAppend(a, b[..n]);
      assert (a + b)[..|a + b| - 1] == a + b[..n];
    }
  }

  lemma {:induction false} IdsAround(front: seq<Doc>, d: Doc, back: seq<Doc>)
    ensures Ids(front + [d] + back) == Ids(front + back) + {d.id}
  {
    IdsAppend(front, [d]);
    IdsAppend(front + [d], back);
    IdsAppend(front, back);
  }

  lemma {:induction false} AbsentEverywhere(docs: seq<Doc>, id: string)
    requires id !in Ids(docs)
    ensures forall i | 0 <= i < |docs| :: docs[i].id != id
  {
    IdsMembers(docs, id);
  }

  /** An identifier at a position of the longer list is one of the shorter list, or the new one. */
  lemma DistinctAround(front: seq<Doc>, d: Doc, back: seq<Doc>)
    requires DistinctIds(front + back)
    requires forall i | 0 <= i < |front + back| :: (front + back)[i].id != d.id
    ensures DistinctIds(front + [d] + back)
  {
    var docs, longer, k := front + back, front + [d] + back, |front|;
    forall i, j | 0 <= i < j < |longer| ensures longer[i].id != longer[j].id {
      assert longer[i] == if i < k then docs[i] else if i == k then d else docs[i - 1];
      assert longer[j] == if j < k then docs[j] else if j == k then d else docs[j - 1];
    }
  }

  lemma DescendingAround(front: seq<Doc>, d: Doc, back: seq<Doc>)
    requires Descending(front + back)
    requires forall i | 0 <= i < |front| :: front[i].score >= d.score
    requires forall i | 0 <= i < |back| :: back[i].score <= d.score
    ensures Descending(front + [d] + back)
  {
    var docs, longer, k := front + back, front + [d] + back, |front|;
    forall i, j | 0 <= i < j < |longer| ensures longer[i].score >= longer[j].score {
      assert longer[i] == if i < k then front[i] else if i == k then d else back[i - k - 1];
      assert longer[j] == if j < k then front[j] else if j == k then d else back[j - k - 1];
      assert i < k ==> docs[i] == front[i];
      assert i > k ==> docs[i - 1] == back[i - k - 1];
      assert j < k ==> docs[j] == front[j];
      assert j > k ==> docs[j - 1] == back[j - k - 1];
    }
  }

  lemma EntriesAround(vector: seq<Doc>, keyword: seq<Doc>, front: seq<Doc>, d: Doc, back: seq<Doc>)
    requires IsEntry(vector, keyword, d)
    requires forall i | 0 <= i < |front + back| :: IsEntry(vector, keyword, (front + back)[i])
    ensures forall i | 0 <= i < |front + [d] + back| :: IsEntry(vector, keyword, (front + [d] + back)[i])
  {
    var docs, longer, k := front + back, front + [d] + back, |front|;
    forall i | 0 <= i < |longer| ensures IsEntry(vector, keyword, longer[i]) {
      assert longer[i] == if i < k then docs[i] else if i == k then d else docs[i - 1];
    }
  }

  lemma RanksAround(vector: seq<Doc>, keyword: seq<Doc>, ids: set<string>, front: seq<Doc>, d: Doc, back: seq<Doc>)
    requires Ranks(vector, keyword, ids, front + back) && IsEntry(vector, keyword, d) && d.id !in ids
    requires forall i | 0 <= i < |front| :: front[i].score >= d.score
    requires forall i | 0 <= i < |back| :: back[i].score <= d.score
    ensures Ranks(vector, keyword, ids + {d.id}, front + [d] + back)
  {
    IdsAround(front, d, back);
    AbsentEverywhere(front + back, d.id);
    DistinctAround(front, d, back);
    DescendingAround(front, d, back);
    EntriesAround(vector, keyword, front, d, back);
  }

  /** Cuts a ranking in two: those that score at least so much, and the others. */
  lemma CutAt(docs: seq<Doc>, score: real) returns (front: seq<Doc>, back: seq<Doc>)
    requires Descending(docs)
    ensures docs == front + back
    ensures forall i | 0 <= i < |front| :: front[i].score >= score
    ensures forall i | 0 <= i < |back| :: back[i].score <= score
    ensures docs != [] && docs[0].score >= score ==> front != [] && front[0] == docs[0]
  {
    var k := PlaceFor(docs, score);
    front, back := docs[..k], docs[k..];
    forall i | 0 <= i < |back| ensures back[i].score <= score {
      assert docs[k].score >= docs[k + i].score;
    }
  }

  /** Adds a document to a ranking, behind everything that scores as much. */
  lemma {:induction false} RankOneMore(vector: seq<Doc>, keyword: seq<Doc>, ids: set<string>, sorted: seq<Doc>, id: string) returns (longer: seq<Doc>)
    requires Ranks(vector, keyword, ids, sorted) && id in Ids(vector) + Ids(keyword) && id !in ids
    ensures Ranks(vector, keyword, ids + {id}, longer)
    ensures sorted != [] && sorted[0].score >= Fused(vector, keyword, id) ==> longer[0] == sorted[0]
  {
    var d := EntryExists(vector, keyword, id);
    var front, back := CutAt(sorted, d.score);
    longer := front + [d] + back;
    RanksAround(vector, keyword, ids, front, d, back);
  }

  lemma {:induction false} RankingExists(vector: seq<Doc>, keyword: seq<Doc>, ids: set<string>) returns (sorted: seq<Doc>)
    requires ids <= Ids(vector) + Ids(keyword)
    ensures Ranks(vector, keyword, ids, sorted)
    decreases |ids|
  {
    if ids == {} {
      sorted := [];
    } else {
      var id :| id in ids;
      var rest := RankingExists(vector, keyword, ids - {id});
      sorted := RankOneMore(vector, keyword, ids - {id}, rest, id);
      assert ids - {id} + {id} == ids;
    }
  }

  /** If another document scores at least as much, some fusion of the lists does not begin with `last`. */
  lemma {:induction false} FusionWithoutFirst(vector: seq<Doc>, keyword: seq<Doc>, topK: nat, last: string, other: string) returns (out: seq<Doc>)
    requires topK >= 1 && {last, other} <= Ids(vector) + Ids(keyword) && last != other
    requires Fused(vector, keyword, last) <= Fused(vector, keyword, other)
    ensures IsFusion(vector, keyword, topK, out) && out != [] && out[0].id != last
  {
    var all := Ids(vector) + Ids(keyword);
    var others := RankingExists(vector, keyword, all - {last});
    IdsMembers(others, other);
    var i :| 0 <= i < |others| && others[i].id == other;
    assert IsEntry(vector, keyword, others[i]) && others[0].score >= others[i].score;
    var sorted := RankOneMore(vector, keyword, all - {last}, others, last);
    assert all - {last} + {last} == all;
    var n := if topK <= |sorted| then topK else |sorted|;
    CutRanking(vector, keyword, topK, sorted, n);
    out := sorted[..n];
    IdsMembers(others, last);
  }

  // ----- How far the guarantee goes -----

  predicate ComesBefore(out: seq<Doc>, id: string, i: nat) {
    i <= |out| && exists j | 0 <= j < i :: out[j].id == id
  }

  /** Each document found by both searches comes before each document found by only one. */
  ghost predicate SharedFirst(vector: seq<Doc>, keyword: seq<Doc>, out: seq<Doc>) {
    var shared := Ids(vector) * Ids(keyword);
    forall both, i | both in shared && 0 <= i < |out| && out[i].id !in shared :: ComesBefore(out, both, i)
  }

  /** That holds of every output of fusion, whatever the lists and however ties are broken. */
  ghost predicate ConsensusAlwaysFirst(topK: nat) {
    forall vector, keyword, out | Searched(vector, topK) && Searched(keyword, topK) && IsFusion(vector, keyword, topK, out)
      :: SharedFirst(vector, keyword, out)
  }

  /** Beyond thirty some output begins with a document only one search found although another was found by both. */
  lemma {:induction false} SinglesCanLead(topK: nat) returns (vector: seq<Doc>, keyword: seq<Doc>, out: seq<Doc>, both: string)
    requires topK >= 31
    ensures Searched(vector, topK) && Searched(keyword, topK) && IsFusion(vector, keyword, topK, out)
    ensures both in Ids(vector) * Ids(keyword) && out != [] && out[0].id !in Ids(vector) * Ids(keyword)
  {
    var one;
    vector, keyword, both, one := WitnessBeyondThirty(topK);
    assert both in Ids(vector) * Ids(keyword);
    out := FusionWithoutFirst(vector, keyword, topK, both, one);
  }

  /** Thirty is exactly how far the guarantee goes. */
  lemma ConsensusWinsUpToThirty(topK: nat)
    ensures ConsensusAlwaysFirst(topK) <==> topK <= 30
  {
    if topK <= 30 {
      forall vector, keyword, out: seq<Doc> | Searched(vector, topK) && Searched(keyword, topK) && IsFusion(vector, keyword, topK, out)
        ensures SharedFirst(vector, keyword, out)
      {
        var shared := Ids(vector) * Ids(keyword);
        forall both, i | both in shared && 0 <= i < |out| && out[i].id !in shared ensures ComesBefore(out, both, i) {
          ConsensusComesFirst(vector, keyword, topK, out, both, i);
        }
      }
    } else {
      var vector, keyword, out, both := SinglesCanLead(topK);
      assert !ComesBefore(out, both, 0);
      assert !SharedFirst(vector, keyword, out);
    }
  }
}
