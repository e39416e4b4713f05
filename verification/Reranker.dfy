/** Rescoring retrieved passages by token overlap and ordering them best first. */
module Reranker {
  import opened Sets
  import opened Wrappers
  import opened TextTools

  datatype Hit = Hit(
    chunkId: nat, documentId: nat, title: string, section: Option<string>, page: Option<nat>, content: string,
    hybridScore: real, rerankScore: Option<real>)

  /** The set of lexical tokens of a text; how texts are tokenized is a parameter. */
  type Tokenizer = string -> set<string>

  const QUERY_ALIASES: seq<(string, string)> := [
    ("后段", "高电量 降低功率"),
    ("冬季", "低温 电池预热 续航余量"),
    ("存放", "停放 长期停放"),
    ("两周", "超过两周 长期停放")]

  function Share(wanted: set<string>, found: set<string>): real {
    |wanted * found| as real / (if |wanted| == 0 then 1 else |wanted|) as real
  }

  function Clamp(x: real): real { if x < 0.0 then 0.0 else if x > 1.0 then 1.0 else x }

  function Score(tokens: Tokenizer, query: string, hit: Hit): real {
    var content := tokens(hit.content);
    var direct := Share(tokens(query), content);
    var alias := Share(tokens(Join(Matching(QUERY_ALIASES, query), " ")), content) * 0.8;
    Clamp(hit.hybridScore * 0.65 + (if direct < alias then alias else direct) * 0.35)
  }

  /** What part of some tokens was found. */
  function Part(found: nat, wanted: nat): real { if wanted == 0 then 0.0 else found as real / wanted as real }

  lemma PartIsPart(wanted: set<string>, found: set<string>)
    ensures Share(wanted, found) == Part(|wanted * found|, |wanted|)
    ensures 0.0 <= Part(|wanted * found|, |wanted|) <= 1.0
  {
    SubsetCount(wanted * found, wanted);
    var k, n := |wanted * found|, |wanted|;
    if n > 0 { RatioBound(k, n); }
  }

  lemma RatioBound(k: nat, n: nat)
    requires k <= n && n > 0
    ensures 0.0 <= k as real / n as real <= 1.0
  {
  }

  /** The score: 65 parts the hybrid score, 35 parts the larger of the part of the query's tokens found and four
      fifths of the part of its aliases' tokens found. The clamp to [0, 1] changes nothing for a hybrid score in
      [0, 1]. */
  lemma ScoreIs(tokens: Tokenizer, query: string, hit: Hit)
    ensures var q, a, c := tokens(query), tokens(Join(Matching(QUERY_ALIASES, query), " ")), tokens(hit.content);
            var direct, alias := Part(|q * c|, |q|), Part(|a * c|, |a|) * 0.8;
            var raw := 0.65 * hit.hybridScore + 0.35 * (if direct >= alias then direct else alias);
            && (0.0 <= hit.hybridScore <= 1.0 ==> 0.0 <= raw <= 1.0 && Score(tokens, query, hit) == raw)
            && (raw < 0.0 ==> Score(tokens, query, hit) == 0.0)
            && (raw > 1.0 ==> Score(tokens, query, hit) == 1.0)
            && (0.0 <= raw <= 1.0 ==> Score(tokens, query, hit) == raw)
  {
    PartIsPart(tokens(query), tokens(hit.content));
    PartIsPart(tokens(Join(Matching(QUERY_ALIASES, query), " ")), tokens(hit.content));
    hide Part, Share;
  }

  function Scored(tokens: Tokenizer, query: string, hits: seq<Hit>): seq<Hit> {
    seq(|hits|, i requires 0 <= i < |hits| => hits[i].(rerankScore := Some(Score(tokens, query, hits[i]))))
  }

  /** The sort key: the score, or 0 when there is none. */
  function Key(hit: Hit): real { if hit.rerankScore.Some? then hit.rerankScore.value else 0.0 }

  function Insert(hit: Hit, sorted: seq<Hit>): seq<Hit> {
    if sorted == [] || Key(sorted[0]) <= Key(hit) then [hit] + sorted else [sorted[0]] + Insert(hit, sorted[1..])
  }

  /** Best first; hits with equal scores keep their order. */
  function SortDescending(hits: seq<Hit>): seq<Hit> {
    if hits == [] then [] else Insert(hits[0], SortDescending(hits[1..]))
  }

  predicate Descending(hits: seq<Hit>) {
    forall i, j :: 0 <= i < j < |hits| ==> Key(hits[i]) >= Key(hits[j])
  }

  /** The hits with one score, in order. */
  function WithKey(hits: seq<Hit>, key: real): seq<Hit> {
    if hits == [] then [] else (if Key(hits[0]) == key then [hits[0]] else []) + WithKey(hits[1..], key)
  }

  lemma {:induction false} InsertAddsOne(hit: Hit, sorted: seq<Hit>)
    ensures |Insert(hit, sorted)| == |sorted| + 1
    ensures multiset(Insert(hit, sorted)) == multiset{hit} + multiset(sorted)
  {
    if sorted != [] && Key(sorted[0]) > Key(hit) {
      InsertAddsOne(hit, sorted[1..]);
      assert sorted == [sorted[0]] + sorted[1..];
    }
  }

  lemma {:induction false} InsertIsSorted(hit: Hit, sorted: seq<Hit>)
    requires Descending(sorted)
    ensures Descending(Insert(hit, sorted))
    ensures sorted != [] && Key(sorted[0]) > Key(hit) ==> Insert(hit, sorted)[0] == sorted[0]
    ensures !(sorted != [] && Key(sorted[0]) > Key(hit)) ==> Insert(hit, sorted)[0] == hit
  {
    if sorted != [] && Key(sorted[0]) > Key(hit) {
      InsertIsSorted(hit, sorted[1..]);
      var rest := Insert(hit, sorted[1..]);
      assert sorted == [sorted[0]] + sorted[1..];
      forall i | 0 <= i < |rest| ensures Key(rest[i]) <= Key(sorted[0]) { assert Key(rest[i]) <= Key(rest[0]); }
    }
  }

  lemma WithKeyCons(h: Hit, hits: seq<Hit>, key: real)
    ensures WithKey([h] + hits, key) == if Key(h) == key then [h] + WithKey(hits, key) else WithKey(hits, key)
  {
    assert ([h] + hits)[1..] == hits;
  }

  lemma InsertUnfolds(hit: Hit, sorted: seq<Hit>)
    ensures Insert(hit, sorted)
            == if sorted == [] || Key(sorted[0]) <= Key(hit) then [hit] + sorted
               else [sorted[0]] + Insert(hit, sorted[1..])
  {
  }

  lemma {:induction false} InsertIsStable(hit: Hit, sorted: seq<Hit>, key: real)
    ensures WithKey(Insert(hit, sorted), key)
            == if Key(hit) == key then [hit] + WithKey(sorted, key) else WithKey(sorted, key)
  {
    hide WithKey, Insert, Key;
    InsertUnfolds(hit, sorted);
    if sorted == [] || Key(sorted[0]) <= Key(hit) {
      WithKeyCons(hit, sorted, key);
    } else {
      InsertIsStable(hit, sorted[1..], key);
      WithKeyCons(sorted[0], Insert(hit, sorted[1..]), key);
      WithKeyCons(sorted[0], sorted[1..], key);
      assert sorted == [sorted[0]] + sorted[1..];
    }
  }

  /** Sorting is a stable permutation into descending order. */
  lemma {:induction false} SortIsStable(hits: seq<Hit>, key: real)
    ensures Descending(SortDescending(hits)) && |SortDescending(hits)| == |hits|
    ensures multiset(SortDescending(hits)) == multiset(hits)
    ensures WithKey(SortDescending(hits), key) == WithKey(hits, key)
  {
    hide Insert, Descending, WithKey;
    if hits == [] {
      assert SortDescending(hits) == [];
      EmptyIsDescending();
    } else {
      WithKeyCons(hits[0], hits[1..], key);
      SortIsStable(hits[1..], key);
      InsertAddsOne(hits[0], SortDescending(hits[1..]));
      InsertIsSorted(hits[0], SortDescending(hits[1..]));
      InsertIsStable(hits[0], SortDescending(hits[1..]), key);
      assert hits == [hits[0]] + hits[1..];
    }
  }

  lemma EmptyIsDescending()
    ensures Descending([])
  {
  }

  /** What a reranked list is. */
  function Reranked(tokens: Tokenizer, query: string, hits: seq<Hit>): seq<Hit> {
    SortDescending(Scored(tokens, query, hits))
  }

  method Rerank(tokens: Tokenizer, query: string, hits: seq<Hit>) returns (reranked: seq<Hit>)
    ensures reranked == Reranked(tokens, query, hits)
  {
    var scored: seq<Hit> := [];
    for n := 0 to |hits|
      invariant scored == Scored(tokens, query, hits[..n])
    {
      scored := scored + [hits[n].(rerankScore := Some(Score(tokens, query, hits[n])))];
    }
    assert hits[..|hits|] == hits;
    reranked := SortDescending(scored);
  }

  predicate DistinctChunks(hits: seq<Hit>) {
    forall i, j :: 0 <= i < j < |hits| ==> hits[i].chunkId != hits[j].chunkId
  }

  lemma {:induction false} InsertKeepsDistinct(hit: Hit, sorted: seq<Hit>)
    requires DistinctChunks(sorted) && forall h :: h in sorted ==> h.chunkId != hit.chunkId
    ensures DistinctChunks(Insert(hit, sorted))
    ensures forall h :: h in Insert(hit, sorted) <==> h == hit || h in sorted
  {
    if sorted != [] && Key(sorted[0]) > Key(hit) {
      InsertKeepsDistinct(hit, sorted[1..]);
      assert sorted == [sorted[0]] + sorted[1..];
      var rest := Insert(hit, sorted[1..]);
      forall i | 0 <= i < |rest| ensures rest[i].chunkId != sorted[0].chunkId { assert rest[i] in rest; }
    }
  }

  lemma {:induction false} SortKeepsDistinct(hits: seq<Hit>)
    requires DistinctChunks(hits)
    ensures DistinctChunks(SortDescending(hits))
    ensures forall h :: h in SortDescending(hits) <==> h in hits
  {
    if hits != [] {
      SortKeepsDistinct(hits[1..]);
      InsertKeepsDistinct(hits[0], SortDescending(hits[1..]));
      assert hits == [hits[0]] + hits[1..];
    }
  }

  /** Reranking scores every hit into [0, 1], orders them best first and stably, and neither adds, drops nor
      repeats a passage. */
  lemma RerankedIsOrdered(tokens: Tokenizer, query: string, hits: seq<Hit>, key: real)
    ensures var r := Reranked(tokens, query, hits);
            && |r| == |hits| && Descending(r)
            && (forall i :: 0 <= i < |r| ==> r[i].rerankScore.Some? && 0.0 <= r[i].rerankScore.value <= 1.0)
            && WithKey(r, key) == WithKey(Scored(tokens, query, hits), key)
            && multiset(r) == multiset(Scored(tokens, query, hits))
            && |Scored(tokens, query, hits)| == |hits|
            && (forall i :: 0 <= i < |hits| ==>
                  && Scored(tokens, query, hits)[i].rerankScore == Some(Score(tokens, query, hits[i]))
                  && Scored(tokens, query, hits)[i].(rerankScore := hits[i].rerankScore) == hits[i])
            && (DistinctChunks(hits) ==> DistinctChunks(r))
  {
    hide Score, SortDescending, WithKey;
    var scored := Scored(tokens, query, hits);
    SortIsStable(scored, key);
    var r := Reranked(tokens, query, hits);
    forall i | 0 <= i < |r| ensures r[i].rerankScore.Some? && 0.0 <= r[i].rerankScore.value <= 1.0 {
      assert r[i] in multiset(r);
      ScoresAreClamped(tokens, query, hits, r[i]);
    }
    if DistinctChunks(hits) { SortKeepsDistinct(scored); }
  }

  lemma ScoresAreClamped(tokens: Tokenizer, query: string, hits: seq<Hit>, hit: Hit)
    requires hit in Scored(tokens, query, hits)
    ensures hit.rerankScore.Some? && 0.0 <= hit.rerankScore.value <= 1.0
  {
  }
}
