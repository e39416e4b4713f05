/**
 The retrieval loop: search, rerank, record, and either answer or rewrite and try again.
 Embedding and search are a parameter: what attempt n finds for a query, or an error.
 */
module KnowledgeQuery {
  import opened Wrappers
  import opened TextTools
  import opened Reranker
  import opened QueryRewriter

  type Search = (nat, string) -> Result<seq<Hit>, string>

  /** The rows recorded for one attempt: the reranked hits and which chunk ids are selected. */
  datatype Attempt = Attempt(number: nat, query: string, hits: seq<Hit>, selected: set<nat>)

  datatype Citation = Citation(source: string, chapter: Option<string>, page: Option<nat>, snippet: string)

  /** The answer names its source and quotes it, or says that there is no evidence. */
  datatype Answer =
    | Grounded(source: string, chapter: Option<string>, page: Option<nat>, snippet: string)
    | NoEvidence

  datatype KnowledgeResult = KnowledgeResult(
    answer: Answer, citations: seq<Citation>, rewrittenQuery: string, retryCount: nat,
    retrievedDocuments: nat, topScore: Option<real>)

  /** The first `limit` characters at most, with an ellipsis when something was cut. */
  function Snippet(text: string, limit: nat): string
    requires limit >= 1
  {
    var normalized := Normalize(text);
    if |normalized| <= limit then normalized else StripRight(normalized[..limit - 1]) + "…"
  }

  function Take<T>(s: seq<T>, n: nat): seq<T> { if n < |s| then s[..n] else s }

  function Cite(hits: seq<Hit>): seq<Citation> {
    seq(|hits|, i requires 0 <= i < |hits| =>
      Citation(hits[i].title, hits[i].section, hits[i].page, Snippet(hits[i].content, 280)))
  }

  /** An empty section and page 0 are not named. */
  function Ground(hit: Hit): (a: Answer)
    ensures a.Grounded?
  {
    Grounded(
      hit.title, if hit.section == Some("") then None else hit.section, if hit.page == Some(0) then None else hit.page,
      Snippet(hit.content, 460))
  }

  /** The whole normalized text where it fits; else its first limit - 1 characters, without a space at their end,
      and an ellipsis. */
  predicate IsSnippet(text: string, limit: nat, snippet: string)
    requires limit >= 2
  {
    var t := Normalize(text);
    if |t| <= limit then snippet == t
    else if t[limit - 2] == ' ' then snippet == t[..limit - 2] + "…"
    else snippet == t[..limit - 1] + "…"
  }

  predicate CitesHit(c: Citation, hit: Hit) {
    c.source == hit.title && c.chapter == hit.section && c.page == hit.page && IsSnippet(hit.content, 280, c.snippet)
  }

  predicate GroundsOn(a: Answer, hit: Hit) {
    && a.Grounded? && a.source == hit.title
    && (a.chapter.Some? <==> hit.section.Some? && hit.section.value != "")
    && (a.chapter.Some? ==> a.chapter == hit.section)
    && (a.page.Some? <==> hit.page.Some? && hit.page.value > 0)
    && (a.page.Some? ==> a.page == hit.page)
    && IsSnippet(hit.content, 460, a.snippet)
  }

  /** The result rests on the first `shown` of these hits: it quotes the first, cites three at most, each in its
      place, and counts their documents. Without any it says so. */
  predicate RestsOn(r: KnowledgeResult, hits: seq<Hit>, shown: nat)
    requires shown <= |hits|
  {
    && (if shown == 0 then r.answer.NoEvidence? else GroundsOn(r.answer, hits[0]))
    && |r.citations| == (if shown < 3 then shown else 3)
    && (forall i :: 0 <= i < |r.citations| ==> CitesHit(r.citations[i], hits[i]))
    && r.retrievedDocuments == |set i | 0 <= i < shown :: hits[i].documentId|
  }

  function ChunkIds(hits: seq<Hit>): set<nat> { set h | h in hits :: h.chunkId }

  function DocumentIds(hits: seq<Hit>): set<nat> { set h | h in hits :: h.documentId }

  function MaxReal(a: real, b: real): real { if a < b then b else a }

  class KnowledgeService {
    const tokens: Tokenizer
    const topK: nat
    const threshold: real
    const maxRetries: int

    constructor (tokens: Tokenizer, topK: nat, threshold: real, maxRetries: int)
      ensures this.tokens == tokens && this.topK == topK && this.threshold == threshold
      ensures this.maxRetries == if maxRetries < 2 then maxRetries else 2
    {
      this.tokens, this.topK, this.threshold := tokens, topK, threshold;
      this.maxRetries := if maxRetries < 2 then maxRetries else 2;
    }

    function QueryAt(query: string, n: nat): string { if n == 0 then query else Rewrite(query, n) }

    predicate Confident(hits: seq<Hit>) { topK > 0 && hits != [] && Key(hits[0]) >= threshold }

    /** The best score an attempt can offer. */
    function TopScore(hits: seq<Hit>): Option<real> {
      if topK > 0 && hits != [] then Some(Key(hits[0])) else None
    }

    /** What is on record for attempt n, given what its search found. */
    predicate Recorded(a: Attempt, query: string, n: nat, search: Search) {
      && a.number == n && a.query == QueryAt(query, n)
      && search(n, a.query).Success?
      && a.hits == Reranked(tokens, a.query, search(n, a.query).value)
      && a.selected == if Confident(a.hits) then ChunkIds(Take(Take(a.hits, topK), 3)) else {}
    }

    /** The best score observed, never below 0 once there is one. */
    function BestScore(attempts: seq<Attempt>): Option<real> {
      if attempts == [] then None else
      var before := BestScore(attempts[..|attempts| - 1]);
      var top := TopScore(attempts[|attempts| - 1].hits);
      if top.None? then before else Some(MaxReal(if before.Some? then before.value else 0.0, top.value))
    }

    /** How many hits of an attempt an answer rests on. */
    function Shown(hits: seq<Hit>): (n: nat)
      ensures n <= |hits|
    {
      if Confident(hits) then if topK < |hits| then topK else |hits| else 0
    }

    /** Some hit within the first topK reaches the threshold. */
    lemma ConfidentIff(query: string, found: seq<Hit>)
      ensures var hits := Reranked(tokens, query, found);
              Confident(hits) <==> exists i :: 0 <= i < |hits| && i < topK && Key(hits[i]) >= threshold
    {
      hide Reranked, Key;
      RerankedIsOrdered(tokens, query, found, 0.0);
      var hits := Reranked(tokens, query, found);
      if i :| 0 <= i < |hits| && i < topK && Key(hits[i]) >= threshold {
        assert Key(hits[0]) >= Key(hits[i]);
      }
    }

    /** Attempt i has a hit to offer. */
    predicate Offers(attempts: seq<Attempt>, i: nat) { i < |attempts| && topK > 0 && attempts[i].hits != [] }

    /** There is a best score once an attempt had a hit to offer; it is then the largest of 0 and the first hits'
        scores. */
    lemma {:induction false} BestScoreIs(attempts: seq<Attempt>)
      ensures BestScore(attempts).None? <==> forall i: nat :: !Offers(attempts, i)
      ensures BestScore(attempts).Some? ==>
                && BestScore(attempts).value >= 0.0
                && (forall i: nat :: Offers(attempts, i) ==> Key(attempts[i].hits[0]) <= BestScore(attempts).value)
                && (BestScore(attempts).value == 0.0
                    || exists i: nat :: Offers(attempts, i) && Key(attempts[i].hits[0]) == BestScore(attempts).value)
    {
      if attempts != [] {
        hide Key;
        var n := |attempts| - 1;
        var init := attempts[..n];
        BestScoreIs(init);
        assert forall i: nat :: Offers(init, i) ==> Offers(attempts, i) && attempts[i] == init[i];
        assert forall i: nat :: Offers(attempts, i) ==> i == n || Offers(init, i);
        assert TopScore(attempts[n].hits).Some? <==> Offers(attempts, n);
      }
    }

    lemma NoScoreYet()
      ensures BestScore([]) == None
    {
    }

    lemma BestScoreGrows(attempts: seq<Attempt>, a: Attempt)
      ensures BestScore(attempts + [a])
              == if TopScore(a.hits).None? then BestScore(attempts)
                 else Some(MaxReal(if BestScore(attempts).Some? then BestScore(attempts).value else 0.0, TopScore(a.hits).value))
    {
      assert (attempts + [a])[..|attempts|] == attempts;
    }

    lemma RowIsRecorded(query: string, n: nat, search: Search, a: Attempt)
      requires a.number == n && a.query == QueryAt(query, n) && search(n, a.query).Success?
      requires a.hits == Reranked(tokens, a.query, search(n, a.query).value)
      requires a.selected == if Confident(a.hits) then ChunkIds(Take(Take(a.hits, topK), 3)) else {}
      ensures Recorded(a, query, n, search)
    {
    }

    method Query(query: string, search: Search)
      returns (r: Result<KnowledgeResult, string>, attempts: seq<Attempt>)
      requires maxRetries <= 2
      // The attempts are 0, 1, ..., each on its own rewrite, and only the last can be confident.
      ensures |attempts| <= if maxRetries < 0 then 0 else maxRetries + 1
      ensures forall i :: 0 <= i < |attempts| ==> Recorded(attempts[i], query, i, search)
      ensures forall i :: 0 <= i < |attempts| - 1 ==> !Confident(attempts[i].hits)
      // An error of a search ends the query, after the attempts before it.
      ensures r.Failure? ==>
                && |attempts| <= maxRetries && search(|attempts|, QueryAt(query, |attempts|)) == Failure(r.error)
                && (attempts != [] ==> !Confident(attempts[|attempts| - 1].hits) && Expandable(query))
      // Otherwise the last attempt decides.
      ensures r.Success? ==>
                var hits := if attempts == [] then [] else attempts[|attempts| - 1].hits;
                && RestsOn(r.value, hits, Shown(hits))
                && (attempts != [] ==> r.value.retryCount == |attempts| - 1
                                       && r.value.rewrittenQuery == attempts[|attempts| - 1].query)
                && (attempts == [] ==> r.value.retryCount == 0 && r.value.rewrittenQuery == query)
                && r.value.topScore == (if Shown(hits) == 0 then BestScore(attempts) else Some(Key(hits[0])))
      // A refusal has used every attempt that could find anything new.
      ensures r.Success? && r.value.answer.NoEvidence? ==>
                |attempts| == if maxRetries < 0 then 0 else if Expandable(query) then maxRetries + 1 else 1
    {
      hide Reranked, Rewrite, Expandable, Cite, ChunkIds, DocumentIds, Recorded, BestScore, RestsOn, Ground;
      NoScoreYet();
      attempts := [];
      var current := query;
      var retryCount: nat := 0;
      var final: seq<Hit> := [];
      var best: Option<real> := None;
      var attempt: nat := 0;
      while attempt <= maxRetries
        invariant attempt <= 3 && |attempts| == attempt && retryCount == attempt && current == QueryAt(query, attempt)
        invariant attempt > 0 ==> attempt <= maxRetries && Expandable(query)
        invariant forall i :: 0 <= i < |attempts| ==> Recorded(attempts[i], query, i, search)
        invariant forall i :: 0 <= i < |attempts| ==> !Confident(attempts[i].hits)
        invariant final == [] && best == BestScore(attempts)
        decreases 3 - attempt
      {
        var found := search(attempt, current);
        if found.Failure? { return Failure(found.error), attempts; }
        var reranked := Rerank(tokens, current, found.value);
        var topHits := Take(reranked, topK);
        var topScore := if topHits != [] then Some(Key(topHits[0])) else None;
        if topScore.Some? {
          best := Some(MaxReal(if best.Some? then best.value else 0.0, topScore.value));
        }
        var confident := topScore.Some? && topScore.value >= threshold;
        var selected := if confident then ChunkIds(Take(topHits, 3)) else {};
        var row := Attempt(attempt, current, reranked, selected);
        BestScoreGrows(attempts, row);
        RowIsRecorded(query, attempt, search, row);
        attempts := attempts + [row];
        if confident {
          final := topHits;
          HitsAreScored(tokens, current, found.value);
          break;
        }
        if attempt >= maxRetries { break; }
        var rewritten := Rewrite(query, attempt + 1);
        RewriteChangesIff(query);
        if rewritten == current { break; }
        current := rewritten;
        retryCount := attempt + 1;
        attempt := attempt + 1;
      }
      var answer := if final == [] then NoEvidence else Ground(final[0]);
      var score := if final == [] then best else final[0].rerankScore;
      var value := KnowledgeResult(answer, Cite(Take(final, 3)), current, retryCount, |DocumentIds(final)|, score);
      LeadersCarryTheAnswer(value, if attempts == [] then [] else attempts[|attempts| - 1].hits, final);
      r := Success(value);
    }
  }

  lemma LeadersCarryTheAnswer(r: KnowledgeResult, hits: seq<Hit>, final: seq<Hit>)
    requires final <= hits && r.citations == Cite(Take(final, 3)) && r.retrievedDocuments == |DocumentIds(final)|
    requires r.answer == if final == [] then NoEvidence else Ground(final[0])
    ensures RestsOn(r, hits, |final|)
  {
    hide Snippet, IsSnippet;
    forall i | 0 <= i < |r.citations| ensures CitesHit(r.citations[i], hits[i]) {
      SnippetIs(hits[i].content, 280);
    }
    if final != [] { SnippetIs(hits[0].content, 460); }
    SameDocuments(hits, final);
  }

  lemma SameDocuments(hits: seq<Hit>, final: seq<Hit>)
    requires final <= hits
    ensures DocumentIds(final) == set i | 0 <= i < |final| :: hits[i].documentId
  {
    var ids := set i | 0 <= i < |final| :: hits[i].documentId;
    forall i | 0 <= i < |final| ensures hits[i].documentId in DocumentIds(final) { assert hits[i] == final[i]; }
    forall d | d in DocumentIds(final) ensures d in ids {
      var i :| 0 <= i < |final| && final[i].documentId == d;
      assert hits[i] == final[i];
    }
  }

  /** What is cut is the rest of a prefix: of single spaces at most one stands at its end. */
  lemma SnippetIs(text: string, limit: nat)
    requires limit >= 2
    ensures IsSnippet(text, limit, Snippet(text, limit))
  {
    NormalizeKeeps(text);
    hide Normalize, Spelled, Words, NonSpace, StripRight;
    var t := Normalize(text);
    if |t| > limit { StripOneSpace(t, t[..limit - 1]); }
  }

  lemma StripOneSpace(t: string, head: string)
    requires Tidy(t) && head <= t && head != ""
    ensures StripRight(head) == if t[|head| - 1] == ' ' then t[..|head| - 1] else head
  {
    hide Tidy;
    var n := |head| - 1;
    assert head[n] == t[n];
    TidyGaps(t, n);
    if t[n] == ' ' {
      assert head[..n] == t[..n] && head[..n][n - 1] == t[n - 1];
      assert StripRight(head[..n]) == head[..n];
    }
  }

  lemma TidyGaps(t: string, n: nat)
    requires Tidy(t) && n < |t|
    ensures IsSpace(t[n]) <==> t[n] == ' '
    ensures t[n] == ' ' ==> n > 0 && !IsSpace(t[n - 1])
  {
  }

  lemma HitsAreScored(tokens: Tokenizer, query: string, hits: seq<Hit>)
    ensures forall i :: 0 <= i < |Reranked(tokens, query, hits)| ==> Reranked(tokens, query, hits)[i].rerankScore.Some?
  {
    RerankedIsOrdered(tokens, query, hits, 0.0);
  }

  /** The hits of a record whose chunk id is selected. */
  function SelectedHits(hits: seq<Hit>, selected: set<nat>): seq<Hit> {
    if hits == [] then []
    else (if hits[0].chunkId in selected then [hits[0]] else []) + SelectedHits(hits[1..], selected)
  }

  lemma {:induction false} NoneSelected(hits: seq<Hit>, selected: set<nat>)
    ensures SelectedHits(hits, selected) == [] <==> forall i :: 0 <= i < |hits| ==> hits[i].chunkId !in selected
  {
    if hits != [] {
      NoneSelected(hits[1..], selected);
      assert forall i :: 0 < i < |hits| ==> hits[i] == hits[1..][i - 1];
      assert forall i :: 0 <= i < |hits| - 1 ==> hits[1..][i] == hits[i + 1];
    }
  }

  lemma {:induction false} LeadersAreSelected(hits: seq<Hit>, selected: set<nat>, n: nat)
    requires n <= |hits| && forall i :: 0 <= i < n ==> hits[i].chunkId in selected
    ensures SelectedHits(hits, selected) == hits[..n] + SelectedHits(hits[n..], selected)
  {
    if n == 0 {
      assert hits[0..] == hits;
    } else {
      LeadersAreSelected(hits[1..], selected, n - 1);
      var rest := SelectedHits(hits[n..], selected);
      assert hits[1..][n - 1..] == hits[n..];
      assert hits[..n] == [hits[0]] + hits[1..][..n - 1];
      assert hits[..n] + rest == [hits[0]] + (hits[1..][..n - 1] + rest);
    }
  }

  /** The rows recorded as selected are exactly the cited hits if and only if no lower-ranked row repeats the
      chunk of a cited one. */
  lemma SelectedAreCitedIff(hits: seq<Hit>, n: nat)
    requires n <= |hits|
    ensures SelectedHits(hits, ChunkIds(hits[..n])) == hits[..n]
            <==> forall j :: n <= j < |hits| ==> hits[j].chunkId !in ChunkIds(hits[..n])
  {
    var selected := ChunkIds(hits[..n]);
    forall i | 0 <= i < n ensures hits[i].chunkId in selected { assert hits[..n][i] == hits[i]; }
    hide ChunkIds, SelectedHits;
    LeadersAreSelected(hits, selected, n);
    NoneSelected(hits[n..], selected);
    SuffixAvoids(hits, selected, n);
    NothingMore(hits[..n], SelectedHits(hits[n..], selected));
  }

  lemma SuffixAvoids(hits: seq<Hit>, selected: set<nat>, n: nat)
    requires n <= |hits|
    ensures (forall i :: 0 <= i < |hits[n..]| ==> hits[n..][i].chunkId !in selected)
            <==> (forall j :: n <= j < |hits| ==> hits[j].chunkId !in selected)
  {
    assert forall j :: n <= j < |hits| ==> hits[j] == hits[n..][j - n];
  }

  lemma NothingMore(a: seq<Hit>, b: seq<Hit>)
    ensures a + b == a <==> b == []
  {
    assert |a + b| == |a| + |b|;
  }

  /** A search that returns each chunk once makes the citations of its answer exactly the selected rows. */
  lemma CitationsAreTheSelectedRows(tokens: Tokenizer, query: string, found: seq<Hit>, topK: nat)
    requires DistinctChunks(found)
    ensures var hits := Reranked(tokens, query, found);
            var cited := Take(Take(hits, topK), 3);
            SelectedHits(hits, ChunkIds(cited)) == cited
  {
    hide Reranked, Scored;
    RerankedIsOrdered(tokens, query, found, 0.0);
    var hits := Reranked(tokens, query, found);
    var cited := Take(Take(hits, topK), 3);
    assert cited == hits[..|cited|];
    SelectedAreCitedIff(hits, |cited|);
  }

  /** A snippet fits its limit; it is the whole normalized text when that fits, else a prefix of it. */
  lemma SnippetFits(text: string, limit: nat)
    requires limit >= 1
    ensures |Snippet(text, limit)| <= limit
    ensures Snippet(text, limit) == Normalize(text) <==> |Normalize(text)| <= limit
    ensures |Normalize(text)| > limit ==>
              Snippet(text, limit) != "" && Snippet(text, limit)[..|Snippet(text, limit)| - 1] <= Normalize(text)
  {
    hide Normalize, StripRight;
    if |Normalize(text)| > limit { StripRightIsPrefix(Normalize(text)[..limit - 1]); }
  }
}
