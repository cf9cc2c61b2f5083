/** The repository index: an inverted index that answers as a scan over all documents. */
module Retrieval {
  import opened Wrappers
  import opened Sorting
  import Text

  datatype Document = Document(id: string, repo: string, path: string, symbol: Option<string>, content: string)

  datatype Query = Query(text: string, repo: Option<string>, pathPrefixes: seq<string>, limit: nat, minScore: real)

  datatype Hit = Hit(document: Document, score: int, matched: seq<string>)

  type Tokenizer = string -> seq<string>

  // ---- Scoring ----

  function Occurrences(terms: seq<string>, t: string): int {
    if terms == [] then 0
    else Occurrences(terms[..|terms| - 1], t) + if terms[|terms| - 1] == t then 1 else 0
  }

  function SymbolTerms(tok: Tokenizer, d: Document): seq<string> {
    if d.symbol.Some? then tok(d.symbol.value) else []
  }

  function TermScore(tok: Tokenizer, d: Document, t: string): int {
    var frequency := Occurrences(tok(d.content), t);
    (if t in tok(d.path) then 3 else 0) +
    (if t in SymbolTerms(tok, d) then 4 else 0) +
    (if frequency > 0 then 1 + frequency else 0)
  }

  function Score(tok: Tokenizer, d: Document, terms: seq<string>): int {
    if terms == [] then 0 else Score(tok, d, terms[..|terms| - 1]) + TermScore(tok, d, terms[|terms| - 1])
  }

  /** The query terms that occur in the document, in query order. */
  function Matched(tok: Tokenizer, d: Document, terms: seq<string>): seq<string> {
    if terms == [] then []
    else if terms[|terms| - 1] in DocumentTerms(tok, d) then
      Matched(tok, d, terms[..|terms| - 1]) + [terms[|terms| - 1]]
    else Matched(tok, d, terms[..|terms| - 1])
  }

  function DocumentTerms(tok: Tokenizer, d: Document): set<string> {
    (set t | t in tok(d.content)) + (set t | t in tok(d.path)) + (set t | t in SymbolTerms(tok, d))
  }

  lemma {:induction false} OccursIff(terms: seq<string>, t: string)
    ensures Occurrences(terms, t) >= 0 && (Occurrences(terms, t) > 0 <==> t in terms)
    ensures Occurrences(terms, t) == multiset(terms)[t]
  {
    if terms != [] {
      var n := |terms| - 1;
      OccursIff(terms[..n], t);
      assert terms == terms[..n] + [terms[n]];
    }
  }

  /** A term scores exactly when it is one of the document's indexed terms, those of its path, symbol and content. */
  lemma ScoresIff(tok: Tokenizer, d: Document, t: string)
    ensures TermScore(tok, d, t) >= 0 && (TermScore(tok, d, t) > 0 <==> t in DocumentTerms(tok, d))
    ensures t in DocumentTerms(tok, d) <==>
      t in tok(d.path) || (d.symbol.Some? && t in tok(d.symbol.value)) || t in tok(d.content)
  {
    OccursIff(tok(d.content), t);
  }

  /** What one term scores: three in the path, four in the symbol, one and its number of occurrences in the content. */
  lemma TermScores(tok: Tokenizer, d: Document, t: string)
    ensures TermScore(tok, d, t) ==
      (if t in tok(d.path) then 3 else 0)
      + (match d.symbol case Some(symbol) => if t in tok(symbol) then 4 else 0 case None => 0)
      + (if t in tok(d.content) then 1 else 0) + multiset(tok(d.content))[t]
    ensures Score(tok, d, [t]) == TermScore(tok, d, t)
  {
    OccursIff(tok(d.content), t);
    assert [t][..0] == [];
  }

  /** Repeated query terms are counted each time, and the matched ones keep the query's order. */
  lemma {:induction false} ScoreConcat(tok: Tokenizer, d: Document, a: seq<string>, b: seq<string>)
    ensures Score(tok, d, a + b) == Score(tok, d, a) + Score(tok, d, b)
    ensures Matched(tok, d, a + b) == Matched(tok, d, a) + Matched(tok, d, b)
  {
    if b == [] {
      assert a + b == a;
    } else {
      var n := |b| - 1;
      assert (a + b)[..|a| + n] == a + b[..n];
      ScoreConcat(tok, d, a, b[..n]);
    }
  }

  /** How many of the query's terms, repeats included, are in the list. */
  function TermsIn(terms: seq<string>, list: seq<string>): int {
    if terms == [] then 0 else TermsIn(terms[..|terms| - 1], list) + if terms[|terms| - 1] in list then 1 else 0
  }

  function TotalOccurrences(list: seq<string>, terms: seq<string>): int {
    if terms == [] then 0 else TotalOccurrences(list, terms[..|terms| - 1]) + Occurrences(list, terms[|terms| - 1])
  }

  /** The score: three for each term in the path, four in the symbol, one in the content, one for each occurrence. */
  lemma {:induction false} ScoreAddsUp(tok: Tokenizer, d: Document, terms: seq<string>)
    ensures Score(tok, d, terms) == 3 * TermsIn(terms, tok(d.path)) + 4 * TermsIn(terms, SymbolTerms(tok, d))
      + TermsIn(terms, tok(d.content)) + TotalOccurrences(tok(d.content), terms)
  {
    if terms != [] {
      var n := |terms| - 1;
      ScoreAddsUp(tok, d, terms[..n]);
      OccursIff(tok(d.content), terms[n]);
    }
  }

  lemma {:induction false} MatchesIff(tok: Tokenizer, d: Document, terms: seq<string>)
    ensures forall t :: t in Matched(tok, d, terms) <==> t in terms && t in DocumentTerms(tok, d)
  {
    if terms != [] {
      var n := |terms| - 1;
      MatchesIff(tok, d, terms[..n]);
      assert terms == terms[..n] + [terms[n]];
    }
  }

  /** What a document contributes to the answer. */
  function HitOf(tok: Tokenizer, d: Document, terms: seq<string>, q: Query): Option<Hit> {
    if !MatchesRepo(d, q) || !MatchesPath(d, q) || Matched(tok, d, terms) == [] then None
    else if (Score(tok, d, terms) as real) < q.minScore then None
    else Some(Hit(d, Score(tok, d, terms), Matched(tok, d, terms)))
  }

  predicate MatchesRepo(d: Document, q: Query) {
    q.repo.Some? ==> d.repo == q.repo.value
  }

  predicate MatchesPath(d: Document, q: Query) {
    q.pathPrefixes == [] || exists p :: p in q.pathPrefixes && p <= d.path
  }

  // ---- The full scan ----

  /** Higher scores first, then by document id. */
  predicate RankLeq(a: Hit, b: Hit) {
    a.score > b.score || (a.score == b.score && Text.LexLeq(a.document.id, b.document.id))
  }

  function Scan(tok: Tokenizer, docs: seq<Document>, terms: seq<string>, q: Query): seq<Hit> {
    if docs == [] then []
    else
      var hit := HitOf(tok, docs[|docs| - 1], terms, q);
      Scan(tok, docs[..|docs| - 1], terms, q) + if hit.Some? then [hit.value] else []
  }

  function Take(hits: seq<Hit>, limit: nat): seq<Hit> {
    if limit < |hits| then hits[..limit] else hits
  }

  /** The answer: all documents filtered and scored, ranked, cut at the limit. */
  function Answer(tok: Tokenizer, docs: seq<Document>, q: Query): seq<Hit> {
    Take(StableSort(Scan(tok, docs, tok(q.text), q), RankLeq), q.limit)
  }

  lemma Ranked()
    ensures TotalPreorder(RankLeq)
  {
    forall a, b ensures RankLeq(a, b) || RankLeq(b, a) {
      Text.LexTotal(a.document.id, b.document.id);
    }
    forall a, b, c | RankLeq(a, b) && RankLeq(b, c) ensures RankLeq(a, c) {
      if a.score == c.score {
        Text.LexTransitive(a.document.id, b.document.id, c.document.id);
      }
    }
  }

  ghost predicate UniqueIds(docs: seq<Document>) {
    forall i, j :: 0 <= i < j < |docs| ==> docs[i].id != docs[j].id
  }

  function Below(n: nat): (r: set<int>)
    ensures forall i :: i in r <==> 0 <= i < n
  {
    if n == 0 then {} else Below(n - 1) + {n - 1}
  }

  /** The hit is that of one of these documents. */
  ghost predicate Found(tok: Tokenizer, docs: seq<Document>, among: set<int>, terms: seq<string>, q: Query, h: Hit) {
    exists i :: 0 <= i < |docs| && i in among && HitOf(tok, docs[i], terms, q) == Some(h)
  }

  /** The hits are those of these documents, each once. */
  ghost predicate Collected(tok: Tokenizer, docs: seq<Document>, among: set<int>, terms: seq<string>, q: Query,
          hits: seq<Hit>) {
    forall h :: multiset(hits)[h] == if Found(tok, docs, among, terms, q, h) then 1 else 0
  }

  lemma {:induction false} ScanCollects(tok: Tokenizer, docs: seq<Document>, n: nat, terms: seq<string>, q: Query)
    requires UniqueIds(docs) && n <= |docs|
    ensures Collected(tok, docs, Below(n), terms, q, Scan(tok, docs[..n], terms, q))
  {
    if n > 0 {
      var before, now := Below(n - 1), Below(n);
      assert docs[..n][..n - 1] == docs[..n - 1];
      ScanCollects(tok, docs, n - 1, terms, q);
      assert now == before + {n - 1};
      CollectOne(tok, docs, before, n - 1, terms, q, Scan(tok, docs[..n - 1], terms, q));
    } else {
      assert docs[..0] == [];
    }
  }

  lemma CollectOne(tok: Tokenizer, docs: seq<Document>, among: set<int>, i: int, terms: seq<string>, q: Query,
          hits: seq<Hit>)
    requires UniqueIds(docs) && 0 <= i < |docs| && i !in among && Collected(tok, docs, among, terms, q, hits)
    ensures var hit := HitOf(tok, docs[i], terms, q);
      Collected(tok, docs, among + {i}, terms, q, hits + if hit.Some? then [hit.value] else [])
  {
    var hit := HitOf(tok, docs[i], terms, q);
    forall h
      ensures Found(tok, docs, among + {i}, terms, q, h) <==> Found(tok, docs, among, terms, q, h) || hit == Some(h)
    {
      if Found(tok, docs, among, terms, q, h) {
        var j :| 0 <= j < |docs| && j in among && HitOf(tok, docs[j], terms, q) == Some(h);
        assert j in among + {i};
      }
      if hit == Some(h) {
        assert i in among + {i};
      }
    }
  }

  /** Hits of documents with different ids are ranked in one way only. */
  lemma RankingUnique(tok: Tokenizer, docs: seq<Document>, among: set<int>, terms: seq<string>, q: Query, a: seq<Hit>,
          b: seq<Hit>)
    requires UniqueIds(docs)
    requires Collected(tok, docs, among, terms, q, a) && multiset(a) == multiset(b)
    ensures StableSort(a, RankLeq) == StableSort(b, RankLeq)
  {
    Ranked();
    StableSortProperties(a, RankLeq);
    StableSortProperties(b, RankLeq);
    var s := StableSort(a, RankLeq);
    forall x, y | x in s && y in s && RankLeq(x, y) && RankLeq(y, x) ensures x == y {
      assert x in multiset(s) && y in multiset(s);
      Text.LexAntisymmetric(x.document.id, y.document.id);
      SameHit(tok, docs, among, terms, q, x, y);
    }
    SortedUnique(s, StableSort(b, RankLeq), RankLeq);
  }

  lemma SameHit(tok: Tokenizer, docs: seq<Document>, among: set<int>, terms: seq<string>, q: Query, x: Hit, y: Hit)
    requires UniqueIds(docs) && Found(tok, docs, among, terms, q, x) && Found(tok, docs, among, terms, q, y)
    requires x.document.id == y.document.id
    ensures x == y
  {
    var i :| 0 <= i < |docs| && i in among && HitOf(tok, docs[i], terms, q) == Some(x);
    var j :| 0 <= j < |docs| && j in among && HitOf(tok, docs[j], terms, q) == Some(y);
    assert i == j;
  }

  /** The answer depends on the documents only, not on the order in which they were indexed. */
  lemma AnswerIgnoresOrder(tok: Tokenizer, docs: seq<Document>, others: seq<Document>, q: Query)
    requires UniqueIds(docs) && UniqueIds(others)
    requires forall d :: d in docs <==> d in others
    ensures Answer(tok, docs, q) == Answer(tok, others, q)
  {
    var terms := tok(q.text);
    var a, b := Scan(tok, docs, terms, q), Scan(tok, others, terms, q);
    ScanCollects(tok, docs, |docs|, terms, q);
    ScanCollects(tok, others, |others|, terms, q);
    assert docs[..|docs|] == docs && others[..|others|] == others;
    forall h ensures multiset(a)[h] == multiset(b)[h] {
      FoundAmong(tok, docs, others, terms, q, h);
      FoundAmong(tok, others, docs, terms, q, h);
    }
    assert multiset(a) == multiset(b);
    RankingUnique(tok, docs, Below(|docs|), terms, q, a, b);
  }

  lemma FoundAmong(tok: Tokenizer, docs: seq<Document>, others: seq<Document>, terms: seq<string>, q: Query, h: Hit)
    requires forall d :: d in docs ==> d in others
    ensures Found(tok, docs, Below(|docs|), terms, q, h) ==> Found(tok, others, Below(|others|), terms, q, h)
  {
    if Found(tok, docs, Below(|docs|), terms, q, h) {
      var i :| 0 <= i < |docs| && i in Below(|docs|) && HitOf(tok, docs[i], terms, q) == Some(h);
      assert docs[i] in others;
      var j :| 0 <= j < |others| && others[j] == docs[i];
      assert j in Below(|others|);
    }
  }

  // ---- What an answer holds ----

  /** The document passes the query's filters and contains one of its terms. */
  ghost predicate Passes(tok: Tokenizer, d: Document, q: Query) {
    && (q.repo.Some? ==> d.repo == q.repo.value)
    && (q.pathPrefixes == [] || exists p :: p in q.pathPrefixes && p <= d.path)
    && (Score(tok, d, tok(q.text)) as real) >= q.minScore
    && exists t :: t in tok(q.text) && HasTerm(tok, d, t)
  }

  ghost predicate HasTerm(tok: Tokenizer, d: Document, t: string) {
    t in tok(d.path) || (d.symbol.Some? && t in tok(d.symbol.value)) || t in tok(d.content)
  }

  /** A higher score, or the same score and an id that is not later. */
  ghost predicate Outranks(score: int, id: string, other: int, otherId: string) {
    score > other || (score == other && Text.LexLeq(id, otherId))
  }

  lemma PassesIff(tok: Tokenizer, d: Document, q: Query)
    ensures Passes(tok, d, q) <==> HitOf(tok, d, tok(q.text), q).Some?
    ensures Passes(tok, d, q) ==> HitOf(tok, d, tok(q.text), q).value.document == d
    ensures Passes(tok, d, q) ==> HitOf(tok, d, tok(q.text), q).value.score == Score(tok, d, tok(q.text))
  {
    var terms := tok(q.text);
    var matched := Matched(tok, d, terms);
    MatchesIff(tok, d, terms);
    if matched != [] {
      assert matched[0] in matched;
      ScoresIff(tok, d, matched[0]);
    }
    forall t ensures t in matched <==> t in terms && t in DocumentTerms(tok, d) {}
  }

  lemma {:induction false} ScanHolds(tok: Tokenizer, docs: seq<Document>, terms: seq<string>, q: Query, h: Hit)
    ensures h in Scan(tok, docs, terms, q) <==> h.document in docs && HitOf(tok, h.document, terms, q) == Some(h)
  {
    if docs != [] {
      var n := |docs| - 1;
      ScanHolds(tok, docs[..n], terms, q, h);
      assert docs == docs[..n] + [docs[n]];
    }
  }

  /** The hits of the answer are stored documents that pass, with their scores. */
  lemma AnswerHolds(tok: Tokenizer, docs: seq<Document>, q: Query, h: Hit)
    requires h in Answer(tok, docs, q)
    ensures h.document in docs && Passes(tok, h.document, q) && h.score == Score(tok, h.document, tok(q.text))
  {
    var hits := Scan(tok, docs, tok(q.text), q);
    Ranked();
    StableSortProperties(hits, RankLeq);
    assert h in StableSort(hits, RankLeq);
    assert h in multiset(hits);
    ScanHolds(tok, docs, tok(q.text), q, h);
    PassesIff(tok, h.document, q);
  }

  /** They are ranked by score, ties by id, each document once, and there are no more than asked for. */
  lemma AnswerRanked(tok: Tokenizer, docs: seq<Document>, q: Query, i: nat, j: nat)
    requires UniqueIds(docs) && i < j < |Answer(tok, docs, q)|
    ensures var a, b := Answer(tok, docs, q)[i], Answer(tok, docs, q)[j];
      Outranks(a.score, a.document.id, b.score, b.document.id) && a.document.id != b.document.id
  {
    var hits := Scan(tok, docs, tok(q.text), q);
    var s := StableSort(hits, RankLeq);
    Ranked();
    StableSortProperties(hits, RankLeq);
    assert RankLeq(s[i], s[j]);
    ScanCollects(tok, docs, |docs|, tok(q.text), q);
    assert docs[..|docs|] == docs;
    assert s[i] in multiset(s) && s[j] in multiset(s);
    TwiceCounts(s, i, j);
    if s[i].document.id == s[j].document.id {
      SameHit(tok, docs, Below(|docs|), tok(q.text), q, s[i], s[j]);
    }
  }

  lemma TwiceCounts(s: seq<Hit>, i: nat, j: nat)
    requires i < j < |s|
    ensures s[i] == s[j] ==> multiset(s)[s[i]] >= 2
  {
    assert s == s[..j] + s[j..];
    assert s[i] in s[..j] && s[j] in s[j..];
  }

  /** A stored document that passes and is missing was cut off: the answer is full, and all of it ranks higher. */
  lemma AnswerMisses(tok: Tokenizer, docs: seq<Document>, q: Query, d: Document)
    requires d in docs && Passes(tok, d, q) && forall h :: h in Answer(tok, docs, q) ==> h.document != d
    ensures |Answer(tok, docs, q)| == q.limit
    ensures forall h :: h in Answer(tok, docs, q) ==>
      Outranks(h.score, h.document.id, Score(tok, d, tok(q.text)), d.id)
  {
    var hits := Scan(tok, docs, tok(q.text), q);
    var s := StableSort(hits, RankLeq);
    PassesIff(tok, d, q);
    var missing := HitOf(tok, d, tok(q.text), q).value;
    ScanHolds(tok, docs, tok(q.text), q, missing);
    Ranked();
    StableSortProperties(hits, RankLeq);
    assert missing in multiset(hits) && missing in multiset(s);
    CutOff(s, q.limit, missing);
  }

  /** What is missing from the first `limit` of a ranked list is outranked by all of them. */
  lemma CutOff(s: seq<Hit>, limit: nat, missing: Hit)
    requires SortedBy(s, RankLeq) && missing in s && missing !in Take(s, limit)
    ensures |Take(s, limit)| == limit && forall h :: h in Take(s, limit) ==> RankLeq(h, missing)
  {
    var k :| 0 <= k < |s| && s[k] == missing;
    var r := Take(s, limit);
    assert forall m :: 0 <= m < |r| ==> r[m] in r && r[m] == s[m];
    forall h | h in r ensures RankLeq(h, missing) {
      var i :| 0 <= i < |r| && r[i] == h;
      assert RankLeq(s[i], s[k]);
    }
  }

  // ---- The inverted index ----

  /** Each term lists exactly the positions of the documents that contain it. */
  ghost predicate Inverts(tok: Tokenizer, inverted: map<string, set<int>>, docs: seq<Document>) {
    forall t, i {:trigger i in Positions(inverted, t)} ::
      i in Positions(inverted, t) <==> 0 <= i < |docs| && t in DocumentTerms(tok, docs[i])
  }

  function Positions(inverted: map<string, set<int>>, t: string): set<int> {
    if t in inverted then inverted[t] else {}
  }

  /** The position is listed under one of the terms. */
  ghost predicate InSome(inverted: map<string, set<int>>, terms: seq<string>, i: int) {
    exists t :: t in terms && i in Positions(inverted, t)
  }

  /** The position is one more entry of each of these terms. */
  method AddPosition(inverted: map<string, set<int>>, terms: set<string>, i: int) returns (r: map<string, set<int>>)
    ensures forall t :: Positions(r, t) == Positions(inverted, t) + if t in terms then {i} else {}
  {
    r := inverted;
    var todo := terms;
    while todo != {}
      invariant todo <= terms
      invariant forall t :: Positions(r, t) == Positions(inverted, t) + if t in terms && t !in todo then {i} else {}
    {
      var t :| t in todo;
      todo := todo - {t};
      r := r[t := Positions(r, t) + {i}];
    }
  }

  /** A document without a hit-making term cannot be missed by the candidates. */
  lemma OnlyCandidatesHit(tok: Tokenizer, d: Document, terms: seq<string>, q: Query)
    requires forall t :: t in terms ==> t !in DocumentTerms(tok, d)
    ensures HitOf(tok, d, terms, q) == None
  {
    MatchesNone(tok, d, terms);
  }

  lemma {:induction false} MatchesNone(tok: Tokenizer, d: Document, terms: seq<string>)
    requires forall t :: t in terms ==> t !in DocumentTerms(tok, d)
    ensures Matched(tok, d, terms) == []
  {
    if terms != [] {
      MatchesNone(tok, d, terms[..|terms| - 1]);
    }
  }

  /** Indexing one more document at the end. */
  lemma InvertsSnoc(tok: Tokenizer, inverted: map<string, set<int>>, docs: seq<Document>, d: Document,
          now: map<string, set<int>>)
    requires Inverts(tok, inverted, docs)
    requires forall t ::
      Positions(now, t) == Positions(inverted, t) + if t in DocumentTerms(tok, d) then {|docs|} else {}
    ensures Inverts(tok, now, docs + [d])
  {
    forall t, i ensures i in Positions(now, t) <==> 0 <= i < |docs| + 1 && t in DocumentTerms(tok, (docs + [d])[i]) {
      assert i in Positions(inverted, t) <==> 0 <= i < |docs| && t in DocumentTerms(tok, docs[i]);
    }
  }

  /** The hits of all candidates are the hits of the scan. */
  lemma NoHitMissed(tok: Tokenizer, docs: seq<Document>, candidates: set<int>, terms: seq<string>, q: Query,
          hits: seq<Hit>)
    requires UniqueIds(docs) && Collected(tok, docs, candidates, terms, q, hits)
    requires forall i, t :: 0 <= i < |docs| && t in terms && t in DocumentTerms(tok, docs[i]) ==> i in candidates
    ensures StableSort(hits, RankLeq) == StableSort(Scan(tok, docs, terms, q), RankLeq)
  {
    var all := Scan(tok, docs, terms, q);
    ScanCollects(tok, docs, |docs|, terms, q);
    assert docs[..|docs|] == docs;
    forall h ensures Found(tok, docs, candidates, terms, q, h) <==> Found(tok, docs, Below(|docs|), terms, q, h) {
      if Found(tok, docs, candidates, terms, q, h) {
        var i :| 0 <= i < |docs| && i in candidates && HitOf(tok, docs[i], terms, q) == Some(h);
        assert i in Below(|docs|);
      }
      if Found(tok, docs, Below(|docs|), terms, q, h) {
        var i :| 0 <= i < |docs| && i in Below(|docs|) && HitOf(tok, docs[i], terms, q) == Some(h);
        if i !in candidates {
          OnlyCandidatesHit(tok, docs[i], terms, q);
        }
        assert i in candidates;
      }
    }
    assert forall h :: multiset(hits)[h] == multiset(all)[h];
    assert multiset(hits) == multiset(all);
    RankingUnique(tok, docs, candidates, terms, q, hits, all);
  }

  lemma {:induction false} NoTermsNoHits(tok: Tokenizer, docs: seq<Document>, q: Query)
    ensures Scan(tok, docs, [], q) == []
  {
    if docs != [] {
      NoTermsNoHits(tok, docs[..|docs| - 1], q);
    }
  }

  // ---- Edits ----

  function WithoutDoc(docs: seq<Document>, id: string): seq<Document> {
    if docs == [] then []
    else if docs[0].id == id then WithoutDoc(docs[1..], id)
    else [docs[0]] + WithoutDoc(docs[1..], id)
  }

  lemma {:induction false} WithoutDocKeeps(docs: seq<Document>, id: string)
    requires UniqueIds(docs)
    ensures forall d :: d in WithoutDoc(docs, id) <==> d in docs && d.id != id
    ensures UniqueIds(WithoutDoc(docs, id))
  {
    if docs != [] {
      var rest := WithoutDoc(docs[1..], id);
      WithoutDocKeeps(docs[1..], id);
      assert docs == [docs[0]] + docs[1..];
      forall j | 0 <= j < |rest| ensures rest[j].id != docs[0].id {
        assert rest[j] in docs[1..];
      }
    }
  }

  lemma {:induction false} WithoutAbsent(docs: seq<Document>, id: string)
    requires forall d :: d in docs ==> d.id != id
    ensures WithoutDoc(docs, id) == docs
  {
    if docs != [] {
      WithoutAbsent(docs[1..], id);
    }
  }

  lemma {:induction false} WithoutAt(docs: seq<Document>, i: nat)
    requires UniqueIds(docs) && i < |docs|
    ensures WithoutDoc(docs, docs[i].id) == docs[..i] + docs[i + 1..]
  {
    if i == 0 {
      WithoutAbsent(docs[1..], docs[0].id);
    } else {
      assert docs[0].id != docs[i].id;
      WithoutAt(docs[1..], i - 1);
      assert docs[..i] + docs[i + 1..] == [docs[0]] + (docs[1..][..i - 1] + docs[1..][i..]);
    }
  }

  datatype Edit = Index(document: Document) | Remove(id: string)

  function Edited(docs: seq<Document>, e: Edit): seq<Document> {
    match e
    case Index(d) => WithoutDoc(docs, d.id) + [d]
    case Remove(id) => WithoutDoc(docs, id)
  }

  function IndexAll(docs: seq<Document>, ds: seq<Document>): seq<Document> {
    if ds == [] then docs else Edited(IndexAll(docs, ds[..|ds| - 1]), Index(ds[|ds| - 1]))
  }

  function EditedAll(edits: seq<Edit>): seq<Document> {
    if edits == [] then [] else Edited(EditedAll(edits[..|edits| - 1]), edits[|edits| - 1])
  }

  /** The documents of a history, by id: the last indexed one that was not removed since. */
  function Latest(edits: seq<Edit>): map<string, Document> {
    if edits == [] then map[]
    else
      var before := Latest(edits[..|edits| - 1]);
      match edits[|edits| - 1]
      case Index(d) => before[d.id := d]
      case Remove(id) => before - {id}
  }

  /** After any history of edits the ids are unique and the documents are the latest ones. */
  lemma {:induction false} EditsKeepLatest(edits: seq<Edit>)
    ensures UniqueIds(EditedAll(edits))
    ensures forall d :: d in EditedAll(edits) <==> d.id in Latest(edits) && Latest(edits)[d.id] == d
  {
    if edits != [] {
      var n := |edits| - 1;
      var docs := EditedAll(edits[..n]);
      EditsKeepLatest(edits[..n]);
      WithoutDocKeeps(docs, if edits[n].Index? then edits[n].document.id else edits[n].id);
    }
  }

  /** Histories that leave the same latest documents leave indexes that answer alike. */
  lemma SameLatestSameAnswers(tok: Tokenizer, edits: seq<Edit>, others: seq<Edit>, q: Query)
    requires Latest(edits) == Latest(others)
    ensures Answer(tok, EditedAll(edits), q) == Answer(tok, EditedAll(others), q)
  {
    EditsKeepLatest(edits);
    EditsKeepLatest(others);
    AnswerIgnoresOrder(tok, EditedAll(edits), EditedAll(others), q);
  }

  // ---- The index ----

  lemma HasMember(s: set<int>)
    ensures s == {} || exists i :: i in s
  {
    if !exists i :: i in s {
      assert s == {};
    }
  }

  method ScoreDocument(tok: Tokenizer, d: Document, terms: seq<string>) returns (r: Option<Hit>)
    ensures r == if Matched(tok, d, terms) == [] then None
      else Some(Hit(d, Score(tok, d, terms), Matched(tok, d, terms)))
  {
    var score, matched := 0, [];
    for i := 0 to |terms|
      invariant score == Score(tok, d, terms[..i]) && matched == Matched(tok, d, terms[..i])
    {
      assert terms[..i + 1][..i] == terms[..i];
      var termScore := TermScore(tok, d, terms[i]);
      ScoresIff(tok, d, terms[i]);
      if termScore > 0 {
        matched := matched + [terms[i]];
        score := score + termScore;
      }
    }
    assert terms[..|terms|] == terms;
    return if matched == [] then None else Some(Hit(d, score, matched));
  }

  method FilteredHit(tok: Tokenizer, d: Document, terms: seq<string>, q: Query) returns (r: Option<Hit>)
    ensures r == HitOf(tok, d, terms, q)
  {
    if !MatchesRepo(d, q) || !MatchesPath(d, q) {
      return None;
    }
    r := ScoreDocument(tok, d, terms);
    if r.Some? && (r.value.score as real) < q.minScore {
      r := None;
    }
  }

  class RepositoryIndex {
    const tok: Tokenizer
    var documents: seq<Document>
    var inverted: map<string, set<int>>

    ghost predicate Valid()
      reads this
    {
      UniqueIds(documents) && Inverts(tok, inverted, documents)
    }

    constructor (tok: Tokenizer)
      ensures Valid() && documents == [] && this.tok == tok
    {
      this.tok := tok;
      documents := [];
      inverted := map[];
    }

    method RebuildInvertedIndex()
      modifies this`inverted
      ensures Inverts(tok, inverted, documents)
    {
      inverted := map[];
      for i := 0 to |documents|
        invariant Inverts(tok, inverted, documents[..i])
      {
        ghost var before := inverted;
        inverted := AddPosition(inverted, DocumentTerms(tok, documents[i]), i);
        InvertsSnoc(tok, before, documents[..i], documents[i], inverted);
        assert documents[..i + 1] == documents[..i] + [documents[i]];
      }
      assert documents[..|documents|] == documents;
    }

    method Position(id: string) returns (r: Option<nat>)
      ensures r.None? ==> forall d :: d in documents ==> d.id != id
      ensures r.Some? ==> r.value < |documents| && documents[r.value].id == id
    {
      for i := 0 to |documents|
        invariant forall k :: 0 <= k < i ==> documents[k].id != id
      {
        if documents[i].id == id {
          return Some(i);
        }
      }
      return None;
    }

    method RemoveDocument(id: string) returns (removed: Option<Document>)
      requires Valid()
      modifies this
      ensures Valid() && documents == Edited(old(documents), Remove(id))
      ensures removed.Some? ==> removed.value in old(documents) && removed.value.id == id
      ensures removed.None? ==> forall d :: d in old(documents) ==> d.id != id
    {
      var position := Position(id);
      WithoutDocKeeps(documents, id);
      if position.None? {
        WithoutAbsent(documents, id);
        return None;
      }
      var i := position.value;
      WithoutAt(documents, i);
      removed := Some(documents[i]);
      documents := documents[..i] + documents[i + 1..];
      RebuildInvertedIndex();
    }

    method IndexDocument(d: Document)
      requires Valid()
      modifies this
      ensures Valid() && documents == Edited(old(documents), Index(d))
    {
      WithoutDocKeeps(documents, d.id);
      var _ := RemoveDocument(d.id);
      Append(d);
    }

    method Append(d: Document)
      requires Valid() && forall c :: c in documents ==> c.id != d.id
      modifies this
      ensures Valid() && documents == old(documents) + [d]
    {
      ghost var before := inverted;
      inverted := AddPosition(inverted, DocumentTerms(tok, d), |documents|);
      InvertsSnoc(tok, before, documents, d, inverted);
      documents := documents + [d];
    }

    method IndexDocuments(ds: seq<Document>)
      requires Valid()
      modifies this
      ensures Valid() && documents == IndexAll(old(documents), ds)
    {
      for i := 0 to |ds|
        invariant Valid() && documents == IndexAll(old(documents), ds[..i])
      {
        assert ds[..i + 1][..i] == ds[..i];
        IndexDocument(ds[i]);
      }
      assert ds[..|ds|] == ds;
    }

    method Candidates(terms: seq<string>) returns (r: set<int>)
      ensures forall i :: i in r <==> InSome(inverted, terms, i)
    {
      r := {};
      for k := 0 to |terms|
        invariant forall i :: i in r <==> InSome(inverted, terms[..k], i)
      {
        assert terms[..k + 1] == terms[..k] + [terms[k]];
        r := r + Positions(inverted, terms[k]);
      }
      assert terms[..|terms|] == terms;
    }

    /**
     * Scores the candidates in any order; the answer is that of the full scan:
     * the highest ranked of the stored documents that pass.
     */
    method RunQuery(q: Query) returns (r: seq<Hit>)
      requires Valid()
      ensures r == Answer(tok, documents, q)
      ensures |r| <= q.limit
      ensures forall i, j :: 0 <= i < j < |r| ==>
        && (r[i].score > r[j].score || (r[i].score == r[j].score && Text.LexLeq(r[i].document.id, r[j].document.id)))
        && r[i].document.id != r[j].document.id
      ensures forall h :: h in r ==>
        h.document in documents && Passes(tok, h.document, q) && h.score == Score(tok, h.document, tok(q.text))
      ensures forall d :: d in documents && Passes(tok, d, q) && (forall h :: h in r ==> h.document != d) ==>
        && |r| == q.limit
        && forall h :: h in r ==> Outranks(h.score, h.document.id, Score(tok, d, tok(q.text)), d.id)
    {
      r := SearchIndex(q);
      forall i, j | 0 <= i < j < |r|
        ensures Outranks(r[i].score, r[i].document.id, r[j].score, r[j].document.id)
        ensures r[i].document.id != r[j].document.id
      {
        AnswerRanked(tok, documents, q, i, j);
      }
      forall h | h in r
        ensures h.document in documents && Passes(tok, h.document, q) && h.score == Score(tok, h.document, tok(q.text))
      {
        AnswerHolds(tok, documents, q, h);
      }
      forall d | d in documents && Passes(tok, d, q) && (forall h :: h in r ==> h.document != d)
        ensures |r| == q.limit
        ensures forall h :: h in r ==> Outranks(h.score, h.document.id, Score(tok, d, tok(q.text)), d.id)
      {
        AnswerMisses(tok, documents, q, d);
      }
    }

    method SearchIndex(q: Query) returns (r: seq<Hit>)
      requires Valid()
      ensures r == Answer(tok, documents, q)
    {
      if q.limit == 0 {
        return [];
      }
      var terms := tok(q.text);
      if terms == [] {
        NoTermsNoHits(tok, documents, q);
        return [];
      }
      var candidates := Candidates(terms);
      forall i | i in candidates ensures 0 <= i < |documents| {
        assert InSome(inverted, terms, i);
      }
      forall i, t | 0 <= i < |documents| && t in terms && t in DocumentTerms(tok, documents[i])
        ensures i in candidates
      {
        assert i in Positions(inverted, t);
      }
      var hits := CollectHits(candidates, terms, q);
      NoHitMissed(tok, documents, candidates, terms, q, hits);
      r := Take(StableSort(hits, RankLeq), q.limit);
    }

    method CollectHits(candidates: set<int>, terms: seq<string>, q: Query) returns (hits: seq<Hit>)
      requires Valid() && forall i :: i in candidates ==> 0 <= i < |documents|
      ensures Collected(tok, documents, candidates, terms, q, hits)
    {
      hits := [];
      var todo := candidates;
      while todo != {}
        invariant todo <= candidates
        invariant Collected(tok, documents, candidates - todo, terms, q, hits)
      {
        HasMember(todo);
        var i :| i in todo;
        CollectOne(tok, documents, candidates - todo, i, terms, q, hits);
        assert candidates - (todo - {i}) == candidates - todo + {i};
        todo := todo - {i};
        var hit := FilteredHit(tok, documents[i], terms, q);
        hits := hits + if hit.Some? then [hit.value] else [];
      }
      assert candidates - {} == candidates;
    }
  }
}
