/**
 The retriever after its two searches have returned: the hits are united, cut to the chunks that contain the query or
 else fused by rank, filtered by scope, and ranked by score and authority.
 */
module Retriever {
  import opened Collections
  import opened Text
  import opened RankFusion

  datatype Chunk = Chunk(
    chunkId: string, docHash: string, blockIds: seq<string>, text: string, scopePath: seq<string>,
    docType: Option<string>, hasFormFields: bool, hasColumnHeaders: bool)

  // ---- Keys and scores ----

  /** A chunk without an id, empty here, is known by its document and first block; it must have one. */
  predicate IsIdentified(c: Chunk) {
    c.chunkId != "" || c.blockIds != []
  }

  function ChunkKey(c: Chunk): string
    requires IsIdentified(c)
  {
    if c.chunkId != "" then c.chunkId else c.docHash + ":" + c.blockIds[0]
  }

  const KEY: Chunk -> string := (c: Chunk) => if IsIdentified(c) then ChunkKey(c) else ""

  function Lower(s: string): string {
    if s == "" then "" else [if 'A' <= s[0] <= 'Z' then (s[0] as int + 32) as char else s[0]] + Lower(s[1..])
  }

  const SCOPE_PRIORITY: map<string, int> :=
    map["national" := 100, "industry" := 80, "enterprise" := 60, "project" := 40, "reference" := 20]

  const DOC_TYPE_PRIORITY: map<string, int> :=
    map["national_standard" := 100, "industry_standard" := 80, "enterprise_spec" := 60,
        "lot_checklist" := 60, "project_spec" := 40, "unknown" := 40]

  function Looked(table: map<string, int>, name: string): real {
    (if name in table then table[name] else 40) as real / 100.0
  }

  function Larger(a: real, b: real): real {
    if b > a then b else a
  }

  function ScopePriority(c: Chunk, boost: bool): real {
    var base :=
      if c.docType.Some? then Looked(DOC_TYPE_PRIORITY, c.docType.value)
      else if c.scopePath != [] then Looked(SCOPE_PRIORITY, Lower(c.scopePath[0]))
      else 0.0;
    if !boost then base
    else
      var formed := if c.hasFormFields then Larger(base, 0.9) else base;
      if c.hasColumnHeaders then Larger(formed, 0.7) else formed
  }

  /** The authority of a chunk lies between 0 and 1, so ranking at most doubles a score. */
  lemma ScopePriorityRange(c: Chunk, boost: bool)
    ensures 0.0 <= ScopePriority(c, boost) <= 1.0
    ensures ScopePriority(c, false) <= ScopePriority(c, true)
  {
  }

  predicate OccursAt(text: string, q: string, i: nat) {
    i + |q| <= |text| && text[i..i + |q|] == q
  }

  /** `q in text` */
  predicate Contains(text: string, q: string) {
    exists i :: 0 <= i <= |text| && OccursAt(text, q, i)
  }

  /** A blank query matches nothing. */
  predicate IsExactMatch(query: string, c: Chunk) {
    Strip(query) != "" && Contains(c.text, Strip(query))
  }

  function Matching(query: string): Chunk -> bool {
    (c: Chunk) => IsExactMatch(query, c)
  }

  predicate ScopeMatches(scope: seq<string>, active: seq<string>) {
    if |scope| < |active| then false else scope[..|active|] == active
  }

  /** With an active scope, chunks without a scope path never pass. */
  predicate IsInScope(c: Chunk, active: Option<seq<string>>) {
    active.None? || (c.scopePath != [] && ScopeMatches(c.scopePath, active.value))
  }

  type Scored = (Chunk, real)

  function InScope(active: Option<seq<string>>): Scored -> bool {
    (p: Scored) => IsInScope(p.0, active)
  }

  function Boosted(score: real, priority: real): real {
    score * (1.0 + priority)
  }

  function Final(boost: bool): Scored -> real {
    (p: Scored) => Boosted(p.1, ScopePriority(p.0, boost))
  }

  // ---- What is retrieved ----

  datatype Result = Result(
    chunks: seq<Chunk>, vectorScores: seq<real>, scopeScores: seq<real>, finalScores: seq<real>,
    stats: Option<Stats>, shortCircuit: bool)

  /** Both hit lists without repeated keys, the vector hits first. */
  function Union(vector: seq<Chunk>, fts: seq<Chunk>): seq<Chunk> {
    Firsts(vector + fts, KEY)
  }

  function Ones(chunks: seq<Chunk>): seq<Scored> {
    Paired(chunks, (_: Chunk) => 1.0)
  }

  const DAMP: Positive := 60

  /** The chunks and scores before filtering, when full-text search is on. */
  function Candidates(query: string, vector: seq<Chunk>, fts: seq<Chunk>): seq<Scored> {
    var matches := Filter(Matching(query), Union(vector, fts));
    if matches != [] then Ones(matches) else Fused([vector, fts], KEY, DAMP)
  }

  function Ranked(candidates: seq<Scored>, active: Option<seq<string>>, boost: bool): seq<Scored> {
    Sort(Filter(InScope(active), candidates), ByScore(Final(boost)))
  }

  function Unzipped(ranked: seq<Scored>, boost: bool, stats: Option<Stats>, shortCircuit: bool): Result {
    Result(
      ItemsOf(ranked),
      seq(|ranked|, i requires 0 <= i < |ranked| => ranked[i].1),
      seq(|ranked|, i requires 0 <= i < |ranked| => ScopePriority(ranked[i].0, boost)),
      seq(|ranked|, i requires 0 <= i < |ranked| => Final(boost)(ranked[i])),
      stats, shortCircuit)
  }

  // ---- The loops ----

  method Unite(hits: seq<Chunk>) returns (unioned: seq<Chunk>)
    requires forall c <- hits :: IsIdentified(c)
    ensures unioned == Firsts(hits, KEY)
  {
    unioned := [];
    var seen: set<string> := {};
    for i := 0 to |hits|
      invariant unioned == Firsts(hits[..i], KEY)
      invariant forall k :: k in seen <==> HasKey(hits[..i], KEY, k)
    {
      assert hits[..i + 1] == hits[..i] + [hits[i]] && hits[..i + 1][..i] == hits[..i];
      HasKeyNext(hits[..i], hits[i], KEY);
      var k := ChunkKey(hits[i]);
      if k !in seen {
        seen := seen + {k};
        unioned := unioned + [hits[i]];
      }
    }
    assert hits[..|hits|] == hits;
  }

  method FilterScope(candidates: seq<Scored>, active: Option<seq<string>>) returns (kept: seq<Scored>)
    ensures kept == Filter(InScope(active), candidates)
  {
    if active.None? {
      FilterAll(InScope(active), candidates);
      return candidates;
    }
    kept := [];
    for i := 0 to |candidates|
      invariant kept == Filter(InScope(active), candidates[..i])
    {
      assert candidates[..i + 1][..i] == candidates[..i];
      var c := candidates[i].0;
      if c.scopePath == [] {
        continue;
      }
      if !ScopeMatches(c.scopePath, active.value) {
        continue;
      }
      kept := kept + [candidates[i]];
    }
    assert candidates[..|candidates|] == candidates;
  }

  lemma {:induction false} FilterAll<T>(p: T -> bool, s: seq<T>)
    requires forall x <- s :: p(x)
    ensures Filter(p, s) == s
  {
    if s != [] {
      var init, last := s[..|s| - 1], s[|s| - 1];
      assert s == init + [last];
      FilterAll(p, init);
    }
  }

  /** `retrieve` once both searches have returned; `fts` is None when full-text search is not configured. */
  method Retrieve(
    query: string, vectorHits: seq<Scored>, fts: Option<seq<Chunk>>, active: Option<seq<string>>, boost: bool)
    returns (r: Result)
    requires fts.Some? ==> forall c <- ItemsOf(vectorHits) + fts.value :: IsIdentified(c)
    ensures fts.None? ==> r == Unzipped(Ranked(vectorHits, active, boost), boost, None, false)
    ensures fts.Some? ==>
      var vector := ItemsOf(vectorHits);
      var matches := Filter(Matching(query), Union(vector, fts.value));
      r == Unzipped(Ranked(Candidates(query, vector, fts.value), active, boost), boost,
                    Some(if matches != [] then Stats(|matches|, 0, 0) else StatsOf([vector, fts.value], KEY)),
                    matches != [])
  {
    var candidates := vectorHits;
    var stats: Option<Stats>, shortCircuit := None, false;
    if fts.Some? {
      var vector := ItemsOf(vectorHits);
      var unioned := Unite(vector + fts.value);
      var matches := Filter(Matching(query), unioned);
      if matches != [] {
        candidates, stats, shortCircuit := Ones(matches), Some(Stats(|matches|, 0, 0)), true;
      } else {
        var fused, counts := ReciprocalRankFusion([vector, fts.value], KEY, DAMP);
        candidates, stats := fused, Some(counts);
      }
    }
    var kept := FilterScope(candidates, active);
    r := Unzipped(Sort(kept, ByScore(Final(boost))), boost, stats, shortCircuit);
  }

  // ---- What the result guarantees ----

  /** The chunks that may be returned: those that contain the query if any do, otherwise all. */
  function Eligible(query: string, vector: seq<Chunk>, fts: seq<Chunk>): seq<Chunk> {
    var matches := Filter(Matching(query), Union(vector, fts));
    if matches != [] then matches else Union(vector, fts)
  }

  lemma ConcatPair(vector: seq<Chunk>, fts: seq<Chunk>)
    ensures Concat([vector, fts]) == vector + fts
  {
    assert [vector, fts] == [vector] + [fts];
    ConcatAppend([vector], [fts]);
    ConcatSingle(vector);
    ConcatSingle(fts);
  }

  /** Both paths, short circuit and fusion, carry the same representative of each key. */
  lemma CandidatesAreEligible(query: string, vector: seq<Chunk>, fts: seq<Chunk>)
    ensures multiset(ItemsOf(Candidates(query, vector, fts))) == multiset(Eligible(query, vector, fts))
  {
    var matches := Filter(Matching(query), Union(vector, fts));
    if matches != [] {
      assert ItemsOf(Ones(matches)) == matches;
    } else {
      ConcatPair(vector, fts);
      FusionItems([vector, fts]);
    }
  }

  lemma FusionItems(lists: seq<seq<Chunk>>)
    ensures multiset(ItemsOf(Fused(lists, KEY, DAMP))) == multiset(Firsts(Concat(lists), KEY))
  {
    FusionIsExact(lists, KEY, DAMP);
  }

  predicate DistinctKeys(chunks: seq<Chunk>) {
    forall i, j :: 0 <= i < j < |chunks| ==> KEY(chunks[i]) != KEY(chunks[j])
  }

  lemma CountTwice(s: seq<Chunk>, i: nat, j: nat)
    requires i < j < |s| && s[i] == s[j]
    ensures multiset(s)[s[i]] >= 2
  {
    assert s == s[..j] + [s[j]] + s[j + 1..];
    assert s[i] in s[..j];
    assert multiset(s[..j])[s[i]] >= 1;
  }

  lemma {:induction false} CountOnce(s: seq<Chunk>, x: Chunk)
    requires DistinctKeys(s)
    ensures multiset(s)[x] <= 1
  {
    if s != [] {
      CountOnce(s[..|s| - 1], x);
      assert s == s[..|s| - 1] + [s[|s| - 1]];
      if x == s[|s| - 1] {
        assert x !in s[..|s| - 1];
      }
    }
  }

  /** Rearranging and dropping keeps keys distinct. */
  lemma KeysStayDistinct(chunks: seq<Chunk>, others: seq<Chunk>)
    requires DistinctKeys(chunks) && multiset(others) <= multiset(chunks)
    ensures DistinctKeys(others)
  {
    forall i, j | 0 <= i < j < |others| ensures KEY(others[i]) != KEY(others[j]) {
      var x, y := others[i], others[j];
      if x == y {
        CountTwice(others, i, j);
        CountOnce(chunks, x);
      }
      assert x in multiset(chunks) && y in multiset(chunks);
    }
  }

  function Passing(active: Option<seq<string>>): Chunk -> bool {
    (c: Chunk) => IsInScope(c, active)
  }

  lemma {:induction false} FilterItems(pairs: seq<Scored>, active: Option<seq<string>>)
    ensures ItemsOf(Filter(InScope(active), pairs)) == Filter(Passing(active), ItemsOf(pairs))
  {
    if pairs != [] {
      var n := |pairs| - 1;
      FilterItems(pairs[..n], active);
      assert ItemsOf(pairs)[..n] == ItemsOf(pairs[..n]);
    }
  }

  lemma FilterKeepsCounts(p: Chunk -> bool, s: seq<Chunk>, t: seq<Chunk>)
    requires multiset(s) == multiset(t)
    ensures multiset(Filter(p, s)) == multiset(Filter(p, t)) <= multiset(t)
  {
    forall x ensures multiset(Filter(p, s))[x] == multiset(Filter(p, t))[x] <= multiset(t)[x] {
      FilterCount(p, s, x);
      FilterCount(p, t, x);
    }
  }

  lemma {:induction false} InsertItems(s: seq<Scored>, x: Scored, before: (Scored, Scored) -> bool)
    ensures multiset(ItemsOf(Insert(s, x, before))) == multiset(ItemsOf(s)) + multiset{x.0}
  {
    if s != [] {
      var init, last := s[..|s| - 1], s[|s| - 1];
      assert ItemsOf(s) == ItemsOf(init) + [last.0];
      assert ItemsOf(s + [x]) == ItemsOf(s) + [x.0];
      InsertItems(init, x, before);
      assert ItemsOf(Insert(init, x, before) + [last]) == ItemsOf(Insert(init, x, before)) + [last.0];
    }
  }

  lemma {:induction false} SortItems(s: seq<Scored>, before: (Scored, Scored) -> bool)
    ensures multiset(ItemsOf(Sort(s, before))) == multiset(ItemsOf(s))
  {
    if s != [] {
      var init, last := s[..|s| - 1], s[|s| - 1];
      SortItems(init, before);
      InsertItems(Sort(init, before), last, before);
      assert ItemsOf(s) == ItemsOf(init) + [last.0];
    }
  }

  /** The chunks of the ranked list are those of the candidates that pass the scope filter. */
  lemma RankedItems(candidates: seq<Scored>, active: Option<seq<string>>, boost: bool)
    ensures multiset(ItemsOf(Ranked(candidates, active, boost)))
      == multiset(Filter(Passing(active), ItemsOf(candidates)))
  {
    SortItems(Filter(InScope(active), candidates), ByScore(Final(boost)));
    FilterItems(candidates, active);
  }

  lemma UnionHasDistinctKeys(vector: seq<Chunk>, fts: seq<Chunk>)
    ensures DistinctKeys(Union(vector, fts))
  {
    FirstsCover(vector + fts, KEY);
  }

  lemma EligibleHasDistinctKeys(query: string, vector: seq<Chunk>, fts: seq<Chunk>)
    ensures DistinctKeys(Eligible(query, vector, fts))
  {
    UnionHasDistinctKeys(vector, fts);
    FilterKeepsCounts(Matching(query), Union(vector, fts), Union(vector, fts));
    KeysStayDistinct(Union(vector, fts), Eligible(query, vector, fts));
  }

  /** With full-text search on, the retrieved chunks are exactly the eligible chunks in scope, each key once. */
  lemma RetrievedChunks(query: string, vector: seq<Chunk>, fts: seq<Chunk>, active: Option<seq<string>>, boost: bool)
    ensures
      var chunks := ItemsOf(Ranked(Candidates(query, vector, fts), active, boost));
      && multiset(chunks) == multiset(Filter(Passing(active), Eligible(query, vector, fts)))
      && DistinctKeys(chunks)
  {
    var candidates, eligible := Candidates(query, vector, fts), Eligible(query, vector, fts);
    RankedItems(candidates, active, boost);
    CandidatesAreEligible(query, vector, fts);
    FilterKeepsCounts(Passing(active), ItemsOf(candidates), eligible);
    EligibleHasDistinctKeys(query, vector, fts);
    KeysStayDistinct(eligible, ItemsOf(Ranked(candidates, active, boost)));
  }

  lemma {:induction false} EligibleIsFirst(query: string, vector: seq<Chunk>, fts: seq<Chunk>, c: Chunk)
    requires c in Eligible(query, vector, fts)
    ensures
      var r := Rank(vector + fts, KEY, KEY(c));
      && r > 0 && (vector + fts)[r - 1] == c
      && (IsExactMatch(query, c) || forall d <- Union(vector, fts) :: !IsExactMatch(query, d))
  {
    var union, matching := Union(vector, fts), Matching(query);
    FilterMembers(matching, union);
    FirstsAreFirst(vector + fts, KEY, c);
    if !IsExactMatch(query, c) {
      forall d <- union ensures !IsExactMatch(query, d) {
        assert matching(d) ==> d in Filter(matching, union);
      }
    }
  }

  lemma FilteredPasses(p: Chunk -> bool, s: seq<Chunk>, t: seq<Chunk>, c: Chunk)
    requires multiset(t) == multiset(Filter(p, s)) && c in t
    ensures p(c) && c in s
  {
    FilterMembers(p, s);
    assert c in multiset(t);
    assert c in Filter(p, s);
  }

  lemma RetrievedIsEligible(
    query: string, vector: seq<Chunk>, fts: seq<Chunk>, active: Option<seq<string>>, boost: bool, c: Chunk)
    requires c in ItemsOf(Ranked(Candidates(query, vector, fts), active, boost))
    ensures c in Eligible(query, vector, fts) && IsInScope(c, active)
  {
    RetrievedChunks(query, vector, fts, active, boost);
    var ranked := Ranked(Candidates(query, vector, fts), active, boost);
    FilteredPasses(Passing(active), Eligible(query, vector, fts), ItemsOf(ranked), c);
  }

  /** Each retrieved chunk is the first with its key among the vector hits followed by the full-text hits, contains the
      query if any chunk of the union does, and is in scope. */
  lemma {:induction false} RetrievedChunkIsFirst(
    query: string, vector: seq<Chunk>, fts: seq<Chunk>, active: Option<seq<string>>, boost: bool, c: Chunk)
    requires c in ItemsOf(Ranked(Candidates(query, vector, fts), active, boost))
    ensures
      var r := Rank(vector + fts, KEY, KEY(c));
      && r > 0 && (vector + fts)[r - 1] == c && IsInScope(c, active)
      && (IsExactMatch(query, c) || forall d <- Union(vector, fts) :: !IsExactMatch(query, d))
  {
    RetrievedIsEligible(query, vector, fts, active, boost, c);
    EligibleIsFirst(query, vector, fts, c);
  }

  ghost predicate IsAligned(r: Result, ranked: seq<Scored>, boost: bool) {
    && |r.chunks| == |r.vectorScores| == |r.scopeScores| == |r.finalScores| == |ranked|
    && forall i :: 0 <= i < |ranked| ==>
         && r.chunks[i] == ranked[i].0 && r.vectorScores[i] == ranked[i].1
         && r.scopeScores[i] == ScopePriority(r.chunks[i], boost)
         && r.finalScores[i] == Boosted(r.vectorScores[i], r.scopeScores[i])
  }

  ghost predicate Descends(scores: seq<real>) {
    forall i, j :: 0 <= i < j < |scores| ==> scores[i] >= scores[j]
  }

  lemma UnzippedIsAligned(ranked: seq<Scored>, boost: bool, stats: Option<Stats>, short: bool)
    ensures IsAligned(Unzipped(ranked, boost, stats, short), ranked, boost)
  {
    var r := Unzipped(ranked, boost, stats, short);
    forall i | 0 <= i < |ranked| ensures r.finalScores[i] == Boosted(r.vectorScores[i], r.scopeScores[i]) {
      assert r.finalScores[i] == Final(boost)(ranked[i]);
    }
  }

  lemma SortedDescends(kept: seq<Scored>, boost: bool, stats: Option<Stats>, short: bool)
    ensures Descends(Unzipped(Sort(kept, ByScore(Final(boost))), boost, stats, short).finalScores)
  {
    SortedByScore(kept, Final(boost));
  }

  /** The four lists are aligned, the final scores descend, and chunks of equal final score keep the order in which they
      came: that of the union for matches, that of the fused scores otherwise. */
  lemma ResultIsRanked(
    candidates: seq<Scored>, active: Option<seq<string>>, boost: bool, stats: Option<Stats>, short: bool, v: real)
    ensures
      var ranked := Ranked(candidates, active, boost);
      var r := Unzipped(ranked, boost, stats, short);
      && IsAligned(r, ranked, boost)
      && Descends(r.finalScores)
      && Filter(Scoring(Final(boost), v), ranked)
      == Filter(Scoring(Final(boost), v), Filter(InScope(active), candidates))
  {
    var kept := Filter(InScope(active), candidates);
    UnzippedIsAligned(Ranked(candidates, active, boost), boost, stats, short);
    SortedDescends(kept, boost, stats, short);
    SortedByScore(kept, Final(boost));
  }
}
