/**
 What a retrieval returns, in the terms of a search: which chunks, with which scores, in which order. The authority of
 a chunk, its scores and its place are stated as numbers and inequalities.
 */
module RankingLaws {
  import opened Collections
  import opened Text
  import opened RankFusion
  import opened Retriever

  // ---- Authority ----

  /** `s` is the lower-case word `word`, in any mixture of upper and lower case. */
  predicate Spells(s: string, word: string) {
    && |s| == |word|
    && forall i :: 0 <= i < |s| ==> s[i] == word[i] || ('A' <= s[i] <= 'Z' && s[i] as int + 32 == word[i] as int)
  }

  predicate HasNoCapital(word: string) {
    forall i :: 0 <= i < |word| ==> !('A' <= word[i] <= 'Z')
  }

  lemma {:induction false} LowerSpells(s: string, word: string)
    requires HasNoCapital(word)
    ensures Lower(s) == word <==> Spells(s, word)
  {
    if s != "" {
      if word != "" {
        LowerSpells(s[1..], word[1..]);
        assert word == [word[0]] + word[1..];
        if Spells(s, word) {
          assert forall i :: 0 <= i < |s[1..]| ==> s[1..][i] == s[i + 1] && word[1..][i] == word[i + 1];
        }
        if Lower(s) == word {
          assert Lower(s[1..]) == Lower(s)[1..];
          forall i | 0 < i < |s| ensures s[i] == s[1..][i - 1] && word[i] == word[1..][i - 1] {
          }
        }
      }
    }
  }

  const STANDARDS_AND_SPECS := ["national_standard", "industry_standard", "enterprise_spec", "lot_checklist"]

  /** A document type decides the authority, whatever the scope path says. */
  lemma TypeAuthority(c: Chunk)
    ensures
      var a := ScopePriority(c, false);
      && (c.docType == Some("national_standard") ==> a == 1.0)
      && (c.docType == Some("industry_standard") ==> a == 0.8)
      && (c.docType == Some("enterprise_spec") || c.docType == Some("lot_checklist") ==> a == 0.6)
      && (c.docType.Some? && c.docType.value !in STANDARDS_AND_SPECS ==> a == 0.4)
  {
  }

  /** Without a document type the head of the scope path decides, in either case; without both there is no authority. */
  lemma ScopeAuthority(c: Chunk)
    requires c.docType.None?
    ensures
      var a := ScopePriority(c, false);
      && (c.scopePath == [] ==> a == 0.0)
      && (c.scopePath != [] ==>
            var head := c.scopePath[0];
            && (Spells(head, "national") ==> a == 1.0)
            && (Spells(head, "industry") ==> a == 0.8)
            && (Spells(head, "enterprise") ==> a == 0.6)
            && (Spells(head, "reference") ==> a == 0.2)
            && (a == 0.4 || exists word <- ["national", "industry", "enterprise", "reference"] :: Spells(head, word)))
  {
    if c.scopePath != [] {
      var head := c.scopePath[0];
      LowerSpells(head, "national");
      LowerSpells(head, "industry");
      LowerSpells(head, "enterprise");
      LowerSpells(head, "project");
      LowerSpells(head, "reference");
    }
  }

  /** With the boost the authority is the largest of the chunk's own, 0.9 for form fields and 0.7 for column headers. */
  lemma BoostedAuthority(c: Chunk)
    ensures
      var a, b := ScopePriority(c, false), ScopePriority(c, true);
      && a <= b && (c.hasFormFields ==> 0.9 <= b) && (c.hasColumnHeaders ==> 0.7 <= b)
      && (b == a || (c.hasFormFields && b == 0.9) || (c.hasColumnHeaders && b == 0.7))
  {
  }

  // ---- Scores and places ----

  /** The scored chunks that are ranked are the candidates in scope. */
  lemma RankedIff(candidates: seq<Scored>, active: Option<seq<string>>, boost: bool, p: Scored)
    ensures p in Ranked(candidates, active, boost) <==> p in candidates && IsInScope(p.0, active)
  {
    SortMember(Filter(InScope(active), candidates), ByScore(Final(boost)), p);
    FilterMembers(InScope(active), candidates);
    assert InScope(active)(p) == IsInScope(p.0, active);
  }

  /** The `i`-th result: its retrieval score `v`, its authority `a`, and its final score, which is the retrieval score
      plus that score times the authority. */
  lemma FinalScoreMeaning(ranked: seq<Scored>, boost: bool, stats: Option<Stats>, short: bool, r: Result, i: nat)
    returns (v: real, a: real, final: real)
    requires r == Unzipped(ranked, boost, stats, short) && i < |ranked|
    ensures |r.chunks| == |r.vectorScores| == |r.scopeScores| == |r.finalScores| == |ranked|
    ensures v == r.vectorScores[i] && a == r.scopeScores[i] >= 0.0 && final == r.finalScores[i]
    ensures ranked[i] == (r.chunks[i], v) && a == ScopePriority(r.chunks[i], boost)
    ensures final == v + v * a && (a == 0.0 ==> final == v)
  {
    UnzippedIsAligned(ranked, boost, stats, short);
    ScopePriorityRange(r.chunks[i], boost);
    v, a, final := r.vectorScores[i], r.scopeScores[i], r.finalScores[i];
  }

  /** Retrieval score `v` at authority `a` outranks `w` at `b`: the larger score with its share for authority; of the
      same positive scores the one with more authority; with the same authority the larger score. */
  predicate Outranks(v: real, a: real, w: real, b: real) {
    v + v * a > w + w * b || (v == w > 0.0 && a > b) || (v > w && a == b)
  }

  lemma OutranksIsLarger(v: real, a: real, w: real, b: real)
    requires a >= 0.0 && b >= 0.0 && Outranks(v, a, w, b)
    ensures v + v * a > w + w * b
  {
    if v > w && a == b {
      assert v * a - w * b == (v - w) * a;
    } else if v == w > 0.0 && a > b {
      assert v * a - w * b == v * (a - b);
    }
  }

  /** A result that outranks another comes before it. */
  lemma OutrankingComesFirst(
    candidates: seq<Scored>, active: Option<seq<string>>, boost: bool, stats: Option<Stats>, short: bool, r: Result,
    i: nat, j: nat)
    requires r == Unzipped(Ranked(candidates, active, boost), boost, stats, short)
    requires i < |r.chunks| && j < |r.chunks|
    requires Outranks(r.vectorScores[i], r.scopeScores[i], r.vectorScores[j], r.scopeScores[j])
    ensures i < j
  {
    var ranked := Ranked(candidates, active, boost);
    var v, a, x := FinalScoreMeaning(ranked, boost, stats, short, r, i);
    var w, b, y := FinalScoreMeaning(ranked, boost, stats, short, r, j);
    OutranksIsLarger(v, a, w, b);
    SortedDescends(Filter(InScope(active), candidates), boost, stats, short);
  }

  // ---- Scores before the authority ----

  /** The item at `i` is the first with key `k`. */
  predicate IsFirstAt<T>(items: seq<T>, key: T -> string, k: string, i: nat) {
    i < |items| && key(items[i]) == k && forall j :: 0 <= j < i ==> key(items[j]) != k
  }

  predicate Lacks<T>(items: seq<T>, key: T -> string, k: string) {
    forall i :: 0 <= i < |items| ==> key(items[i]) != k
  }

  /** A list whose first item with the key is at `i`, counting from 0, adds 1 / (damp + i + 1); one without it nothing.
      */
  lemma ScoreGrows<T>(lists: seq<seq<T>>, items: seq<T>, key: T -> string, k: string, damp: Positive, i: nat)
    requires IsFirstAt(items, key, k, i) || (i == |items| && Lacks(items, key, k))
    ensures Score(lists + [items], key, k, damp)
      == Score(lists, key, k, damp) + if i < |items| then 1.0 / (damp + i + 1) as real else 0.0
  {
    assert (lists + [items])[..|lists|] == lists;
    RankIsFirst(items, key, k);
    if i < |items| {
      assert HasKey(items, key, k);
      assert Rank(items, key, k) == i + 1;
    }
  }

  /** The chunk is the first hit with its key. */
  predicate IsLeading(hits: seq<Chunk>, c: Chunk) {
    exists i :: 0 <= i < |hits| && IsFirstAt(hits, KEY, KEY(c), i) && hits[i] == c
  }

  /** No hit that is the first with its key contains the query. */
  predicate NothingMatches(query: string, hits: seq<Chunk>) {
    forall c <- hits :: IsLeading(hits, c) ==> !IsExactMatch(query, c)
  }

  lemma UnionMembers(vector: seq<Chunk>, fts: seq<Chunk>, c: Chunk)
    ensures c in Union(vector, fts) <==> IsLeading(vector + fts, c)
  {
    if c in Union(vector, fts) {
      FirstsAreFirst(vector + fts, KEY, c);
      RankIsFirst(vector + fts, KEY, KEY(c));
      assert IsFirstAt(vector + fts, KEY, KEY(c), Rank(vector + fts, KEY, KEY(c)) - 1);
    }
    if i :| 0 <= i < |vector + fts| && IsFirstAt(vector + fts, KEY, KEY(c), i) && (vector + fts)[i] == c {
      FirstIsListed(vector + fts, i);
    }
  }

  lemma {:induction false} FirstIsListed(hits: seq<Chunk>, i: nat)
    requires i < |hits| && IsFirstAt(hits, KEY, KEY(hits[i]), i)
    ensures hits[i] in Firsts(hits, KEY)
  {
    if i < |hits| - 1 {
      FirstIsListed(hits[..|hits| - 1], i);
    }
  }

  lemma MatchesIff(query: string, vector: seq<Chunk>, fts: seq<Chunk>)
    ensures NothingMatches(query, vector + fts) <==> Filter(Matching(query), Union(vector, fts)) == []
  {
    var hits, union, matching := vector + fts, Union(vector, fts), Matching(query);
    FilterMembers(matching, union);
    if !NothingMatches(query, hits) {
      var c :| c in hits && IsLeading(hits, c) && IsExactMatch(query, c);
      UnionMembers(vector, fts, c);
      assert matching(c);
      assert c in Filter(matching, union);
    }
    if Filter(matching, union) != [] {
      var c := Filter(matching, union)[0];
      assert c in Filter(matching, union);
      UnionMembers(vector, fts, c);
    }
  }

  /** When some hit contains the query, every candidate scores 1. */
  lemma MatchScore(query: string, vector: seq<Chunk>, fts: seq<Chunk>, p: Scored)
    requires p in Candidates(query, vector, fts) && !NothingMatches(query, vector + fts)
    ensures p.1 == 1.0
  {
    MatchesIff(query, vector, fts);
  }

  /** Otherwise a candidate scores 1/61, 1/62, ... for being the first, second, ... vector hit, and the same for the
      full-text hits; the two add up. `i` and `j` are its places, counting from 0, or the lengths of lists without it.
      */
  lemma FusedScore(query: string, vector: seq<Chunk>, fts: seq<Chunk>, p: Scored, i: nat, j: nat)
    requires p in Candidates(query, vector, fts) && NothingMatches(query, vector + fts)
    requires IsFirstAt(vector, KEY, KEY(p.0), i) || (i == |vector| && Lacks(vector, KEY, KEY(p.0)))
    requires IsFirstAt(fts, KEY, KEY(p.0), j) || (j == |fts| && Lacks(fts, KEY, KEY(p.0)))
    ensures p.1 == (if i < |vector| then 1.0 / (61 + i) as real else 0.0)
                   + if j < |fts| then 1.0 / (61 + j) as real else 0.0
  {
    MatchesIff(query, vector, fts);
    FusedIsScored([vector, fts], p);
    TwoShares(vector, fts, KEY, KEY(p.0), i, j);
  }

  lemma TwoShares<T>(vector: seq<T>, fts: seq<T>, key: T -> string, k: string, i: nat, j: nat)
    requires IsFirstAt(vector, key, k, i) || (i == |vector| && Lacks(vector, key, k))
    requires IsFirstAt(fts, key, k, j) || (j == |fts| && Lacks(fts, key, k))
    ensures Score([vector, fts], key, k, 60)
      == (if i < |vector| then 1.0 / (61 + i) as real else 0.0) + if j < |fts| then 1.0 / (61 + j) as real else 0.0
  {
    var none: seq<seq<T>> := [];
    assert none + [vector] == [vector] && [vector] + [fts] == [vector, fts];
    ScoreGrows(none, vector, key, k, 60, i);
    ScoreGrows([vector], fts, key, k, 60, j);
  }

  lemma FusedIsScored(lists: seq<seq<Chunk>>, p: Scored)
    requires p in Fused(lists, KEY, DAMP)
    ensures p.1 == Score(lists, KEY, KEY(p.0), DAMP)
  {
    FusionIsExact(lists, KEY, DAMP);
  }

  // ---- Which chunks ----

  /** The stripped query is part of the chunk's text; a blank query is part of nothing. */
  lemma MatchMeaning(query: string, c: Chunk)
    ensures IsExactMatch(query, c) <==>
      Strip(query) != "" && exists before, after :: c.text == before + Strip(query) + after
  {
    var q := Strip(query);
    if IsExactMatch(query, c) {
      var i :| 0 <= i <= |c.text| && OccursAt(c.text, q, i);
      assert c.text == c.text[..i] + q + c.text[i + |q|..];
    }
    if before, after :| c.text == before + q + after {
      assert OccursAt(c.text, q, |before|);
    }
  }

  /** A chunk is in scope when nothing is active, or its scope path begins with the active one and is not empty. */
  lemma ScopeMeaning(c: Chunk, scope: seq<string>)
    ensures IsInScope(c, None)
    ensures IsInScope(c, Some(scope)) <==> c.scopePath != [] && scope <= c.scopePath
  {
  }

  lemma {:induction false} OneColon(a: string, b: string, x: string, y: string)
    requires ':' !in a && ':' !in b && a + ":" + x == b + ":" + y
    ensures a == b && x == y
  {
    var s := a + ":" + x;
    assert s == b + ":" + y;
    assert s[|a|] == ':' && s[|b|] == ':';
    assert |a| == |b|;
    assert s[..|a|] == a && s[..|b|] == b && s[|a| + 1..] == x && s[|b| + 1..] == y;
  }

  /** Chunks with ids are the same hit when their ids are equal; chunks without, when they begin with the same block of
      the same document. */
  lemma KeyMeaning(a: Chunk, b: Chunk)
    ensures a.chunkId != "" && b.chunkId != "" ==> (KEY(a) == KEY(b) <==> a.chunkId == b.chunkId)
    ensures a.chunkId == b.chunkId == "" && a.blockIds != [] && b.blockIds != []
            && ':' !in a.docHash && ':' !in b.docHash ==>
      (KEY(a) == KEY(b) <==> a.docHash == b.docHash && a.blockIds[0] == b.blockIds[0])
  {
    if a.chunkId == b.chunkId == "" && a.blockIds != [] && b.blockIds != []
       && ':' !in a.docHash && ':' !in b.docHash && KEY(a) == KEY(b) {
      OneColon(a.docHash, b.docHash, a.blockIds[0], b.blockIds[0]);
    }
  }

  /** With full-text search on, a chunk is retrieved exactly when it is the first hit of its key, the vector hits
      counting first, it contains the query or no such hit does, and it is in scope. */
  lemma RetrievedIff(
    query: string, vector: seq<Chunk>, fts: seq<Chunk>, active: Option<seq<string>>, boost: bool, c: Chunk)
    ensures
      var hits := vector + fts;
      c in ItemsOf(Ranked(Candidates(query, vector, fts), active, boost)) <==>
        && IsLeading(hits, c)
        && (IsExactMatch(query, c) || NothingMatches(query, hits))
        && IsInScope(c, active)
  {
    var chunks := ItemsOf(Ranked(Candidates(query, vector, fts), active, boost));
    var eligible := Eligible(query, vector, fts);
    RetrievedChunks(query, vector, fts, active, boost);
    assert c in chunks <==> c in multiset(chunks);
    FilterMembers(Passing(active), eligible);
    FilterMembers(Matching(query), Union(vector, fts));
    UnionMembers(vector, fts, c);
    MatchesIff(query, vector, fts);
    assert c in multiset(Filter(Passing(active), eligible)) <==> c in Filter(Passing(active), eligible);
    assert Passing(active)(c) == IsInScope(c, active) && Matching(query)(c) == IsExactMatch(query, c);
  }

  // ---- Statistics ----

  /** The counts tell the keys of the two lists apart: those in both, and those in one of them. */
  lemma StatsMeaning(vector: seq<Chunk>, fts: seq<Chunk>)
    ensures
      var v, f, s := set c <- vector :: KEY(c), set c <- fts :: KEY(c), StatsOf([vector, fts], KEY);
      s.bothHits == |v * f| && s.vectorHits == |v| - |v * f| && s.ftsHits == |f| - |v * f|
  {
    var v, f := set c <- vector :: KEY(c), set c <- fts :: KEY(c);
    KeySetMeaning(vector);
    KeySetMeaning(fts);
    WithoutPart(v, v * f);
    WithoutPart(f, v * f);
  }

  lemma WithoutPart(s: set<string>, part: set<string>)
    requires part <= s
    ensures |s - part| == |s| - |part|
  {
    assert s == (s - part) + part;
  }

  lemma KeySetMeaning(items: seq<Chunk>)
    ensures KeySet(items, KEY) == set c <- items :: KEY(c)
  {
    forall k | k in KeySet(items, KEY) ensures k in set c <- items :: KEY(c) {
      var i :| 0 <= i < |items| && KEY(items[i]) == k;
      assert items[i] in items;
    }
  }
}
