/**
 Which documents keep the scope of every chunk, document by document: those in which no text joins a blank text left
 pending from under another heading.
 */
module ScopeLaws {
  import opened Collections
  import opened Text
  import opened Cutting
  import opened Splitting
  import opened Chunker
  import opened ChunkerLaws
  import opened SourceLaws
  import opened ShownLaws

  predicate IsUniform(bs: seq<Block>, scope: seq<string>) {
    forall b <- bs :: b.headingPath == scope
  }

  predicate IsBlankRun(bs: seq<Block>) {
    forall b <- bs :: IsBlank(ExtractText(b))
  }

  /** Some block shows text, and some block is from under another heading. */
  predicate IsMixed(bs: seq<Block>, scope: seq<string>) {
    !IsBlankRun(bs) && !IsUniform(bs, scope)
  }

  /** The block shows text and joins, under the current heading and within the budget, a pending block from under
      another heading. */
  predicate JoinsStray(p: Plan, block: Block, maxTokens: nat) {
    && !IsStandalone(block) && !IsBlank(ExtractText(block)) && block.headingPath == p.scope
    && Tokens(p.pending) + EstimateTokens(ExtractText(block)) <= maxTokens
    && !IsUniform(p.pending, p.scope)
  }

  predicate HasStray(blocks: seq<Block>, maxTokens: nat) {
    exists i :: 0 <= i < |blocks| && JoinsStray(PlanBlocks(blocks[..i], maxTokens), blocks[i], maxTokens)
  }

  /** The group becomes no chunk, or all its blocks are from under its own heading. */
  predicate GroupKeepsScope(g: Group, maxTokens: Positive, counter: string -> int) {
    Render(g, maxTokens, counter) == [] || IsUniform(GroupBlocks(g), GroupScope(g))
  }

  // ---- Blank groups become no chunk ----

  lemma {:induction false} BlankTexts(bs: seq<Block>)
    requires IsBlankRun(bs)
    ensures Squeeze(Concat(Texts(bs))) == ""
  {
    if bs != [] {
      var init, last := bs[..|bs| - 1], bs[|bs| - 1];
      BlankTexts(init);
      assert Texts(bs) == Texts(init) + [ExtractText(last)];
      ConcatAppend(Texts(init), [ExtractText(last)]);
      ConcatSingle(ExtractText(last));
      SqueezeAppend(Concat(Texts(init)), ExtractText(last));
      SqueezeBlank(ExtractText(last));
    }
  }

  lemma {:induction false} BlankBlock(bs: seq<Block>, i: nat)
    requires i < |bs| && Squeeze(Concat(Texts(bs))) == ""
    ensures IsBlank(ExtractText(bs[i]))
  {
    BlankParts(Texts(bs), i);
  }

  lemma BlankTextsIff(bs: seq<Block>)
    ensures IsBlankRun(bs) <==> Squeeze(Concat(Texts(bs))) == ""
  {
    if IsBlankRun(bs) {
      BlankTexts(bs);
    } else {
      var b :| b in bs && !IsBlank(ExtractText(b));
      var i :| 0 <= i < |bs| && bs[i] == b;
      if Squeeze(Concat(Texts(bs))) == "" {
        BlankBlock(bs, i);
      }
    }
  }

  lemma BlankRunRendersNothing(
    bs: seq<Block>, scope: seq<string>, path: Path, maxTokens: Positive, counter: string -> int)
    requires IsBlankRun(bs)
    ensures Render(Gathered(bs, scope, path), maxTokens, counter) == []
  {
    var joined := Join("\n", Texts(bs));
    BlankTextsIff(bs);
    SqueezeJoin(Texts(bs));
    SqueezeBlank(joined);
    SqueezeStrip(joined);
    BlankSplitsToNothing(joined, maxTokens);
  }

  lemma ShownRunRenders(bs: seq<Block>, scope: seq<string>, path: Path, maxTokens: Positive, counter: string -> int)
    requires !IsBlankRun(bs)
    ensures Render(Gathered(bs, scope, path), maxTokens, counter) != []
  {
    BlankTextsIff(bs);
    GatheredKeepsText(bs, scope, path, maxTokens, counter);
  }

  // ---- Without strays, scopes are kept ----

  predicate IsClear(g: Group) {
    IsUniform(GroupBlocks(g), GroupScope(g)) || (g.Gathered? && IsBlankRun(g.blocks))
  }

  /** What was sent on keeps its scope or shows nothing; so does what is pending. */
  predicate ScopeHeld(p: Plan) {
    && (forall i :: 0 <= i < |p.done| ==> IsClear(p.done[i]))
    && (IsUniform(p.pending, p.scope) || IsBlankRun(p.pending))
  }

  lemma FlushedIsShown(bs: seq<Block>)
    ensures FlushTexts(Texts(bs)) == [] <==> IsBlankRun(bs)
  {
    FlushKeepsText(Texts(bs));
    BlankTextsIff(bs);
  }

  lemma StandaloneKeepsScope(p: Plan, block: Block)
    requires ScopeHeld(p)
    ensures ScopeHeld(TakeStandalone(p, block))
  {
    var q := FlushPending(p);
    FlushedIsShown(p.pending);
    assert ScopeHeld(q) && IsBlankRun(q.pending);
  }

  lemma AccumulateKeepsScope(p: Plan, block: Block, maxTokens: nat)
    requires ScopeHeld(p) && block.headingPath == p.scope
    requires IsUniform(p.pending, p.scope) || IsBlank(ExtractText(block))
    ensures ScopeHeld(Accumulate(p, block, maxTokens))
  {
    var grown := p.pending + [block];
    assert IsUniform(grown, p.scope) || IsBlankRun(grown);
  }

  lemma TextKeepsScope(p: Plan, block: Block, maxTokens: nat)
    requires ScopeHeld(p) && !IsStandalone(block) && !JoinsStray(p, block, maxTokens)
    ensures ScopeHeld(TakeText(p, block, maxTokens))
  {
    var p1 := ChangeScope(p, block.headingPath);
    assert ScopeHeld(p1);
    var p2 := MakeRoom(p1, block, maxTokens);
    assert p2.pending == [] || p2 == p;
    AccumulateKeepsScope(p2, block, maxTokens);
  }

  lemma {:induction false} PlanKeepsScope(blocks: seq<Block>, maxTokens: nat)
    requires !HasStray(blocks, maxTokens)
    ensures ScopeHeld(PlanBlocks(blocks, maxTokens))
  {
    if blocks != [] {
      var n := |blocks| - 1;
      PrefixHasNoStray(blocks, n, maxTokens);
      PlanKeepsScope(blocks[..n], maxTokens);
      var p, block := PlanBlocks(blocks[..n], maxTokens), blocks[n];
      assert !JoinsStray(p, block, maxTokens);
      if ExtractText(block) == "" {
      } else if IsStandalone(block) {
        StandaloneKeepsScope(p, block);
      } else {
        TextKeepsScope(p, block, maxTokens);
      }
    }
  }

  lemma PrefixHasNoStray(blocks: seq<Block>, n: nat, maxTokens: nat)
    requires n <= |blocks| && !HasStray(blocks, maxTokens)
    ensures !HasStray(blocks[..n], maxTokens)
  {
    forall i | 0 <= i < n
      ensures !JoinsStray(PlanBlocks(blocks[..n][..i], maxTokens), blocks[..n][i], maxTokens)
    {
      assert blocks[..n][..i] == blocks[..i];
      assert !JoinsStray(PlanBlocks(blocks[..i], maxTokens), blocks[i], maxTokens);
    }
  }

  lemma ClearGroupKeepsScope(g: Group, maxTokens: Positive, counter: string -> int)
    requires IsClear(g)
    ensures GroupKeepsScope(g, maxTokens, counter)
  {
    if g.Gathered? && IsBlankRun(g.blocks) {
      BlankRunRendersNothing(g.blocks, g.scope, g.path, maxTokens, counter);
    }
  }

  // ---- A stray stays ----

  predicate GroupIsMixed(g: Group) {
    g.Gathered? && IsMixed(g.blocks, g.scope)
  }

  predicate HasMixed(gs: seq<Group>) {
    exists i :: 0 <= i < |gs| && GroupIsMixed(gs[i])
  }

  /** A mixed group was sent on or is pending. */
  predicate MixedHeld(p: Plan) {
    HasMixed(p.done) || IsMixed(p.pending, p.scope)
  }

  lemma MixedNext(gs: seq<Group>, g: Group)
    ensures HasMixed(gs + [g]) <==> HasMixed(gs) || GroupIsMixed(g)
  {
    var more := gs + [g];
    assert more[|gs|] == g && forall i :: 0 <= i < |gs| ==> more[i] == gs[i];
  }

  lemma RouteKeepsMixed(p: Plan)
    requires MixedHeld(p)
    ensures HasMixed(RoutePending(p).done)
  {
    MixedNext(p.done, Gathered(p.pending, p.scope, Routed));
  }

  lemma StandaloneKeepsMixed(p: Plan, block: Block)
    requires MixedHeld(p)
    ensures MixedHeld(TakeStandalone(p, block))
  {
    FlushedIsShown(p.pending);
    MixedNext(p.done, Gathered(p.pending, p.scope, Direct));
    MixedNext(FlushPending(p).done, Alone(block));
  }

  lemma AccumulateKeepsMixed(p: Plan, block: Block, maxTokens: nat)
    requires MixedHeld(p)
    ensures MixedHeld(Accumulate(p, block, maxTokens))
  {
    var grown := p.pending + [block];
    MixedNext(p.done, Gathered(grown, p.scope, Oversize));
    assert forall b <- p.pending :: b in grown;
  }

  lemma TextKeepsMixed(p: Plan, block: Block, maxTokens: nat)
    requires MixedHeld(p)
    ensures MixedHeld(TakeText(p, block, maxTokens))
  {
    RouteKeepsMixed(p);
    var p1 := ChangeScope(p, block.headingPath);
    assert MixedHeld(p1);
    RouteKeepsMixed(p1);
    var p2 := MakeRoom(p1, block, maxTokens);
    AccumulateKeepsMixed(p2, block, maxTokens);
  }

  lemma StrayMixes(p: Plan, block: Block, maxTokens: nat)
    requires JoinsStray(p, block, maxTokens)
    ensures MixedHeld(TakeBlock(p, block, maxTokens))
  {
    SqueezeBlank(ExtractText(block));
    TextJoins(p, block, maxTokens);
    var grown := p.pending + [block];
    assert block in grown && forall b <- p.pending :: b in grown;
  }

  lemma StepKeepsMixed(p: Plan, block: Block, maxTokens: nat)
    requires MixedHeld(p)
    ensures MixedHeld(TakeBlock(p, block, maxTokens))
  {
    if ExtractText(block) != "" {
      if IsStandalone(block) {
        StandaloneKeepsMixed(p, block);
      } else {
        TextKeepsMixed(p, block, maxTokens);
      }
    }
  }

  lemma MixedStep(init: seq<Block>, block: Block, maxTokens: nat)
    requires var p := PlanBlocks(init, maxTokens); MixedHeld(p) || JoinsStray(p, block, maxTokens)
    ensures MixedHeld(PlanBlocks(init + [block], maxTokens))
  {
    var p := PlanBlocks(init, maxTokens);
    PlanStep(init, block, maxTokens);
    if MixedHeld(p) {
      StepKeepsMixed(p, block, maxTokens);
    } else {
      StrayMixes(p, block, maxTokens);
    }
  }

  lemma {:induction false} MixedStays(init: seq<Block>, more: seq<Block>, maxTokens: nat)
    requires MixedHeld(PlanBlocks(init, maxTokens))
    ensures MixedHeld(PlanBlocks(init + more, maxTokens))
    decreases |more|
  {
    if more == [] {
      assert init + more == init;
    } else {
      assert init + [more[0]] + more[1..] == init + more;
      MixedStep(init, more[0], maxTokens);
      MixedStays(init + [more[0]], more[1..], maxTokens);
    }
  }

  lemma StrayStays(blocks: seq<Block>, i: nat, maxTokens: nat)
    requires i < |blocks| && JoinsStray(PlanBlocks(blocks[..i], maxTokens), blocks[i], maxTokens)
    ensures MixedHeld(PlanBlocks(blocks, maxTokens))
  {
    assert blocks[..i] + [blocks[i]] + blocks[i + 1..] == blocks;
    MixedStep(blocks[..i], blocks[i], maxTokens);
    MixedStays(blocks[..i] + [blocks[i]], blocks[i + 1..], maxTokens);
  }

  lemma LastFlushKeepsMixed(p: Plan)
    requires MixedHeld(p)
    ensures HasMixed(p.done + if p.pending == [] then [] else [Gathered(p.pending, p.scope, Direct)])
  {
    MixedNext(p.done, Gathered(p.pending, p.scope, Direct));
    assert p.done + [] == p.done;
  }

  lemma MixedGroupLosesScope(g: Group, maxTokens: Positive, counter: string -> int)
    requires GroupIsMixed(g)
    ensures !GroupKeepsScope(g, maxTokens, counter)
  {
    ShownRunRenders(g.blocks, g.scope, g.path, maxTokens, counter);
  }

  // ---- Exactly which documents ----

  lemma StrayMixesGroup(blocks: seq<Block>, maxTokens: Positive, counter: string -> int) returns (i: nat)
    requires HasStray(blocks, maxTokens)
    ensures i < |Groups(blocks, maxTokens)| && GroupIsMixed(Groups(blocks, maxTokens)[i])
    ensures !GroupKeepsScope(Groups(blocks, maxTokens)[i], maxTokens, counter)
  {
    var at :| 0 <= at < |blocks| && JoinsStray(PlanBlocks(blocks[..at], maxTokens), blocks[at], maxTokens);
    StrayStays(blocks, at, maxTokens);
    LastFlushKeepsMixed(PlanBlocks(blocks, maxTokens));
    var gs := Groups(blocks, maxTokens);
    i :| 0 <= i < |gs| && GroupIsMixed(gs[i]);
    MixedGroupLosesScope(gs[i], maxTokens, counter);
  }

  lemma UnstrayedGroupsKeepScope(blocks: seq<Block>, maxTokens: Positive, counter: string -> int, i: nat)
    requires !HasStray(blocks, maxTokens) && i < |Groups(blocks, maxTokens)|
    ensures GroupKeepsScope(Groups(blocks, maxTokens)[i], maxTokens, counter)
  {
    var p := PlanBlocks(blocks, maxTokens);
    PlanKeepsScope(blocks, maxTokens);
    ClearGroupKeepsScope(Groups(blocks, maxTokens)[i], maxTokens, counter);
  }

  /** Every document, exactly: all groups that become chunks hold only blocks from under their own heading, if and only
      if no text block that shows something joins a pending block from under another heading. */
  lemma GroupsKeepScopeIff(blocks: seq<Block>, maxTokens: Positive, counter: string -> int)
    ensures
      var gs := Groups(blocks, maxTokens);
      (forall i :: 0 <= i < |gs| ==> GroupKeepsScope(gs[i], maxTokens, counter)) <==> !HasStray(blocks, maxTokens)
  {
    if HasStray(blocks, maxTokens) {
      var i := StrayMixesGroup(blocks, maxTokens, counter);
    } else {
      forall i | 0 <= i < |Groups(blocks, maxTokens)|
        ensures GroupKeepsScope(Groups(blocks, maxTokens)[i], maxTokens, counter)
      {
        UnstrayedGroupsKeepScope(blocks, maxTokens, counter, i);
      }
    }
  }

  // ---- The same in the chunks ----

  lemma UnstrayedChunkKeepsScope(blocks: seq<Block>, maxTokens: Positive, counter: string -> int, c: Chunk)
    requires !HasStray(blocks, maxTokens) && c in Chunks(blocks, maxTokens, counter)
    ensures KeepsScope(c, blocks)
  {
    var gs := Groups(blocks, maxTokens);
    var i := FlatMapOrigin(Renderer(maxTokens, counter), gs, c);
    UnstrayedGroupsKeepScope(blocks, maxTokens, counter, i);
    var run := GroupBlocks(gs[i]);
    forall b | b in run ensures b in blocks && b.headingPath == c.scopePath {
      GroupIsFrom(blocks, maxTokens, i, b);
    }
    assert c.sources == Ids(run) && AllUnder(run, blocks, c.scopePath);
  }

  predicate HasDistinctIds(blocks: seq<Block>) {
    forall i, j :: 0 <= i < j < |blocks| ==> blocks[i].id != blocks[j].id
  }

  lemma StrayedChunkBreaksScope(blocks: seq<Block>, maxTokens: Positive, counter: string -> int) returns (c: Chunk)
    requires HasStray(blocks, maxTokens) && HasDistinctIds(blocks)
    ensures c in Chunks(blocks, maxTokens, counter) && !KeepsScope(c, blocks)
  {
    var gs := Groups(blocks, maxTokens);
    var i := StrayMixesGroup(blocks, maxTokens, counter);
    var j := MixedHasStray(gs[i]);
    GroupIsFrom(blocks, maxTokens, i, gs[i].blocks[j]);
    c := FirstChunk(gs, i, maxTokens, counter);
    StrayLosesScope(c, blocks, gs[i].blocks, j);
  }

  lemma MixedHasStray(g: Group) returns (j: nat)
    requires GroupIsMixed(g)
    ensures j < |g.blocks| && g.blocks[j].headingPath != g.scope
  {
    var stray :| stray in g.blocks && stray.headingPath != g.scope;
    j :| 0 <= j < |g.blocks| && g.blocks[j] == stray;
  }

  lemma StrayLosesScope(c: Chunk, blocks: seq<Block>, bs: seq<Block>, j: nat)
    requires HasDistinctIds(blocks) && c.sources == Ids(bs)
    requires j < |bs| && bs[j] in blocks && bs[j].headingPath != c.scopePath
    ensures !KeepsScope(c, blocks)
  {
    forall run: seq<Block> | c.sources == Ids(run) ensures !AllUnder(run, blocks, c.scopePath) {
      assert run[j].id == c.sources[j] == bs[j].id;
      assert run[j] in run;
    }
  }

  /** Every document whose blocks have their own ids, exactly: each chunk's scope is the heading of all its blocks if
      and only if no text block that shows something joins a pending block from under another heading. */
  lemma ChunksKeepScopeIff(blocks: seq<Block>, maxTokens: Positive, counter: string -> int)
    requires HasDistinctIds(blocks)
    ensures AllKeepScope(blocks, maxTokens, counter) <==> !HasStray(blocks, maxTokens)
  {
    if HasStray(blocks, maxTokens) {
      var c := StrayedChunkBreaksScope(blocks, maxTokens, counter);
    } else {
      forall c | c in Chunks(blocks, maxTokens, counter) ensures KeepsScope(c, blocks) {
        UnstrayedChunkKeepsScope(blocks, maxTokens, counter, c);
      }
    }
  }

  // ---- Where strays come from ----

  /** The pending blocks are from under the current heading; `shown` says that they all show text. */
  predicate IsTidy(p: Plan, shown: bool) {
    IsUniform(p.pending, p.scope) && (shown ==> forall b <- p.pending :: !IsBlank(ExtractText(b)))
  }

  lemma TextStaysTidy(p: Plan, block: Block, maxTokens: nat, shown: bool)
    requires IsTidy(p, shown) && (shown ==> !IsBlank(ExtractText(block)))
    ensures IsTidy(TakeText(p, block, maxTokens), shown)
  {
  }

  lemma StandaloneStaysTidy(p: Plan, block: Block)
    requires IsTidy(p, true)
    ensures IsTidy(TakeStandalone(p, block), true)
  {
    FlushedIsShown(p.pending);
    assert p.pending != [] ==> p.pending[0] in p.pending;
  }

  lemma {:induction false} PlanStaysTidy(blocks: seq<Block>, n: nat, maxTokens: nat, shown: bool)
    requires n <= |blocks|
    requires if shown then forall b <- blocks :: !IsBlankBlock(b) else forall b <- blocks :: !IsStandalone(b)
    ensures IsTidy(PlanBlocks(blocks[..n], maxTokens), shown)
  {
    if n > 0 {
      var p, block := PlanBlocks(blocks[..n - 1], maxTokens), blocks[n - 1];
      PlanStaysTidy(blocks, n - 1, maxTokens, shown);
      assert blocks[..n - 1] + [block] == blocks[..n];
      PlanStep(blocks[..n - 1], block, maxTokens);
      assert block in blocks;
      if ExtractText(block) != "" {
        if IsStandalone(block) {
          StandaloneStaysTidy(p, block);
        } else {
          TextStaysTidy(p, block, maxTokens, shown);
        }
      }
    }
  }

  /** A stray is a blank text left pending when a table or key-value block came: a document without blank texts, or
      without such blocks, has none. */
  lemma StraysNeedBlankAndTable(blocks: seq<Block>, maxTokens: nat)
    requires (forall b <- blocks :: !IsBlankBlock(b)) || (forall b <- blocks :: !IsStandalone(b))
    ensures !HasStray(blocks, maxTokens)
  {
    var shown := forall b <- blocks :: !IsBlankBlock(b);
    forall i | 0 <= i < |blocks| ensures !JoinsStray(PlanBlocks(blocks[..i], maxTokens), blocks[i], maxTokens) {
      PlanStaysTidy(blocks, i, maxTokens, shown);
    }
  }
}
