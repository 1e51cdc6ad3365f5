/**
 The tie between a chunk and the blocks it came from: which documents keep it, and which break it.
 */
module SourceLaws {
  import opened Collections
  import opened Text
  import opened Cutting
  import opened Merging
  import opened Splitting
  import opened Chunker
  import opened ChunkerLaws

  /** A text block that shows nothing. */
  predicate IsBlankBlock(b: Block) {
    !IsStandalone(b) && ExtractText(b) != "" && IsBlank(ExtractText(b))
  }

  /** A block that can be seen in a chunk: a table or key-value block with text, or a text block that is not blank. */
  predicate IsVisible(b: Block) {
    ExtractText(b) != "" && !IsBlankBlock(b)
  }

  const VISIBLE: Block -> seq<Block> := (b: Block) => if IsVisible(b) then [b] else []

  function Visible(blocks: seq<Block>): seq<Block> {
    FlatMap(VISIBLE, blocks)
  }

  /** One table or key-value block, or a run of text blocks under the group's own heading path. */
  predicate IsFaithful(g: Group) {
    match g
    case Alone(b) => IsStandalone(b) && IsVisible(b)
    case Gathered(bs, scope, _) =>
      bs != [] && forall b <- bs :: !IsStandalone(b) && IsVisible(b) && b.headingPath == scope
  }

  /** A lone blank block. */
  predicate IsQuiet(blocks: seq<Block>) {
    |blocks| == 1 && IsBlankBlock(blocks[0])
  }

  predicate IsSilent(g: Group) {
    g.Gathered? && IsQuiet(g.blocks)
  }

  /** A blank text small enough for another text to join it. */
  predicate Lingers(w: string, maxTokens: nat) {
    w != "" && IsBlank(w) && EstimateTokens(w) < maxTokens
  }

  predicate IsLingering(b: Block, maxTokens: nat) {
    !IsStandalone(b) && Lingers(ExtractText(b), maxTokens)
  }

  const HEARD: Group -> seq<Group> := (g: Group) => if IsSilent(g) then [] else [g]

  /** The groups that can produce chunks. */
  function Heard(gs: seq<Group>): seq<Group> {
    FlatMap(HEARD, gs)
  }

  lemma BlankSplitsToNothing(text: string, maxTokens: Positive)
    requires IsBlank(text)
    ensures SplitTexts(text, maxTokens) == []
  {
    var texts := SplitTexts(text, maxTokens);
    SplitKeepsText(text, maxTokens);
    SplitTokenBound(text, maxTokens);
    SqueezeBlank(text);
    if texts != [] {
      BlankParts(texts, 0);
    }
  }

  lemma SilentRendersNothing(g: Group, maxTokens: Positive, counter: string -> int)
    requires IsSilent(g)
    ensures Render(g, maxTokens, counter) == []
  {
    var parts := Texts(g.blocks);
    var text := ExtractText(g.blocks[0]);
    assert parts == [text] && Join("\n", parts) == text;
    SqueezeStrip(text);
    BlankSplitsToNothing(text, maxTokens);
  }

  lemma {:induction false} HeardRendersAll(gs: seq<Group>, maxTokens: Positive, counter: string -> int)
    ensures RenderAll(Heard(gs), maxTokens, counter) == RenderAll(gs, maxTokens, counter)
  {
    var render := Renderer(maxTokens, counter);
    var heard := (g: Group) => FlatMap(render, HEARD(g));
    FlatMapTwice(render, HEARD, heard, gs);
    forall g | g in gs ensures heard(g) == render(g) {
      if IsSilent(g) {
        SilentRendersNothing(g, maxTokens, counter);
      } else {
        FlatMapNext(render, [], g);
        assert [] + [g] == [g];
      }
    }
    FlatMapSame(heard, render, gs);
  }

  // ---- The invariant ----

  predicate PendingFaithful(p: Plan) {
    forall b <- p.pending :: !IsStandalone(b) && IsVisible(b) && b.headingPath == p.scope
  }

  predicate AllFaithful(gs: seq<Group>) {
    forall i :: 0 <= i < |gs| ==> IsFaithful(gs[i]) || IsSilent(gs[i])
  }

  lemma AllFaithfulNext(gs: seq<Group>, g: Group)
    requires AllFaithful(gs) && (IsFaithful(g) || IsSilent(g))
    ensures AllFaithful(gs + [g])
  {
  }

  /** The pending blocks still to be heard of. */
  function Owed(pending: seq<Block>): seq<Block> {
    if IsQuiet(pending) then [] else pending
  }

  /** Groups sent on are faithful or silent; what is pending is faithful, or one blank block that fills the budget. */
  ghost predicate SourcesHeld(p: Plan, blocks: seq<Block>, maxTokens: nat) {
    && AllFaithful(p.done)
    && (PendingFaithful(p) || (IsQuiet(p.pending) && Tokens(p.pending) >= maxTokens))
    && Planned(Heard(p.done)) + Owed(p.pending) == Visible(blocks)
  }

  lemma VisibleNext(blocks: seq<Block>, b: Block)
    ensures Visible(blocks + [b]) == Visible(blocks) + (if IsVisible(b) then [b] else [])
  {
  }

  lemma HeardNext(gs: seq<Group>, g: Group)
    ensures Planned(Heard(gs + [g])) == Planned(Heard(gs)) + (if IsSilent(g) then [] else GroupBlocks(g))
  {
    FlatMapNext(HEARD, gs, g);
    if !IsSilent(g) {
      PlannedNext(Heard(gs), g);
    } else {
      assert Heard(gs) + [] == Heard(gs);
    }
  }

  /** Sending the pending blocks on, whichever path they take. */
  lemma SendKeepsSourcesBy(p: Plan, blocks: seq<Block>, maxTokens: nat, path: Path)
    requires SourcesHeld(p, blocks, maxTokens) && p.pending != []
    ensures SourcesHeld(Plan(p.done + [Gathered(p.pending, p.scope, path)], [], p.scope), blocks, maxTokens)
  {
    var g := Gathered(p.pending, p.scope, path);
    HeardNext(p.done, g);
    assert IsFaithful(g) || IsSilent(g);
    AllFaithfulNext(p.done, g);
    assert Planned(Heard(p.done + [g])) + [] == Planned(Heard(p.done)) + Owed(p.pending);
  }

  lemma SendKeepsSources(p: Plan, blocks: seq<Block>, maxTokens: nat)
    requires SourcesHeld(p, blocks, maxTokens)
    ensures SourcesHeld(RoutePending(p), blocks, maxTokens) && RoutePending(p).pending == []
  {
    if p.pending != [] {
      SendKeepsSourcesBy(p, blocks, maxTokens, Routed);
    }
  }

  lemma FlushKeepsSources(p: Plan, blocks: seq<Block>, maxTokens: nat)
    requires SourcesHeld(p, blocks, maxTokens)
    ensures SourcesHeld(FlushPending(p), blocks, maxTokens)
    ensures FlushPending(p).pending == [] || IsQuiet(FlushPending(p).pending)
  {
    if FlushTexts(Texts(p.pending)) == [] {
      if p.pending != [] {
        LeftBehindIsBlank(p, 0);
      }
    } else {
      assert p.pending == [] ==> Texts(p.pending) == [];
      SendKeepsSourcesBy(p, blocks, maxTokens, Direct);
    }
  }

  lemma AloneKeepsSources(q: Plan, blocks: seq<Block>, block: Block, maxTokens: nat)
    requires SourcesHeld(q, blocks, maxTokens) && (q.pending == [] || IsQuiet(q.pending))
    requires IsStandalone(block) && ExtractText(block) != ""
    ensures SourcesHeld(Plan(q.done + [Alone(block)], q.pending, block.headingPath), blocks + [block], maxTokens)
  {
    HeardNext(q.done, Alone(block));
    AllFaithfulNext(q.done, Alone(block));
    VisibleNext(blocks, block);
    assert Owed(q.pending) == [];
  }

  lemma AccumulateBlank(p: Plan, blocks: seq<Block>, block: Block, maxTokens: nat)
    requires SourcesHeld(p, blocks, maxTokens) && p.pending == []
    requires IsBlankBlock(block) && EstimateTokens(ExtractText(block)) >= maxTokens
    ensures SourcesHeld(Accumulate(p, block, maxTokens), blocks + [block], maxTokens)
  {
    var g := Gathered([block], p.scope, Oversize);
    VisibleNext(blocks, block);
    HeardNext(p.done, g);
    AllFaithfulNext(p.done, g);
    TokensOfNone();
    AppendBlock([], block);
    assert [] + [block] == [block] == p.pending + [block];
    assert Owed([block]) == [] == Owed([]);
    assert Accumulate(p, block, maxTokens) in {Plan(p.done + [g], [], p.scope), Plan(p.done, [block], p.scope)};
  }

  lemma GrowKeepsSources(p: Plan, blocks: seq<Block>, block: Block, maxTokens: nat) returns (grown: Plan)
    requires SourcesHeld(p, blocks, maxTokens) && PendingFaithful(p)
    requires !IsStandalone(block) && IsVisible(block) && block.headingPath == p.scope
    ensures grown == p.(pending := p.pending + [block]) && SourcesHeld(grown, blocks + [block], maxTokens)
  {
    grown := p.(pending := p.pending + [block]);
    assert PendingFaithful(grown);
    VisibleNext(blocks, block);
    assert Planned(Heard(p.done)) + Owed(grown.pending) == Visible(blocks + [block]);
  }

  lemma ChangeKeepsSources(p: Plan, blocks: seq<Block>, scope: seq<string>, maxTokens: nat)
    requires SourcesHeld(p, blocks, maxTokens)
    ensures SourcesHeld(ChangeScope(p, scope), blocks, maxTokens) && ChangeScope(p, scope).scope == scope
  {
    SendKeepsSources(p, blocks, maxTokens);
  }

  /** A blank block that fills the budget is sent on before the next text joins; nor does it join others. */
  lemma RoomKeepsSources(p: Plan, blocks: seq<Block>, block: Block, maxTokens: nat)
    requires SourcesHeld(p, blocks, maxTokens)
    ensures SourcesHeld(MakeRoom(p, block, maxTokens), blocks, maxTokens)
    ensures MakeRoom(p, block, maxTokens).scope == p.scope && PendingFaithful(MakeRoom(p, block, maxTokens))
    ensures EstimateTokens(ExtractText(block)) >= maxTokens ==> MakeRoom(p, block, maxTokens).pending == []
  {
    SendKeepsSources(p, blocks, maxTokens);
    TotalBoundsLength(Texts(p.pending));
  }

  lemma TextKeepsSources(p: Plan, blocks: seq<Block>, block: Block, maxTokens: nat)
    requires SourcesHeld(p, blocks, maxTokens) && BudgetHeld(p, maxTokens)
    requires !IsStandalone(block) && ExtractText(block) != "" && !IsLingering(block, maxTokens)
    ensures SourcesHeld(TakeText(p, block, maxTokens), blocks + [block], maxTokens)
  {
    var p1 := ChangeScope(p, block.headingPath);
    ChangeKeepsSources(p, blocks, block.headingPath, maxTokens);
    var p2 := MakeRoom(p1, block, maxTokens);
    RoomKeepsSources(p1, blocks, block, maxTokens);
    if IsBlankBlock(block) {
      AccumulateBlank(p2, blocks, block, maxTokens);
    } else {
      var grown := GrowKeepsSources(p2, blocks, block, maxTokens);
      SendKeepsSourcesBy(grown, blocks + [block], maxTokens, Oversize);
    }
  }

  lemma {:induction false} PlanKeepsSources(blocks: seq<Block>, maxTokens: nat)
    requires forall b <- blocks :: !IsLingering(b, maxTokens)
    ensures SourcesHeld(PlanBlocks(blocks, maxTokens), blocks, maxTokens)
  {
    if blocks != [] {
      var init, block := blocks[..|blocks| - 1], blocks[|blocks| - 1];
      assert blocks == init + [block];
      PlanKeepsSources(init, maxTokens);
      PlanWithinBudget(init, maxTokens);
      StepKeepsSources(PlanBlocks(init, maxTokens), init, block, maxTokens);
    }
  }

  lemma StepKeepsSources(p: Plan, blocks: seq<Block>, block: Block, maxTokens: nat)
    requires SourcesHeld(p, blocks, maxTokens) && BudgetHeld(p, maxTokens) && !IsLingering(block, maxTokens)
    ensures SourcesHeld(TakeBlock(p, block, maxTokens), blocks + [block], maxTokens)
  {
    if ExtractText(block) == "" {
      VisibleNext(blocks, block);
    } else if IsStandalone(block) {
      FlushKeepsSources(p, blocks, maxTokens);
      AloneKeepsSources(FlushPending(p), blocks, block, maxTokens);
    } else {
      TextKeepsSources(p, blocks, block, maxTokens);
    }
  }

  lemma LastFlushKeepsSources(p: Plan, blocks: seq<Block>, maxTokens: nat)
    requires SourcesHeld(p, blocks, maxTokens)
    ensures
      var gs := p.done + (if p.pending == [] then [] else [Gathered(p.pending, p.scope, Direct)]);
      && Planned(Heard(gs)) == Visible(blocks)
      && AllFaithful(gs)
  {
    var last := Gathered(p.pending, p.scope, Direct);
    HeardNext(p.done, last);
    if p.pending == [] {
      assert p.done + [] == p.done;
    } else {
      assert IsFaithful(last) || IsSilent(last);
    }
  }

  /** When no blank text block lingers, the chunks are those of groups that divide the visible blocks into
      consecutive runs, in input order: tables and key-value blocks alone, text blocks only with their own heading
      path. */
  lemma {:induction false} UnlingeringRuns(blocks: seq<Block>, maxTokens: Positive, counter: string -> int)
    requires forall b <- blocks :: !IsLingering(b, maxTokens)
    ensures
      var gs := Heard(Groups(blocks, maxTokens));
      && Chunks(blocks, maxTokens, counter) == RenderAll(gs, maxTokens, counter)
      && Planned(gs) == Visible(blocks)
      && forall i :: 0 <= i < |gs| ==> IsFaithful(gs[i])
  {
    var gs := Groups(blocks, maxTokens);
    PlanKeepsSources(blocks, maxTokens);
    LastFlushKeepsSources(PlanBlocks(blocks, maxTokens), blocks, maxTokens);
    HeardRendersAll(gs, maxTokens, counter);
    forall i | 0 <= i < |Heard(gs)| ensures IsFaithful(Heard(gs)[i]) {
      HeardIsFaithful(gs, i);
    }
  }

  lemma HeardIsFaithful(gs: seq<Group>, i: nat)
    requires AllFaithful(gs) && i < |Heard(gs)|
    ensures IsFaithful(Heard(gs)[i])
  {
    var k := FlatMapOrigin(HEARD, gs, Heard(gs)[i]);
    assert HEARD(gs[k]) == [Heard(gs)[i]];
  }

  // ---- Chunk by chunk ----

  /** The chunk names blocks of the document, all under the chunk's own scope. */
  ghost predicate KeepsScope(c: Chunk, blocks: seq<Block>) {
    exists run: seq<Block> :: c.sources == Ids(run) && AllUnder(run, blocks, c.scopePath)
  }

  predicate AllUnder(run: seq<Block>, blocks: seq<Block>, scope: seq<string>) {
    forall b <- run :: b in blocks && b.headingPath == scope
  }

  lemma VisibleAreBlocks(blocks: seq<Block>, b: Block)
    requires b in Visible(blocks)
    ensures b in blocks && IsVisible(b)
  {
    var i := FlatMapOrigin(VISIBLE, blocks, b);
  }

  lemma UnlingeringChunk(blocks: seq<Block>, maxTokens: Positive, counter: string -> int, c: Chunk)
    requires forall b <- blocks :: !IsLingering(b, maxTokens)
    requires c in Chunks(blocks, maxTokens, counter)
    ensures KeepsScope(c, blocks)
  {
    var gs := Heard(Groups(blocks, maxTokens));
    UnlingeringRuns(blocks, maxTokens, counter);
    var i := FlatMapOrigin(Renderer(maxTokens, counter), gs, c);
    var run := GroupBlocks(gs[i]);
    assert IsFaithful(gs[i]);
    forall b | b in run ensures b in blocks && b.headingPath == c.scopePath {
      FlatMapHolds(GROUP_BLOCKS, gs, i, b);
      VisibleAreBlocks(blocks, b);
    }
    assert c.sources == Ids(run) && AllUnder(run, blocks, c.scopePath);
  }

  // ---- Exactly which blank texts break the tie ----

  /** Text blocks of the document are empty, visible, or carry the text `w`. */
  predicate BlankOnlyAs(blocks: seq<Block>, w: string) {
    forall b <- blocks :: IsBlankBlock(b) ==> ExtractText(b) == w
  }

  ghost predicate AllKeepScope(blocks: seq<Block>, maxTokens: Positive, counter: string -> int) {
    forall c <- Chunks(blocks, maxTokens, counter) :: KeepsScope(c, blocks)
  }

  /** A blank text under one heading, then a table and a text under another. */
  function Straying(w: string): seq<Block> {
    var table, text := Block("b", "table", "t", "", [], ["B"]), Block("c", "text", "x", "", [], ["B"]);
    [Block("a", "text", w, "", [], ["A"]), table, text]
  }

  lemma StrayingStart(b: Block, maxTokens: nat)
    requires IsLingering(b, maxTokens)
    ensures TakeBlock(Plan([], [], []), b, maxTokens) == Plan([], [b], b.headingPath)
  {
  }

  /** The flush before a table leaves a lone blank block pending. */
  lemma StrayingTable(b: Block, scope: seq<string>, table: Block, maxTokens: nat)
    requires IsLingering(b, maxTokens) && IsStandalone(table) && ExtractText(table) != ""
    ensures TakeBlock(Plan([], [b], scope), table, maxTokens) == Plan([Alone(table)], [b], table.headingPath)
  {
    assert Texts([b]) == [ExtractText(b)];
    SqueezeStrip(ExtractText(b));
    assert FlushTexts(Texts([b])) == [];
    assert [] + [Alone(table)] == [Alone(table)];
  }

  lemma StrayingPlan(w: string, maxTokens: nat)
    requires Lingers(w, maxTokens)
    ensures
      var s := Straying(w);
      PlanBlocks(s, maxTokens) == Plan([Alone(s[1])], [s[0], s[2]], ["B"])
  {
    var s := Straying(w);
    assert [] + [s[0]] == [s[0]] && [s[0]] + [s[1]] == [s[0], s[1]] && [s[0], s[1]] + [s[2]] == s;
    PlanStep([], s[0], maxTokens);
    StrayingStart(s[0], maxTokens);
    PlanStep([s[0]], s[1], maxTokens);
    StrayingTable(s[0], ["A"], s[1], maxTokens);
    PlanStep([s[0], s[1]], s[2], maxTokens);
    TokensOfNone();
    AppendBlock([], s[0]);
    assert EstimateTokens("x") == 1;
    TextJoins(Plan([Alone(s[1])], [s[0]], ["B"]), s[2], maxTokens);
    assert [s[0]] + [s[2]] == [s[0], s[2]];
  }

  lemma StrayingFlush(w: string)
    ensures FlushTexts([w, "x"]) != []
  {
    FlushKeepsText([w, "x"]);
    assert [w, "x"] == [w] + ["x"];
    ConcatAppend([w], ["x"]);
    ConcatSingle(w);
    ConcatSingle("x");
    SqueezeAppend(w, "x");
    assert Squeeze("x") == "x";
  }

  lemma StrayingRenders(w: string, maxTokens: nat, counter: string -> int)
    requires Lingers(w, maxTokens)
    ensures exists t, n :: Chunk(t, ["B"], ["a", "c"], n) in Chunks(Straying(w), maxTokens, counter)
  {
    var s := Straying(w);
    StrayingPlan(w, maxTokens);
    var last := Gathered([s[0], s[2]], ["B"], Direct);
    var gs := Groups(s, maxTokens);
    assert gs == [Alone(s[1]), last];
    assert Texts([s[0], s[2]]) == [w, "x"] && Ids([s[0], s[2]]) == ["a", "c"];
    StrayingFlush(w);
    var c := Render(last, maxTokens, counter)[0];
    FlatMapHolds(Renderer(maxTokens, counter), gs, 1, c);
    assert c == Chunk(c.text, ["B"], ["a", "c"], c.tokenCount);
  }

  lemma StrayingScope(w: string, text: string, n: nat)
    ensures BlankOnlyAs(Straying(w), w) && !KeepsScope(Chunk(text, ["B"], ["a", "c"], n), Straying(w))
  {
    var s, sources := Straying(w), ["a", "c"];
    assert s[0].headingPath[0] == "A" && s[1].id[0] == 'b' && s[2].id[0] == 'c';
    forall run: seq<Block> | sources == Ids(run) ensures !AllUnder(run, s, ["B"]) {
      assert run[0].id == sources[0] == "a" && run[0] in run;
    }
  }

  lemma StrayingBreaks(w: string, maxTokens: nat, counter: string -> int)
    requires Lingers(w, maxTokens)
    ensures BlankOnlyAs(Straying(w), w) && !AllKeepScope(Straying(w), maxTokens, counter)
  {
    StrayingRenders(w, maxTokens, counter);
    var t, n :| Chunk(t, ["B"], ["a", "c"], n) in Chunks(Straying(w), maxTokens, counter);
    StrayingScope(w, t, n);
  }

  lemma UnlingeringKeepsScope(w: string, maxTokens: Positive, counter: string -> int, blocks: seq<Block>)
    requires BlankOnlyAs(blocks, w)
    requires !Lingers(w, maxTokens)
    ensures AllKeepScope(blocks, maxTokens, counter)
  {
    forall c | c in Chunks(blocks, maxTokens, counter) ensures KeepsScope(c, blocks) {
      UnlingeringChunk(blocks, maxTokens, counter, c);
    }
  }

  /** `chunk_blocks` promises that a chunk's scope is the heading path of its blocks. Among documents whose blank
      text blocks all carry the text `w`, it keeps that promise exactly when `w` is not a non-empty blank text of
      fewer than `maxTokens` tokens: such a block is left pending by the flush before a table, and joins whatever
      text comes after. */
  lemma ScopeKeptIff(w: string, maxTokens: Positive, counter: string -> int)
    ensures (forall blocks :: BlankOnlyAs(blocks, w) ==> AllKeepScope(blocks, maxTokens, counter))
      <==> !Lingers(w, maxTokens)
  {
    if Lingers(w, maxTokens) {
      StrayingBreaks(w, maxTokens, counter);
    } else {
      forall blocks | BlankOnlyAs(blocks, w) ensures AllKeepScope(blocks, maxTokens, counter) {
        UnlingeringKeepsScope(w, maxTokens, counter, blocks);
      }
    }
  }
}
