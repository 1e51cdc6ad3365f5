/**
 What `chunk_blocks` keeps over every document: the token bound, and the text.
 */
module ChunkerLaws {
  import opened Collections
  import opened Text
  import opened Cutting
  import opened Merging
  import opened LineWidths
  import opened Splitting
  import opened Tables
  import opened Chunker

  // ---- Token bound ----

  /** Only a single block can outgrow the budget, and then it is split. */
  predicate WithinBudget(g: Group, maxTokens: nat) {
    g.Gathered? && !g.path.Oversize? ==> Tokens(g.blocks) <= maxTokens
  }

  /** The invariant carried through all flush paths: what is gathered counts at most `maxTokens`. */
  predicate BudgetHeld(p: Plan, maxTokens: nat) {
    && (forall i :: 0 <= i < |p.done| ==> WithinBudget(p.done[i], maxTokens))
    && Tokens(p.pending) <= maxTokens
  }

  lemma TokensOfNone()
    ensures Tokens([]) == 0
  {
  }

  lemma AccumulateKeepsBudget(p: Plan, block: Block, maxTokens: nat)
    requires BudgetHeld(p, maxTokens)
    requires p.pending == [] || Tokens(p.pending) + EstimateTokens(ExtractText(block)) <= maxTokens
    ensures BudgetHeld(Accumulate(p, block, maxTokens), maxTokens)
  {
    TokensOfNone();
    AppendBlock(p.pending, block);
  }

  lemma TextKeepsBudget(p: Plan, block: Block, maxTokens: nat)
    requires BudgetHeld(p, maxTokens)
    ensures BudgetHeld(TakeText(p, block, maxTokens), maxTokens)
  {
    var p1 := ChangeScope(p, block.headingPath);
    assert BudgetHeld(p1, maxTokens);
    var p2 := MakeRoom(p1, block, maxTokens);
    AccumulateKeepsBudget(p2, block, maxTokens);
  }

  lemma {:induction false} PlanWithinBudget(blocks: seq<Block>, maxTokens: nat)
    ensures BudgetHeld(PlanBlocks(blocks, maxTokens), maxTokens)
  {
    if blocks == [] {
      TokensOfNone();
    } else {
      var p, block := PlanBlocks(blocks[..|blocks| - 1], maxTokens), blocks[|blocks| - 1];
      PlanWithinBudget(blocks[..|blocks| - 1], maxTokens);
      TextKeepsBudget(p, block, maxTokens);
    }
  }

  /** `k` parts counted `n` tokens together join to at most `n + k - 1`. */
  lemma JoinedTokenBound(parts: seq<string>, maxTokens: Positive)
    requires Total(parts, ESTIMATE) <= maxTokens
    ensures EstimateTokens(Strip(Join("\n", parts))) <= 2 * maxTokens - 1
  {
    TotalBoundsLength(parts);
    JoinLength(parts);
    SqueezeStrip(Join("\n", parts));
  }

  lemma GroupTokenBound(g: Group, maxTokens: Positive, counter: string -> int)
    requires WithinBudget(g, maxTokens)
    ensures forall t <- GroupTexts(g, maxTokens, counter) :: EstimateTokens(t) <= 2 * maxTokens - 1
  {
    match g {
      case Alone(b) =>
        LargeTokenBound(b, ExtractText(b), maxTokens);
      case Gathered(bs, _, path) =>
        SplitTokenBound(Join("\n", Texts(bs)), maxTokens);
        if !path.Oversize? {
          JoinedTokenBound(Texts(bs), maxTokens);
        }
    }
  }

  /** For every document, every budget `M >= 1` and every token counter, each chunk records its estimated token
      count, and that count is at most `2M - 1`. */
  lemma ChunkTokenBound(blocks: seq<Block>, maxTokens: Positive, counter: string -> int, c: Chunk)
    requires c in Chunks(blocks, maxTokens, counter)
    ensures c.tokenCount == EstimateTokens(c.text) <= 2 * maxTokens - 1
  {
    var gs := Groups(blocks, maxTokens);
    var i := FlatMapOrigin(Renderer(maxTokens, counter), gs, c);
    PlanWithinBudget(blocks, maxTokens);
    GroupTokenBound(gs[i], maxTokens, counter);
  }

  /** What the checked route adds at boundaries 2 and 3: with the default counter, and lines no longer than
      `4M + 3` characters, the group's chunks stay within `maxTokens` itself. */
  lemma {:induction false} RoutedWithinBudget(parts: seq<string>, maxTokens: Positive)
    requires LinesWithin(Join("\n", parts), 4 * maxTokens + 3)
    ensures AllWithin(RouteTexts(parts, maxTokens, ESTIMATE), maxTokens)
  {
    var joined := Join("\n", parts);
    ShortLinesFit(joined, maxTokens);
    SqueezeStrip(joined);
    assert ESTIMATE(joined) == EstimateTokens(joined);
  }

  ghost predicate RouteKeepsPromise(parts: seq<string>, maxTokens: Positive, width: nat) {
    LinesWithin(Join("\n", parts), width) ==> AllWithin(RouteTexts(parts, maxTokens, ESTIMATE), maxTokens)
  }

  lemma RouteFits(parts: seq<string>, maxTokens: Positive, width: nat)
    requires maxTokens == 1 || width <= 4 * maxTokens + 3
    ensures RouteKeepsPromise(parts, maxTokens, width)
  {
    var joined := Join("\n", parts);
    if LinesWithin(joined, width) {
      if width <= 4 * maxTokens + 3 {
        RoutedWithinBudget(parts, maxTokens);
      } else {
        SplitTokenBound(joined, maxTokens);
        SqueezeStrip(joined);
        assert ESTIMATE(joined) == EstimateTokens(joined);
      }
    }
  }

  /** A group that consists of the overrunning line is split, and overruns all the same. */
  lemma RoutedLineOverruns(maxTokens: nat, width: nat)
    requires maxTokens >= 2 && width > 4 * maxTokens + 3
    ensures RouteTexts([OverrunLine(maxTokens)], maxTokens, ESTIMATE) == [OverrunLine(maxTokens)]
    ensures !RouteKeepsPromise([OverrunLine(maxTokens)], maxTokens, width)
  {
    var line := OverrunLine(maxTokens);
    OverrunLineOverruns(maxTokens);
    SplitWithoutNewline(line);
    assert Join("\n", [line]) == line && ESTIMATE(line) == EstimateTokens(line);
    assert line in [line];
  }

  /** Under the default counter the checked route keeps `maxTokens` itself, for all groups whose joined lines have at
      most `width` characters, exactly when `maxTokens` is 1 or `width` is at most `4M + 3`. */
  lemma RoutePromiseHoldsIff(maxTokens: Positive, width: nat)
    ensures (forall parts :: RouteKeepsPromise(parts, maxTokens, width))
      <==> maxTokens == 1 || width <= 4 * maxTokens + 3
  {
    if maxTokens == 1 || width <= 4 * maxTokens + 3 {
      forall parts ensures RouteKeepsPromise(parts, maxTokens, width) {
        RouteFits(parts, maxTokens, width);
      }
    } else {
      RoutedLineOverruns(maxTokens, width);
    }
  }

  // ---- The bound is attained ----

  const SEVEN := Block("b", "text", "aaaaaaa", "", [], [])

  /** `n` text blocks of seven characters each. */
  function Sevens(n: nat): (blocks: seq<Block>)
    ensures |blocks| == n
    ensures forall i :: 0 <= i < n ==> blocks[i] == SEVEN
  {
    seq(n, i => SEVEN)
  }

  /** A text block under the current heading that fits the budget joins the pending ones. */
  lemma TextJoins(p: Plan, block: Block, maxTokens: nat)
    requires !IsStandalone(block) && ExtractText(block) != "" && block.headingPath == p.scope
    requires Tokens(p.pending) + EstimateTokens(ExtractText(block)) <= maxTokens
    ensures TakeBlock(p, block, maxTokens) == p.(pending := p.pending + [block])
  {
  }

  lemma PlanStep(blocks: seq<Block>, block: Block, maxTokens: nat)
    ensures PlanBlocks(blocks + [block], maxTokens) == TakeBlock(PlanBlocks(blocks, maxTokens), block, maxTokens)
  {
  }

  lemma {:induction false} SevensPlan(n: nat, maxTokens: nat)
    requires n <= maxTokens
    ensures PlanBlocks(Sevens(n), maxTokens) == Plan([], Sevens(n), []) && Tokens(Sevens(n)) == n
  {
    TokensOfNone();
    if n > 0 {
      SevensPlan(n - 1, maxTokens);
      assert Sevens(n) == Sevens(n - 1) + [SEVEN];
      PlanStep(Sevens(n - 1), SEVEN, maxTokens);
      AppendBlock(Sevens(n - 1), SEVEN);
      assert EstimateTokens(ExtractText(SEVEN)) == 1;
      TextJoins(Plan([], Sevens(n - 1), []), SEVEN, maxTokens);
    }
  }

  lemma {:induction false} SevensJoin(n: nat)
    requires n >= 1
    ensures
      var s := Join("\n", Texts(Sevens(n)));
      |s| == 8 * n - 1 && s[0] == 'a' && s[|s| - 1] == 'a'
  {
    if n > 1 {
      assert Texts(Sevens(n))[1..] == Texts(Sevens(n - 1));
      SevensJoin(n - 1);
    }
  }

  /** `maxTokens` blocks of seven characters become one chunk of exactly `2M - 1` tokens. */
  lemma TokenBoundIsAttained(maxTokens: Positive, counter: string -> int)
    ensures exists c :: Chunks(Sevens(maxTokens), maxTokens, counter) == [c] && c.tokenCount == 2 * maxTokens - 1
  {
    SevensPlan(maxTokens, maxTokens);
    LoneGroup(Sevens(maxTokens), maxTokens, counter);
    SevensFlush(maxTokens);
    var chunks := Stamp(FlushTexts(Texts(Sevens(maxTokens))), [], Ids(Sevens(maxTokens)));
    assert chunks == [chunks[0]];
  }

  /** A document whose blocks are all still pending at its end is flushed whole. */
  lemma LoneGroup(blocks: seq<Block>, maxTokens: Positive, counter: string -> int)
    requires blocks != [] && PlanBlocks(blocks, maxTokens) == Plan([], blocks, [])
    ensures Chunks(blocks, maxTokens, counter) == Stamp(FlushTexts(Texts(blocks)), [], Ids(blocks))
  {
    var g, none: seq<Group> := Gathered(blocks, [], Direct), [];
    assert Groups(blocks, maxTokens) == none + [g];
    assert RenderAll(none, maxTokens, counter) == [];
  }

  lemma SevensFlush(n: nat)
    requires n >= 1
    ensures |FlushTexts(Texts(Sevens(n)))| == 1 && EstimateTokens(FlushTexts(Texts(Sevens(n)))[0]) == 2 * n - 1
  {
    var s := Join("\n", Texts(Sevens(n)));
    SevensJoin(n);
    assert LStrip(s) == s && RStrip(s) == s;
  }

  // ---- Text is conserved ----

  /** The block is an oversized table split along its rows. */
  predicate TakesRowPath(b: Block, maxTokens: nat) {
    b.kind == "table" && b.rows != [] && EstimateTokens(ExtractText(b)) > maxTokens
  }

  /** The visible characters a block contributes. */
  function BlockInk(b: Block, maxTokens: nat): string {
    if TakesRowPath(b, maxTokens) then
      var header := HeaderPrefix(b.rows);
      FlatMap(EmissionInk(header), Pack(RowTexts(b.rows[1..]), header, maxTokens))
    else Squeeze(ExtractText(b))
  }

  function Inker(maxTokens: nat): Block -> string {
    (b: Block) => BlockInk(b, maxTokens)
  }

  const GROUP_BLOCKS: Group -> seq<Block> := (g: Group) => GroupBlocks(g)

  /** The blocks of the groups, in the order the groups were sent on. */
  function Planned(gs: seq<Group>): seq<Block> {
    FlatMap(GROUP_BLOCKS, gs)
  }

  lemma PlannedNext(gs: seq<Group>, g: Group)
    ensures Planned(gs + [g]) == Planned(gs) + GroupBlocks(g)
  {
  }

  function ChunkTexts(chunks: seq<Chunk>): (texts: seq<string>)
    ensures |texts| == |chunks|
    ensures forall i :: 0 <= i < |chunks| ==> texts[i] == chunks[i].text
  {
    seq(|chunks|, i requires 0 <= i < |chunks| => chunks[i].text)
  }

  /** Blocks gathered into a group are text blocks. */
  predicate IsGathering(g: Group) {
    g.Gathered? ==> forall b <- g.blocks :: !IsStandalone(b)
  }

  lemma TextsInk(blocks: seq<Block>, maxTokens: nat)
    requires forall b <- blocks :: !TakesRowPath(b, maxTokens)
    ensures FlatMap(Inker(maxTokens), blocks) == Squeeze(Concat(Texts(blocks)))
  {
    InkOfTexts(blocks, Inker(maxTokens));
  }

  lemma {:induction false} InkOfTexts(blocks: seq<Block>, ink: Block -> string)
    requires forall b <- blocks :: ink(b) == Squeeze(ExtractText(b))
    ensures FlatMap(ink, blocks) == Squeeze(Concat(Texts(blocks)))
  {
    if blocks != [] {
      var init, last := blocks[..|blocks| - 1], blocks[|blocks| - 1];
      InkOfTexts(init, ink);
      assert Texts(blocks) == Texts(init) + [ExtractText(last)];
      ConcatAppend(Texts(init), [ExtractText(last)]);
      ConcatSingle(ExtractText(last));
      SqueezeAppend(Concat(Texts(init)), ExtractText(last));
    }
  }

  /** What a flush makes of the pending parts: all their visible characters, in one text without space at its ends, or
      nothing if they show nothing. */
  lemma FlushKeepsText(parts: seq<string>)
    ensures Squeeze(Concat(FlushTexts(parts))) == Squeeze(Concat(parts))
    ensures FlushTexts(parts) == [] <==> Squeeze(Concat(parts)) == ""
    ensures |FlushTexts(parts)| <= 1
    ensures forall t <- FlushTexts(parts) :: t != "" && !IsSpace(t[0]) && !IsSpace(t[|t| - 1])
  {
    StripEnds(Join("\n", parts));
    SqueezeStrip(Join("\n", parts));
    SqueezeJoin(parts);
    SqueezeBlank(Join("\n", parts));
    ConcatSingle(Strip(Join("\n", parts)));
  }

  lemma {:induction false} AloneKeepsText(b: Block, maxTokens: Positive)
    ensures Squeeze(Concat(GroupTexts(Alone(b), maxTokens, ESTIMATE))) == BlockInk(b, maxTokens)
  {
    ConcatSingle(ExtractText(b));
    if TakesRowPath(b, maxTokens) {
      var header := HeaderPrefix(b.rows);
      TableKeepsText(Pack(RowTexts(b.rows[1..]), header, maxTokens), header, maxTokens);
    } else {
      SplitKeepsText(ExtractText(b), maxTokens);
    }
  }

  lemma JoinedSplitKeepsText(parts: seq<string>, maxTokens: Positive)
    ensures Squeeze(Concat(SplitTexts(Join("\n", parts), maxTokens))) == Squeeze(Concat(parts))
  {
    SplitKeepsText(Join("\n", parts), maxTokens);
    SqueezeJoin(parts);
  }

  lemma RouteKeepsText(parts: seq<string>, maxTokens: Positive, counter: string -> int)
    ensures Squeeze(Concat(RouteTexts(parts, maxTokens, counter))) == Squeeze(Concat(parts))
  {
    FlushKeepsText(parts);
    JoinedSplitKeepsText(parts, maxTokens);
  }

  lemma GatheredKeepsText(bs: seq<Block>, scope: seq<string>, path: Path, maxTokens: Positive, counter: string -> int)
    ensures Squeeze(Concat(GroupTexts(Gathered(bs, scope, path), maxTokens, counter))) == Squeeze(Concat(Texts(bs)))
  {
    match path {
      case Direct => FlushKeepsText(Texts(bs));
      case Routed => RouteKeepsText(Texts(bs), maxTokens, counter);
      case Oversize => JoinedSplitKeepsText(Texts(bs), maxTokens);
    }
  }

  lemma {:induction false} GroupKeepsText(g: Group, maxTokens: Positive, counter: string -> int)
    requires IsGathering(g)
    ensures Squeeze(Concat(GroupTexts(g, maxTokens, counter))) == FlatMap(Inker(maxTokens), GroupBlocks(g))
  {
    match g {
      case Alone(b) =>
        AloneKeepsText(b, maxTokens);
        FlatMapNext(Inker(maxTokens), [], b);
        assert [] + [b] == [b];
      case Gathered(bs, scope, path) =>
        GatheredKeepsText(bs, scope, path, maxTokens, counter);
        TextsInk(bs, maxTokens);
    }
  }

  lemma {:induction false} RenderedTexts(gs: seq<Group>, render: Group -> seq<Chunk>, texts: Group -> seq<string>)
    requires forall g <- gs :: ChunkTexts(render(g)) == texts(g)
    ensures ChunkTexts(FlatMap(render, gs)) == FlatMap(texts, gs)
  {
    if gs != [] {
      var init := gs[..|gs| - 1];
      RenderedTexts(init, render, texts);
      assert ChunkTexts(FlatMap(render, gs)) == ChunkTexts(FlatMap(render, init)) + ChunkTexts(render(gs[|gs| - 1]));
    }
  }

  lemma GroupsKeepText(gs: seq<Group>, maxTokens: Positive, counter: string -> int)
    requires forall i :: 0 <= i < |gs| ==> IsGathering(gs[i])
    ensures Squeeze(Concat(ChunkTexts(RenderAll(gs, maxTokens, counter)))) == FlatMap(Inker(maxTokens), Planned(gs))
  {
    var texts := (g: Group) => GroupTexts(g, maxTokens, counter);
    var groupInk := (g: Group) => FlatMap(Inker(maxTokens), GroupBlocks(g));
    RenderedTexts(gs, Renderer(maxTokens, counter), texts);
    forall g | g in gs ensures Squeeze(Concat(texts(g))) == groupInk(g) {
      GroupKeepsText(g, maxTokens, counter);
    }
    FlatMapInk(texts, groupInk, gs);
    FlatMapTwice(Inker(maxTokens), GROUP_BLOCKS, groupInk, gs);
  }

  /** The text invariant of the loop: what has been sent on and what is pending is what has been read. Stated for
      any measure that blank text blocks do not show in. */
  ghost predicate TextHeld<T>(p: Plan, blocks: seq<Block>, ink: Block -> seq<T>) {
    && (forall i :: 0 <= i < |p.done| ==> IsGathering(p.done[i]))
    && (forall b <- p.pending :: !IsStandalone(b))
    && FlatMap(ink, Planned(p.done) + p.pending) == FlatMap(ink, blocks)
  }

  ghost predicate IgnoresBlanks<T>(ink: Block -> seq<T>) {
    forall b: Block :: (!IsStandalone(b) && IsBlank(ExtractText(b))) || ExtractText(b) == "" ==> ink(b) == []
  }

  lemma {:induction false} SendKeepsText<T>(p: Plan, blocks: seq<Block>, ink: Block -> seq<T>)
    requires TextHeld(p, blocks, ink)
    ensures TextHeld(RoutePending(p), blocks, ink) && TextHeld(FlushPending(p), blocks, ink)
  {
    SendKeepsTextBy(p, blocks, ink, Routed);
    SendKeepsTextBy(p, blocks, ink, Direct);
  }

  /** Sending the pending blocks on, whichever path they take. */
  lemma SendKeepsTextBy<T>(p: Plan, blocks: seq<Block>, ink: Block -> seq<T>, path: Path)
    requires TextHeld(p, blocks, ink)
    ensures TextHeld(Plan(p.done + [Gathered(p.pending, p.scope, path)], [], p.scope), blocks, ink)
  {
    var g := Gathered(p.pending, p.scope, path);
    PlannedNext(p.done, g);
    assert Planned(p.done + [g]) + [] == Planned(p.done) + p.pending;
  }

  lemma {:induction false} BlankParts(parts: seq<string>, i: nat)
    requires Squeeze(Concat(parts)) == "" && i < |parts|
    ensures IsBlank(parts[i])
  {
    SqueezeAppend(parts[0], Concat(parts[1..]));
    SqueezeBlank(parts[0]);
    if i > 0 {
      BlankParts(parts[1..], i - 1);
    }
  }

  /** Flushing leaves only blank blocks behind. */
  lemma LeftBehindIsBlank(p: Plan, i: nat)
    requires i < |FlushPending(p).pending|
    ensures IsBlank(ExtractText(FlushPending(p).pending[i]))
  {
    FlushKeepsText(Texts(p.pending));
    BlankParts(Texts(p.pending), i);
  }

  lemma LeftBehindHasNoInk<T>(p: Plan, blocks: seq<Block>, ink: Block -> seq<T>)
    requires TextHeld(p, blocks, ink) && IgnoresBlanks(ink)
    ensures FlatMap(ink, FlushPending(p).pending) == []
  {
    var left := FlushPending(p).pending;
    forall b | b in left ensures ink(b) == [] {
      var i :| 0 <= i < |left| && left[i] == b;
      LeftBehindIsBlank(p, i);
    }
    FlatMapNothing(ink, left);
  }

  lemma AloneKeepsHeld<T>(q: Plan, blocks: seq<Block>, block: Block, ink: Block -> seq<T>)
    requires TextHeld(q, blocks, ink) && FlatMap(ink, q.pending) == []
    ensures TextHeld(Plan(q.done + [Alone(block)], q.pending, block.headingPath), blocks + [block], ink)
  {
    PlannedNext(q.done, Alone(block));
    BlankTail(Planned(q.done), q.pending, ink);
    BlankTail(Planned(q.done) + [block], q.pending, ink);
    FlatMapNext(ink, Planned(q.done), block);
    FlatMapNext(ink, blocks, block);
  }

  lemma BlankTail<T>(sent: seq<Block>, pending: seq<Block>, ink: Block -> seq<T>)
    requires FlatMap(ink, pending) == []
    ensures FlatMap(ink, sent + pending) == FlatMap(ink, sent)
  {
    FlatMapAppend(ink, sent, pending);
  }

  lemma StandaloneKeepsText<T>(p: Plan, blocks: seq<Block>, block: Block, ink: Block -> seq<T>)
    requires TextHeld(p, blocks, ink) && IgnoresBlanks(ink)
    ensures TextHeld(TakeStandalone(p, block), blocks + [block], ink)
  {
    SendKeepsText(p, blocks, ink);
    LeftBehindHasNoInk(p, blocks, ink);
    AloneKeepsHeld(FlushPending(p), blocks, block, ink);
  }

  lemma AccumulateKeepsText<T>(p: Plan, blocks: seq<Block>, block: Block, maxTokens: nat, ink: Block -> seq<T>)
    requires TextHeld(p, blocks, ink) && !IsStandalone(block)
    ensures TextHeld(Accumulate(p, block, maxTokens), blocks + [block], ink)
  {
    PlannedNext(p.done, Gathered(p.pending + [block], p.scope, Oversize));
    var before := Planned(p.done) + p.pending;
    assert before + [block] == Planned(p.done) + (p.pending + [block]);
    assert before + [block] + [] == before + [block];
    FlatMapNext(ink, before, block);
    FlatMapNext(ink, blocks, block);
  }

  lemma TextKeepsText<T>(p: Plan, blocks: seq<Block>, block: Block, maxTokens: nat, ink: Block -> seq<T>)
    requires TextHeld(p, blocks, ink) && !IsStandalone(block)
    ensures TextHeld(TakeText(p, block, maxTokens), blocks + [block], ink)
  {
    SendKeepsText(p, blocks, ink);
    var p1 := ChangeScope(p, block.headingPath);
    assert TextHeld(p1, blocks, ink);
    SendKeepsText(p1, blocks, ink);
    var p2 := MakeRoom(p1, block, maxTokens);
    AccumulateKeepsText(p2, blocks, block, maxTokens, ink);
  }

  lemma {:induction false} PlanKeepsText<T>(blocks: seq<Block>, maxTokens: nat, ink: Block -> seq<T>)
    requires IgnoresBlanks(ink)
    ensures TextHeld(PlanBlocks(blocks, maxTokens), blocks, ink)
  {
    if blocks != [] {
      var init, block := blocks[..|blocks| - 1], blocks[|blocks| - 1];
      assert blocks == init + [block];
      PlanKeepsText(init, maxTokens, ink);
      StepKeepsText(PlanBlocks(init, maxTokens), init, block, maxTokens, ink);
    }
  }

  lemma {:induction false} StepKeepsText<T>(
    p: Plan, blocks: seq<Block>, block: Block, maxTokens: nat, ink: Block -> seq<T>)
    requires TextHeld(p, blocks, ink) && IgnoresBlanks(ink)
    ensures TextHeld(TakeBlock(p, block, maxTokens), blocks + [block], ink)
  {
    if ExtractText(block) == "" {
      FlatMapNext(ink, blocks, block);
      assert FlatMap(ink, blocks) + [] == FlatMap(ink, blocks);
    } else if IsStandalone(block) {
      StandaloneKeepsText(p, blocks, block, ink);
    } else {
      TextKeepsText(p, blocks, block, maxTokens, ink);
    }
  }

  lemma InkIgnoresBlanks(maxTokens: Positive)
    ensures IgnoresBlanks(Inker(maxTokens))
  {
    forall b: Block | (!IsStandalone(b) && IsBlank(ExtractText(b))) || ExtractText(b) == ""
      ensures Inker(maxTokens)(b) == ""
    {
      SqueezeBlank(ExtractText(b));
    }
  }

  /** The visible characters of all chunks. */
  function Shown(chunks: seq<Chunk>): string {
    Squeeze(Concat(ChunkTexts(chunks)))
  }

  /** No text is lost, doubled or moved: the chunks' visible characters are those of the blocks, in order. */
  lemma {:induction false} ChunksKeepText(blocks: seq<Block>, maxTokens: Positive, counter: string -> int)
    requires forall b <- blocks :: !TakesRowPath(b, maxTokens)
    ensures Shown(Chunks(blocks, maxTokens, counter)) == Squeeze(Concat(Texts(blocks)))
  {
    ChunksKeepInk(blocks, maxTokens, counter);
    TextsInk(blocks, maxTokens);
  }

  /** The same for every document: an oversized table split along its rows contributes its rows in order, under the
      header of each packet. */
  lemma {:induction false} ChunksKeepInk(blocks: seq<Block>, maxTokens: Positive, counter: string -> int)
    ensures Shown(Chunks(blocks, maxTokens, counter)) == FlatMap(Inker(maxTokens), blocks)
  {
    var p, ink := PlanBlocks(blocks, maxTokens), Inker(maxTokens);
    InkIgnoresBlanks(maxTokens);
    PlanKeepsText(blocks, maxTokens, ink);
    PlannedNext(p.done, Gathered(p.pending, p.scope, Direct));
    assert p.done + [] == p.done && Planned(p.done) + [] == Planned(p.done);
    GroupsKeepText(Groups(blocks, maxTokens), maxTokens, counter);
  }
}
