/**
 When the pending group is sent on, and what becomes of it: one step of `chunk_blocks` after another, in terms of the
 blocks and the chunks alone.
 */
module SendingLaws {
  import opened Collections
  import opened Text
  import opened Cutting
  import opened Merging
  import opened LineWidths
  import opened Splitting
  import opened Tables
  import opened Chunker
  import opened ChunkerLaws

  /** The blocks still gathered when `blocks` have been read, and the heading they were gathered under. */
  function Gathering(blocks: seq<Block>, maxTokens: nat): seq<Block> {
    PlanBlocks(blocks, maxTokens).pending
  }

  function Heading(blocks: seq<Block>, maxTokens: nat): seq<string> {
    PlanBlocks(blocks, maxTokens).scope
  }

  /** The chunks made when `blocks` have been read, whatever follows. */
  function Made(blocks: seq<Block>, maxTokens: Positive, counter: string -> int): seq<Chunk> {
    RenderAll(PlanBlocks(blocks, maxTokens).done, maxTokens, counter)
  }

  lemma TakeGrows(p: Plan, block: Block, maxTokens: nat)
    ensures p.done <= TakeBlock(p, block, maxTokens).done
  {
  }

  lemma RenderGrows(gs: seq<Group>, hs: seq<Group>, maxTokens: Positive, counter: string -> int)
    requires gs <= hs
    ensures RenderAll(gs, maxTokens, counter) <= RenderAll(hs, maxTokens, counter)
  {
    FlatMapAppend(Renderer(maxTokens, counter), gs, hs[|gs|..]);
    assert gs + hs[|gs|..] == hs;
  }

  lemma {:induction false} PlanGrows(blocks: seq<Block>, more: seq<Block>, maxTokens: nat)
    ensures PlanBlocks(blocks, maxTokens).done <= PlanBlocks(blocks + more, maxTokens).done
    decreases |more|
  {
    if more == [] {
      assert blocks + more == blocks;
    } else {
      assert blocks + [more[0]] + more[1..] == blocks + more;
      PlanStep(blocks, more[0], maxTokens);
      TakeGrows(PlanBlocks(blocks, maxTokens), more[0], maxTokens);
      PlanGrows(blocks + [more[0]], more[1..], maxTokens);
    }
  }

  /** Chunks once made stay: those made so far begin the chunks of every document that begins with these blocks. */
  lemma MadeStays(blocks: seq<Block>, more: seq<Block>, maxTokens: Positive, counter: string -> int)
    ensures Made(blocks, maxTokens, counter) <= Made(blocks + more, maxTokens, counter)
    ensures Made(blocks, maxTokens, counter) <= Chunks(blocks + more, maxTokens, counter)
  {
    PlanGrows(blocks, more, maxTokens);
    var p, q := PlanBlocks(blocks, maxTokens), PlanBlocks(blocks + more, maxTokens);
    RenderGrows(p.done, q.done, maxTokens, counter);
    RenderGrows(p.done, Groups(blocks + more, maxTokens), maxTokens, counter);
  }

  // ---- What a group becomes ----

  /** The joined texts without space at their ends, as one text; none if they show nothing. */
  function Whole(parts: seq<string>): seq<string> {
    if IsBlank(Join("\n", parts)) then [] else [Strip(Join("\n", parts))]
  }

  /** Two neighbouring texts meet in letters or digits that belong together, or in a digit and a point. */
  predicate MeetUnsafely(parts: seq<string>) {
    exists i :: 0 <= i < |parts| - 1 && HasAtomSeam(parts[i], parts[i + 1])
  }

  lemma FlushIsWhole(parts: seq<string>)
    ensures FlushTexts(parts) == Whole(parts)
  {
    SqueezeStrip(Join("\n", parts));
  }

  lemma SeamsMeetUnsafely(parts: seq<string>)
    ensures HasUnsafeSeam(parts) <==> MeetUnsafely(parts)
  {
    forall i | 0 <= i < |parts| - 1
      ensures IsSafeJoinBoundary(parts[i], parts[i + 1]) <==> !HasAtomSeam(parts[i], parts[i + 1])
    {
      SeamMeaning(parts[i], parts[i + 1]);
    }
  }

  /** A checked group is one whole text if no neighbours meet unsafely and the joined text is within the budget;
      otherwise its texts hold no line break. Either way they show what the group shows, and under the default counter
      they keep the budget if the lines are short. */
  ghost predicate IsChecked(texts: seq<string>, parts: seq<string>, maxTokens: Positive, counter: string -> int) {
    var joined := Join("\n", parts);
    && (if MeetUnsafely(parts) || counter(joined) > maxTokens then IsBroken(texts, joined, maxTokens)
        else texts == Whole(parts))
    && (counter == ESTIMATE && LinesWithin(joined, 4 * maxTokens + 3) ==> AllWithin(texts, maxTokens))
  }

  /** The text broken at every line break, with all it shows. */
  ghost predicate IsBroken(texts: seq<string>, text: string, maxTokens: Positive) {
    && (forall t <- texts :: '\n' !in t && !IsBlank(t))
    && Squeeze(Concat(texts)) == Squeeze(text)
    && (LinesWithin(text, 4 * maxTokens + 3) ==> AllWithin(texts, maxTokens))
  }

  lemma SplitIsBroken(text: string, maxTokens: Positive)
    ensures IsBroken(SplitTexts(text, maxTokens), text, maxTokens)
  {
    SplitHasNoBreak(text, maxTokens);
    SplitTokenBound(text, maxTokens);
    SplitKeepsText(text, maxTokens);
    if LinesWithin(text, 4 * maxTokens + 3) {
      ShortLinesFit(text, maxTokens);
    }
  }

  lemma RouteIsChecked(parts: seq<string>, maxTokens: Positive, counter: string -> int)
    ensures IsChecked(RouteTexts(parts, maxTokens, counter), parts, maxTokens, counter)
  {
    SeamsMeetUnsafely(parts);
    FlushIsWhole(parts);
    SplitIsBroken(Join("\n", parts), maxTokens);
    if counter == ESTIMATE && LinesWithin(Join("\n", parts), 4 * maxTokens + 3) {
      RoutedWithinBudget(parts, maxTokens);
    }
  }

  lemma RenderNext(gs: seq<Group>, g: Group, maxTokens: Positive, counter: string -> int)
    ensures RenderAll(gs + [g], maxTokens, counter)
      == RenderAll(gs, maxTokens, counter)
       + Stamp(GroupTexts(g, maxTokens, counter), GroupScope(g), Ids(GroupBlocks(g)))
  {
    FlatMapNext(Renderer(maxTokens, counter), gs, g);
  }

  lemma OneBlock(b: Block)
    ensures Texts([b]) == [ExtractText(b)] && Ids([b]) == [b.id] && Join("\n", Texts([b])) == ExtractText(b)
  {
  }

  // ---- Text blocks ----

  predicate IsTextBlock(b: Block) {
    b.kind != "table" && b.kind != "kv" && ExtractText(b) != ""
  }

  /** The block changes the heading, or does not fit beside the pending group. */
  predicate Closes(blocks: seq<Block>, b: Block, maxTokens: nat) {
    var pending := Gathering(blocks, maxTokens);
    && pending != []
    && (b.headingPath != Heading(blocks, maxTokens)
        || Tokens(pending) + EstimateTokens(ExtractText(b)) > maxTokens)
  }

  /** A text block under the same heading that fits the budget joins the pending group, and no chunk is made. */
  lemma TextJoinsGroup(blocks: seq<Block>, b: Block, maxTokens: Positive, counter: string -> int)
    requires IsTextBlock(b) && Gathering(blocks, maxTokens) != [] && !Closes(blocks, b, maxTokens)
    ensures Made(blocks + [b], maxTokens, counter) == Made(blocks, maxTokens, counter)
    ensures Gathering(blocks + [b], maxTokens) == Gathering(blocks, maxTokens) + [b]
    ensures Heading(blocks + [b], maxTokens) == b.headingPath
  {
    PlanStep(blocks, b, maxTokens);
    TextJoins(PlanBlocks(blocks, maxTokens), b, maxTokens);
  }

  /** A text block opens a group of its own when none is pending: within the budget it waits, otherwise it is broken at
      once. */
  lemma OpenStep(p: Plan, b: Block, maxTokens: nat)
    requires IsTextBlock(b) && p.pending == []
    ensures
      TakeBlock(p, b, maxTokens) ==
      if EstimateTokens(ExtractText(b)) > maxTokens then
        Plan(p.done + [Gathered([b], b.headingPath, Oversize)], [], b.headingPath)
      else Plan(p.done, [b], b.headingPath)
  {
    TokensOfNone();
    AppendBlock([], b);
    assert [] + [b] == [b];
  }

  /** What opening makes: nothing within the budget, the broken block otherwise. */
  ghost predicate IsOpened(own: seq<string>, b: Block, pending: seq<Block>, maxTokens: Positive) {
    if EstimateTokens(ExtractText(b)) > maxTokens then pending == [] && IsBroken(own, ExtractText(b), maxTokens)
    else pending == [b] && own == []
  }

  lemma Opening(p: Plan, b: Block, maxTokens: Positive, counter: string -> int) returns (own: seq<string>)
    requires IsTextBlock(b) && p.pending == []
    ensures
      var q := TakeBlock(p, b, maxTokens);
      && RenderAll(q.done, maxTokens, counter)
         == RenderAll(p.done, maxTokens, counter) + Stamp(own, b.headingPath, [b.id])
      && IsOpened(own, b, q.pending, maxTokens) && q.scope == b.headingPath
  {
    OpenStep(p, b, maxTokens);
    own := Opened(p, TakeBlock(p, b, maxTokens), b, maxTokens, counter);
  }

  lemma Opened(p: Plan, q: Plan, b: Block, maxTokens: Positive, counter: string -> int) returns (own: seq<string>)
    requires q ==
      if EstimateTokens(ExtractText(b)) > maxTokens then
        Plan(p.done + [Gathered([b], b.headingPath, Oversize)], [], b.headingPath)
      else Plan(p.done, [b], b.headingPath)
    ensures RenderAll(q.done, maxTokens, counter)
      == RenderAll(p.done, maxTokens, counter) + Stamp(own, b.headingPath, [b.id])
    ensures IsOpened(own, b, q.pending, maxTokens)
  {
    OneBlock(b);
    if EstimateTokens(ExtractText(b)) > maxTokens {
      own := SplitTexts(ExtractText(b), maxTokens);
      SplitIsBroken(ExtractText(b), maxTokens);
      RenderNext(p.done, Gathered([b], b.headingPath, Oversize), maxTokens, counter);
    } else {
      own := [];
      assert RenderAll(p.done, maxTokens, counter) + [] == RenderAll(p.done, maxTokens, counter);
    }
  }

  lemma TextOpensGroup(blocks: seq<Block>, b: Block, maxTokens: Positive, counter: string -> int)
    returns (own: seq<string>)
    requires IsTextBlock(b) && Gathering(blocks, maxTokens) == []
    ensures Made(blocks + [b], maxTokens, counter)
      == Made(blocks, maxTokens, counter) + Stamp(own, b.headingPath, [b.id])
    ensures IsOpened(own, b, Gathering(blocks + [b], maxTokens), maxTokens)
    ensures Heading(blocks + [b], maxTokens) == b.headingPath
  {
    PlanStep(blocks, b, maxTokens);
    own := Opening(PlanBlocks(blocks, maxTokens), b, maxTokens, counter);
  }

  /** The plan in which the pending blocks have been sent on. */
  function AfterSending(p: Plan, b: Block): Plan {
    Plan(p.done + [Gathered(p.pending, p.scope, Routed)], [], b.headingPath)
  }

  lemma CloseStep(p: Plan, b: Block, maxTokens: nat)
    requires IsTextBlock(b) && p.pending != []
    requires b.headingPath != p.scope || Tokens(p.pending) + EstimateTokens(ExtractText(b)) > maxTokens
    ensures TakeBlock(p, b, maxTokens) == TakeBlock(AfterSending(p, b), b, maxTokens)
  {
    TokensOfNone();
  }

  /** A text block that changes the heading or does not fit closes the pending group: the group becomes checked texts
      under its own heading, and the block opens the next. */
  lemma TextClosesGroup(blocks: seq<Block>, b: Block, maxTokens: Positive, counter: string -> int)
    returns (texts: seq<string>, own: seq<string>)
    requires IsTextBlock(b) && Closes(blocks, b, maxTokens)
    ensures IsChecked(texts, Texts(Gathering(blocks, maxTokens)), maxTokens, counter)
    ensures Made(blocks + [b], maxTokens, counter)
      == Made(blocks, maxTokens, counter)
       + Stamp(texts, Heading(blocks, maxTokens), Ids(Gathering(blocks, maxTokens)))
       + Stamp(own, b.headingPath, [b.id])
    ensures IsOpened(own, b, Gathering(blocks + [b], maxTokens), maxTokens)
    ensures Heading(blocks + [b], maxTokens) == b.headingPath
  {
    var p := PlanBlocks(blocks, maxTokens);
    var q := AfterSending(p, b);
    texts := RouteTexts(Texts(p.pending), maxTokens, counter);
    RouteIsChecked(Texts(p.pending), maxTokens, counter);
    PlanStep(blocks, b, maxTokens);
    CloseStep(p, b, maxTokens);
    RenderNext(p.done, Gathered(p.pending, p.scope, Routed), maxTokens, counter);
    own := Opening(q, b, maxTokens, counter);
  }

  // ---- Tables, key-value blocks and the end ----

  /** Before a table or key-value block the pending group is flushed whole, unless it shows nothing and stays; the block
      itself comes out verbatim if it is within the budget. Over it, a table with rows is split by its rows under its
      header, and anything else is broken. */
  lemma StandaloneFlushes(blocks: seq<Block>, b: Block, maxTokens: Positive, counter: string -> int)
    returns (texts: seq<string>)
    requires (b.kind == "table" || b.kind == "kv") && ExtractText(b) != ""
    ensures
      var pending := Gathering(blocks, maxTokens);
      && Made(blocks + [b], maxTokens, counter)
         == Made(blocks, maxTokens, counter)
          + Stamp(Whole(Texts(pending)), Heading(blocks, maxTokens), Ids(pending))
          + Stamp(texts, b.headingPath, [b.id])
      && Gathering(blocks + [b], maxTokens) == (if Whole(Texts(pending)) == [] then pending else [])
      && Heading(blocks + [b], maxTokens) == b.headingPath
    ensures EstimateTokens(ExtractText(b)) <= maxTokens ==> texts == [ExtractText(b)]
    ensures EstimateTokens(ExtractText(b)) > maxTokens && !(b.kind == "table" && b.rows != []) ==>
      IsBroken(texts, ExtractText(b), maxTokens)
    ensures EstimateTokens(ExtractText(b)) > maxTokens && b.kind == "table" && b.rows != [] ==>
      var header := HeaderPrefix(b.rows);
      texts == FlatMap(Emitter(header, maxTokens), Pack(RowTexts(b.rows[1..]), header, maxTokens))
  {
    var p := PlanBlocks(blocks, maxTokens);
    texts := GroupTexts(Alone(b), maxTokens, counter);
    PlanStep(blocks, b, maxTokens);
    FlushMade(p, maxTokens, counter);
    OneBlock(b);
    RenderNext(FlushPending(p).done, Alone(b), maxTokens, counter);
    SplitIsBroken(ExtractText(b), maxTokens);
  }

  /** A table or key-value block within the budget ends the chunks made so far as one chunk: its preview, or its raw
      text if it has none, under its own heading. */
  lemma SmallBlockIsOneChunk(
    blocks: seq<Block>, b: Block, text: string, maxTokens: Positive, counter: string -> int)
    requires (b.kind == "table" || b.kind == "kv") && text != "" && |text| <= 4 * maxTokens + 3
    requires text == b.mdPreview || (b.mdPreview == "" && text == b.raw)
    ensures
      var made := Made(blocks + [b], maxTokens, counter);
      made != [] && made[|made| - 1] == Chunk(text, b.headingPath, [b.id], if |text| < 8 then 1 else |text| / 4)
  {
    var texts := StandaloneFlushes(blocks, b, maxTokens, counter);
    assert texts == [text];
  }

  lemma FlushMade(p: Plan, maxTokens: Positive, counter: string -> int)
    ensures RenderAll(FlushPending(p).done, maxTokens, counter)
      == RenderAll(p.done, maxTokens, counter) + Stamp(Whole(Texts(p.pending)), p.scope, Ids(p.pending))
    ensures FlushPending(p).pending == if Whole(Texts(p.pending)) == [] then p.pending else []
  {
    FlushIsWhole(Texts(p.pending));
    RenderNext(p.done, Gathered(p.pending, p.scope, Direct), maxTokens, counter);
    assert RenderAll(p.done, maxTokens, counter) + [] == RenderAll(p.done, maxTokens, counter);
  }

  /** At the end of the document the pending group is flushed whole. */
  lemma EndFlushes(blocks: seq<Block>, maxTokens: Positive, counter: string -> int)
    ensures
      var pending := Gathering(blocks, maxTokens);
      Chunks(blocks, maxTokens, counter)
      == Made(blocks, maxTokens, counter) + Stamp(Whole(Texts(pending)), Heading(blocks, maxTokens), Ids(pending))
  {
    var p := PlanBlocks(blocks, maxTokens);
    FlushIsWhole(Texts(p.pending));
    FlatMapNext(Renderer(maxTokens, counter), p.done, Gathered(p.pending, p.scope, Direct));
    assert p.done + [] == p.done;
    if p.pending == [] {
      assert Texts(p.pending) == [] && Whole([]) == [];
      assert Made(blocks, maxTokens, counter) + [] == Made(blocks, maxTokens, counter);
    }
  }

  /** A block without text changes nothing; and before the first block nothing is pending. */
  lemma EmptyBlockIsSkipped(blocks: seq<Block>, b: Block, maxTokens: Positive, counter: string -> int)
    requires ExtractText(b) == ""
    ensures Made(blocks + [b], maxTokens, counter) == Made(blocks, maxTokens, counter)
    ensures Gathering(blocks + [b], maxTokens) == Gathering(blocks, maxTokens)
    ensures Heading(blocks + [b], maxTokens) == Heading(blocks, maxTokens)
    ensures Made([], maxTokens, counter) == [] && Gathering([], maxTokens) == [] && Heading([], maxTokens) == []
  {
    PlanStep(blocks, b, maxTokens);
  }
}
