/**
 What holds in every document for the blocks that show text: each comes out under its own heading, in input order. Only
 blank blocks can stray.
 */
module ShownLaws {
  import opened Collections
  import opened Text
  import opened Splitting
  import opened Chunker
  import opened ChunkerLaws
  import opened SourceLaws

  /** Text blocks of which those that show text are from under the heading. */
  predicate OwnsShown(bs: seq<Block>, scope: seq<string>) {
    forall b <- bs :: !IsStandalone(b) && (!IsBlank(ExtractText(b)) ==> b.headingPath == scope)
  }

  /** One table or key-value block, or a run of text blocks of which those that show text are from under the group's own
      heading. */
  predicate KeepsShown(g: Group) {
    match g
    case Alone(b) => IsStandalone(b) && ExtractText(b) != ""
    case Gathered(bs, scope, _) => bs != [] && OwnsShown(bs, scope)
  }

  // ---- The invariant ----

  predicate ShownHeld(p: Plan) {
    (forall i :: 0 <= i < |p.done| ==> KeepsShown(p.done[i])) && OwnsShown(p.pending, p.scope)
  }

  lemma FlushKeepsShown(p: Plan)
    requires ShownHeld(p)
    ensures ShownHeld(FlushPending(p)) && forall b <- FlushPending(p).pending :: IsBlank(ExtractText(b))
  {
    var left := FlushPending(p).pending;
    assert p.pending == [] ==> Texts(p.pending) == [];
    forall b | b in left ensures IsBlank(ExtractText(b)) {
      var i :| 0 <= i < |left| && left[i] == b;
      LeftBehindIsBlank(p, i);
    }
  }

  lemma StandaloneKeepsShown(p: Plan, block: Block)
    requires ShownHeld(p) && IsStandalone(block) && ExtractText(block) != ""
    ensures ShownHeld(TakeStandalone(p, block))
  {
    FlushKeepsShown(p);
  }

  lemma RouteKeepsShown(p: Plan)
    requires ShownHeld(p)
    ensures ShownHeld(RoutePending(p)) && RoutePending(p).pending == []
  {
  }

  lemma AccumulateKeepsShown(p: Plan, block: Block, maxTokens: nat)
    requires ShownHeld(p) && !IsStandalone(block) && block.headingPath == p.scope
    ensures ShownHeld(Accumulate(p, block, maxTokens))
  {
    assert OwnsShown(p.pending + [block], p.scope);
  }

  lemma TextKeepsShown(p: Plan, block: Block, maxTokens: nat)
    requires ShownHeld(p) && !IsStandalone(block)
    ensures ShownHeld(TakeText(p, block, maxTokens))
  {
    RouteKeepsShown(p);
    var p1 := ChangeScope(p, block.headingPath);
    RouteKeepsShown(p1);
    AccumulateKeepsShown(MakeRoom(p1, block, maxTokens), block, maxTokens);
  }

  lemma StepKeepsShown(p: Plan, block: Block, maxTokens: nat)
    requires ShownHeld(p)
    ensures ShownHeld(TakeBlock(p, block, maxTokens))
  {
    if ExtractText(block) != "" {
      if IsStandalone(block) {
        StandaloneKeepsShown(p, block);
      } else {
        TextKeepsShown(p, block, maxTokens);
      }
    }
  }

  /** In every plan, each block that shows text and was gathered is under the scope of its group; so is each pending
      one. */
  lemma {:induction false} PlanKeepsShown(blocks: seq<Block>, maxTokens: nat)
    ensures ShownHeld(PlanBlocks(blocks, maxTokens))
  {
    if blocks != [] {
      var init, block := blocks[..|blocks| - 1], blocks[|blocks| - 1];
      assert init + [block] == blocks;
      PlanKeepsShown(init, maxTokens);
      PlanStep(init, block, maxTokens);
      StepKeepsShown(PlanBlocks(init, maxTokens), block, maxTokens);
    }
  }

  // ---- The groups ----

  lemma LastFlushKeepsShown(p: Plan)
    requires ShownHeld(p)
    ensures
      var gs := p.done + if p.pending == [] then [] else [Gathered(p.pending, p.scope, Direct)];
      (forall i :: 0 <= i < |gs| ==> KeepsShown(gs[i])) && Planned(gs) == Planned(p.done) + p.pending
  {
    PlannedNext(p.done, Gathered(p.pending, p.scope, Direct));
    assert p.done + [] == p.done && Planned(p.done) + [] == Planned(p.done);
  }

  lemma VisibleIgnoresBlanks()
    ensures IgnoresBlanks(VISIBLE)
  {
  }

  /** Every document's groups hold its visible blocks, once and in input order, and keep their headings. */
  lemma GroupsKeepShown(blocks: seq<Block>, maxTokens: nat)
    ensures
      var gs := Groups(blocks, maxTokens);
      (forall i :: 0 <= i < |gs| ==> KeepsShown(gs[i])) && Visible(Planned(gs)) == Visible(blocks)
  {
    PlanKeepsShown(blocks, maxTokens);
    VisibleIgnoresBlanks();
    PlanKeepsText(blocks, maxTokens, VISIBLE);
    LastFlushKeepsShown(PlanBlocks(blocks, maxTokens));
  }

  lemma VisibleAppend(a: seq<Block>, b: seq<Block>)
    ensures Visible(a + b) == Visible(a) + Visible(b)
  {
    FlatMapAppend(VISIBLE, a, b);
  }

  lemma QuietIsNotVisible(g: Group)
    requires IsSilent(g)
    ensures Visible(GroupBlocks(g)) == []
  {
    VisibleNext([], g.blocks[0]);
    assert [] + [g.blocks[0]] == g.blocks;
  }

  lemma {:induction false} HeardKeepsVisible(gs: seq<Group>)
    ensures Visible(Planned(Heard(gs))) == Visible(Planned(gs))
  {
    if gs != [] {
      var init, g := gs[..|gs| - 1], gs[|gs| - 1];
      assert init + [g] == gs;
      HeardKeepsVisible(init);
      HeardNext(init, g);
      PlannedNext(init, g);
      VisibleAppend(Planned(init), GroupBlocks(g));
      VisibleAppend(Planned(Heard(init)), GroupBlocks(g));
      if IsSilent(g) {
        QuietIsNotVisible(g);
        assert Planned(Heard(init)) + [] == Planned(Heard(init));
        assert Visible(Planned(init)) + [] == Visible(Planned(init));
      }
    }
  }

  lemma HeardIsGroup(gs: seq<Group>, i: nat) returns (k: nat)
    requires i < |Heard(gs)|
    ensures k < |gs| && Heard(gs)[i] == gs[k]
  {
    k := FlatMapOrigin(HEARD, gs, Heard(gs)[i]);
  }

  /** The chunks of every document are those of groups that divide its visible blocks into consecutive runs, in input
      order: tables and key-value blocks alone, blocks that show text only under their own heading. When no blank text
      block lingers, the groups hold nothing else, and all their blocks are under their own heading. */
  lemma {:induction false} ChunksComeFromRuns(blocks: seq<Block>, maxTokens: Positive, counter: string -> int)
    ensures
      var gs := Heard(Groups(blocks, maxTokens));
      && Chunks(blocks, maxTokens, counter) == RenderAll(gs, maxTokens, counter)
      && Visible(Planned(gs)) == Visible(blocks)
      && (forall i :: 0 <= i < |gs| ==> KeepsShown(gs[i]))
      && ((forall b <- blocks :: !IsLingering(b, maxTokens)) ==>
            Planned(gs) == Visible(blocks) && forall i :: 0 <= i < |gs| ==> IsFaithful(gs[i]))
  {
    var all := Groups(blocks, maxTokens);
    GroupsKeepShown(blocks, maxTokens);
    HeardKeepsVisible(all);
    HeardRendersAll(all, maxTokens, counter);
    forall i | 0 <= i < |Heard(all)| ensures KeepsShown(Heard(all)[i]) {
      var k := HeardIsGroup(all, i);
    }
    if forall b <- blocks :: !IsLingering(b, maxTokens) {
      UnlingeringRuns(blocks, maxTokens, counter);
    }
  }

  // ---- Chunk by chunk ----

  /** All blocks of the plan are blocks of the document. */
  predicate IsFrom(p: Plan, blocks: seq<Block>) {
    && (forall i :: 0 <= i < |p.done| ==> forall b <- GroupBlocks(p.done[i]) :: b in blocks)
    && (forall b <- p.pending :: b in blocks)
  }

  lemma AccumulateIsFrom(p: Plan, block: Block, blocks: seq<Block>, maxTokens: nat)
    requires IsFrom(p, blocks) && block in blocks
    ensures IsFrom(Accumulate(p, block, maxTokens), blocks)
  {
  }

  lemma StandaloneIsFrom(p: Plan, block: Block, blocks: seq<Block>)
    requires IsFrom(p, blocks) && block in blocks
    ensures IsFrom(TakeStandalone(p, block), blocks)
  {
  }

  lemma TakeIsFrom(p: Plan, block: Block, blocks: seq<Block>, maxTokens: nat)
    requires IsFrom(p, blocks) && block in blocks
    ensures IsFrom(TakeBlock(p, block, maxTokens), blocks)
  {
    if IsStandalone(block) {
      StandaloneIsFrom(p, block, blocks);
    } else {
      var p1 := ChangeScope(p, block.headingPath);
      AccumulateIsFrom(MakeRoom(p1, block, maxTokens), block, blocks, maxTokens);
    }
  }

  lemma {:induction false} PlanIsFrom(blocks: seq<Block>, n: nat, maxTokens: nat)
    requires n <= |blocks|
    ensures IsFrom(PlanBlocks(blocks[..n], maxTokens), blocks)
  {
    if n > 0 {
      PlanIsFrom(blocks, n - 1, maxTokens);
      assert blocks[..n][..n - 1] == blocks[..n - 1];
      TakeIsFrom(PlanBlocks(blocks[..n - 1], maxTokens), blocks[n - 1], blocks, maxTokens);
    }
  }

  lemma GroupIsFrom(blocks: seq<Block>, maxTokens: nat, i: nat, b: Block)
    requires i < |Groups(blocks, maxTokens)| && b in GroupBlocks(Groups(blocks, maxTokens)[i])
    ensures b in blocks
  {
    PlanIsFrom(blocks, |blocks|, maxTokens);
    assert blocks[..|blocks|] == blocks;
  }

  /** The chunk names blocks of the document, and those that show text are under the chunk's own scope. */
  ghost predicate KeepsShownScope(c: Chunk, blocks: seq<Block>) {
    exists run: seq<Block> :: c.sources == Ids(run) && ShownUnder(run, blocks, c.scopePath)
  }

  predicate ShownUnder(run: seq<Block>, blocks: seq<Block>, scope: seq<string>) {
    forall b <- run :: b in blocks && (!IsBlank(ExtractText(b)) ==> b.headingPath == scope)
  }

  /** In every document a chunk names blocks of it, and a block it names from under another heading shows nothing. When
      no blank text block lingers, it names none from under another heading. */
  lemma FaithfulChunk(blocks: seq<Block>, maxTokens: Positive, counter: string -> int, c: Chunk)
    requires c in Chunks(blocks, maxTokens, counter)
    ensures KeepsShownScope(c, blocks)
    ensures (forall b <- blocks :: !IsLingering(b, maxTokens)) ==> KeepsScope(c, blocks)
  {
    var gs := Groups(blocks, maxTokens);
    var i := FlatMapOrigin(Renderer(maxTokens, counter), gs, c);
    GroupsKeepShown(blocks, maxTokens);
    var run := GroupBlocks(gs[i]);
    forall b | b in run ensures b in blocks {
      GroupIsFrom(blocks, maxTokens, i, b);
    }
    assert KeepsShown(gs[i]);
    assert c.sources == Ids(run) && ShownUnder(run, blocks, c.scopePath);
    if forall b <- blocks :: !IsLingering(b, maxTokens) {
      UnlingeringChunk(blocks, maxTokens, counter, c);
    }
  }

  /** Every block of every document that shows text is named by at least one chunk, under its own heading path. (An
      oversized table split along its rows shows its rows instead.) */
  lemma VisibleBlockIsCovered(
    blocks: seq<Block>, maxTokens: Positive, counter: string -> int, b: Block)
    returns (c: Chunk)
    requires b in blocks && !IsBlank(ExtractText(b)) && !TakesRowPath(b, maxTokens)
    ensures c in Chunks(blocks, maxTokens, counter) && b.id in c.sources && c.scopePath == b.headingPath
  {
    var gs := Groups(blocks, maxTokens);
    GroupsKeepShown(blocks, maxTokens);
    var k :| 0 <= k < |blocks| && blocks[k] == b;
    FlatMapHolds(VISIBLE, blocks, k, b);
    VisibleAreBlocks(Planned(gs), b);
    var i := FlatMapOrigin(GROUP_BLOCKS, gs, b);
    assert KeepsShown(gs[i]);
    ShownGroupSpeaks(gs[i], maxTokens, counter, b);
    c := FirstChunk(gs, i, maxTokens, counter);
    var j :| 0 <= j < |GroupBlocks(gs[i])| && GroupBlocks(gs[i])[j] == b;
    assert c.sources[j] == b.id;
  }

  lemma ShownGroupSpeaks(g: Group, maxTokens: Positive, counter: string -> int, b: Block)
    requires KeepsShown(g)
    requires b in GroupBlocks(g) && !IsBlank(ExtractText(b)) && !TakesRowPath(b, maxTokens)
    ensures Render(g, maxTokens, counter) != []
  {
    GroupKeepsText(g, maxTokens, counter);
    SqueezeBlank(ExtractText(b));
    var ink, bs := Inker(maxTokens), GroupBlocks(g);
    assert ink(b) == Squeeze(ExtractText(b)) != "";
    var i :| 0 <= i < |bs| && bs[i] == b;
    FlatMapHolds(ink, bs, i, ink(b)[0]);
  }

  lemma FirstChunk(gs: seq<Group>, i: nat, maxTokens: Positive, counter: string -> int) returns (c: Chunk)
    requires i < |gs| && Render(gs[i], maxTokens, counter) != []
    ensures c in RenderAll(gs, maxTokens, counter)
    ensures c.sources == Ids(GroupBlocks(gs[i])) && c.scopePath == GroupScope(gs[i])
  {
    c := Render(gs[i], maxTokens, counter)[0];
    FlatMapHolds(Renderer(maxTokens, counter), gs, i, c);
  }
}
