/**
 `chunk_blocks`: one pass over the blocks of a document, gathering text blocks and sending each gathered group,
 table and key-value block on to become chunks. `PlanBlocks` says which blocks travel together and which path they
 take; `Render` says what a group becomes.
 */
module Chunker {
  import opened Collections
  import opened Text
  import opened Cutting
  import opened Merging
  import opened Splitting
  import opened Tables

  /** How a gathered group leaves the accumulators. */
  datatype Path = Direct | Routed | Oversize

  datatype Group = Alone(block: Block) | Gathered(blocks: seq<Block>, scope: seq<string>, path: Path)

  datatype Plan = Plan(done: seq<Group>, pending: seq<Block>, scope: seq<string>)

  predicate IsStandalone(block: Block) {
    block.kind == "table" || block.kind == "kv"
  }

  function Texts(blocks: seq<Block>): (texts: seq<string>)
    ensures |texts| == |blocks|
    ensures forall i :: 0 <= i < |blocks| ==> texts[i] == ExtractText(blocks[i])
  {
    seq(|blocks|, i requires 0 <= i < |blocks| => ExtractText(blocks[i]))
  }

  function Ids(blocks: seq<Block>): (ids: seq<string>)
    ensures |ids| == |blocks|
    ensures forall i :: 0 <= i < |blocks| ==> ids[i] == blocks[i].id
  {
    seq(|blocks|, i requires 0 <= i < |blocks| => blocks[i].id)
  }

  function Tokens(blocks: seq<Block>): int {
    Total(Texts(blocks), ESTIMATE)
  }

  function FlushTexts(parts: seq<string>): seq<string> {
    var text := Strip(Join("\n", parts));
    if text == "" then [] else [text]
  }

  predicate HasUnsafeSeam(parts: seq<string>) {
    exists i :: 0 <= i < |parts| - 1 && !IsSafeJoinBoundary(parts[i], parts[i + 1])
  }

  function RouteTexts(parts: seq<string>, maxTokens: Positive, counter: string -> int): seq<string> {
    if HasUnsafeSeam(parts) || counter(Join("\n", parts)) > maxTokens then SplitTexts(Join("\n", parts), maxTokens)
    else FlushTexts(parts)
  }

  function GroupBlocks(g: Group): seq<Block> {
    match g case Alone(b) => [b] case Gathered(bs, _, _) => bs
  }

  function GroupScope(g: Group): seq<string> {
    match g case Alone(b) => b.headingPath case Gathered(_, scope, _) => scope
  }

  function GroupTexts(g: Group, maxTokens: Positive, counter: string -> int): seq<string> {
    match g
    case Alone(b) =>
      var text := ExtractText(b);
      if EstimateTokens(text) > maxTokens then LargeTexts(b, text, maxTokens) else [text]
    case Gathered(bs, _, Direct) => FlushTexts(Texts(bs))
    case Gathered(bs, _, Routed) => RouteTexts(Texts(bs), maxTokens, counter)
    case Gathered(bs, _, Oversize) => SplitTexts(Join("\n", Texts(bs)), maxTokens)
  }

  function Render(g: Group, maxTokens: Positive, counter: string -> int): seq<Chunk> {
    Stamp(GroupTexts(g, maxTokens, counter), GroupScope(g), Ids(GroupBlocks(g)))
  }

  function Renderer(maxTokens: Positive, counter: string -> int): Group -> seq<Chunk> {
    (g: Group) => Render(g, maxTokens, counter)
  }

  function RenderAll(gs: seq<Group>, maxTokens: Positive, counter: string -> int): seq<Chunk> {
    FlatMap(Renderer(maxTokens, counter), gs)
  }

  /** Flushes the pending group unless it is blank; a blank one stays behind. */
  function FlushPending(p: Plan): Plan {
    if FlushTexts(Texts(p.pending)) == [] then p else Plan(p.done + [Gathered(p.pending, p.scope, Direct)], [], p.scope)
  }

  function TakeStandalone(p: Plan, block: Block): Plan {
    var q := FlushPending(p);
    Plan(q.done + [Alone(block)], q.pending, block.headingPath)
  }

  /** Sends the pending group on through the checked route. */
  function RoutePending(p: Plan): Plan {
    if p.pending == [] then p else Plan(p.done + [Gathered(p.pending, p.scope, Routed)], [], p.scope)
  }

  function Accumulate(p: Plan, block: Block, maxTokens: nat): Plan {
    var blocks := p.pending + [block];
    if Tokens(blocks) > maxTokens && |blocks| == 1 then
      Plan(p.done + [Gathered(blocks, p.scope, Oversize)], [], p.scope)
    else p.(pending := blocks)
  }

  /** Boundary 2. */
  function ChangeScope(p: Plan, scope: seq<string>): Plan {
    if scope != p.scope then RoutePending(p).(scope := scope) else p
  }

  /** Boundary 3. */
  function MakeRoom(p: Plan, block: Block, maxTokens: nat): Plan {
    if Tokens(p.pending) + EstimateTokens(ExtractText(block)) > maxTokens then RoutePending(p) else p
  }

  function TakeText(p: Plan, block: Block, maxTokens: nat): Plan {
    Accumulate(MakeRoom(ChangeScope(p, block.headingPath), block, maxTokens), block, maxTokens)
  }

  function TakeBlock(p: Plan, block: Block, maxTokens: nat): Plan {
    if ExtractText(block) == "" then p
    else if IsStandalone(block) then TakeStandalone(p, block)
    else TakeText(p, block, maxTokens)
  }

  function PlanBlocks(blocks: seq<Block>, maxTokens: nat): Plan {
    if blocks == [] then Plan([], [], [])
    else TakeBlock(PlanBlocks(blocks[..|blocks| - 1], maxTokens), blocks[|blocks| - 1], maxTokens)
  }

  /** All groups, the last flush included. */
  function Groups(blocks: seq<Block>, maxTokens: nat): seq<Group> {
    var p := PlanBlocks(blocks, maxTokens);
    p.done + (if p.pending == [] then [] else [Gathered(p.pending, p.scope, Direct)])
  }

  function Chunks(blocks: seq<Block>, maxTokens: Positive, counter: string -> int): seq<Chunk> {
    RenderAll(Groups(blocks, maxTokens), maxTokens, counter)
  }

  // ---- The loop ----

  method RouteAccumulatedGroup(
    parts: seq<string>, scope: seq<string>, ids: seq<string>, maxTokens: Positive, counter: string -> int)
    returns (chunks: seq<Chunk>)
    ensures chunks == Stamp(RouteTexts(parts, maxTokens, counter), scope, ids)
  {
    var fullText := Join("\n", parts);
    var i := 1;
    while i < |parts|
      invariant i >= 1
      invariant forall k :: 0 <= k < i - 1 && k + 1 < |parts| ==> IsSafeJoinBoundary(parts[k], parts[k + 1])
    {
      if !IsSafeJoinBoundary(parts[i - 1], parts[i]) {
        chunks := SplitTextTwoPhase(fullText, maxTokens, scope, ids);
        return;
      }
      i := i + 1;
    }
    if counter(fullText) > maxTokens {
      chunks := SplitTextTwoPhase(fullText, maxTokens, scope, ids);
      return;
    }
    chunks := FlushChunk(parts, scope, ids);
  }

  /** The chunk of the joined parts, in a sequence of at most one. */
  function FlushChunk(parts: seq<string>, scope: seq<string>, ids: seq<string>): seq<Chunk> {
    Stamp(FlushTexts(parts), scope, ids)
  }

  /** The accumulators of the loop. */
  datatype Accumulators = Accumulators(
    chunks: seq<Chunk>, parts: seq<string>, scope: seq<string>, ids: seq<string>, tokens: int)

  ghost predicate Tracks(acc: Accumulators, p: Plan, maxTokens: Positive, counter: string -> int) {
    && acc.chunks == RenderAll(p.done, maxTokens, counter)
    && acc.parts == Texts(p.pending) && acc.ids == Ids(p.pending) && acc.tokens == Tokens(p.pending)
    && acc.scope == p.scope
  }

  method ChunkBlocks(blocks: seq<Block>, maxTokens: Positive, counter: string -> int) returns (chunks: seq<Chunk>)
    ensures chunks == Chunks(blocks, maxTokens, counter)
  {
    var acc := Accumulators([], [], [], [], 0);
    for i := 0 to |blocks|
      invariant Tracks(acc, PlanBlocks(blocks[..i], maxTokens), maxTokens, counter)
    {
      ghost var p := PlanBlocks(blocks[..i], maxTokens);
      assert blocks[..i + 1][..i] == blocks[..i];
      if ExtractText(blocks[i]) == "" {
        continue;
      }
      if IsStandalone(blocks[i]) {
        acc := StandaloneBlock(acc, blocks[i], maxTokens, counter, p);
      } else {
        acc := TextBlock(acc, blocks[i], maxTokens, counter, p);
      }
    }
    assert blocks[..|blocks|] == blocks;
    ghost var p := PlanBlocks(blocks, maxTokens);
    assert p.done + [] == p.done;
    chunks := acc.chunks + FlushChunk(acc.parts, acc.scope, acc.ids);
    if p.pending == [] {
      assert FlushTexts(acc.parts) == [];
    }
  }

  /** Boundary 1: a table or key-value block stands alone. */
  method StandaloneBlock(acc: Accumulators, block: Block, maxTokens: Positive, counter: string -> int, ghost p: Plan)
    returns (acc': Accumulators)
    requires Tracks(acc, p, maxTokens, counter)
    ensures Tracks(acc', TakeStandalone(p, block), maxTokens, counter)
  {
    acc' := FlushAccumulated(acc, maxTokens, counter, p);
    ghost var q := FlushPending(p);
    var alone := AloneChunks(block, maxTokens, counter);
    acc' := acc'.(chunks := acc'.chunks + alone, scope := block.headingPath);
  }

  method FlushAccumulated(acc: Accumulators, maxTokens: Positive, counter: string -> int, ghost p: Plan)
    returns (acc': Accumulators)
    requires Tracks(acc, p, maxTokens, counter)
    ensures Tracks(acc', FlushPending(p), maxTokens, counter)
  {
    var flushed := FlushChunk(acc.parts, acc.scope, acc.ids);
    if flushed == [] {
      return acc;
    }
    return Accumulators(acc.chunks + flushed, [], acc.scope, [], 0);
  }

  method AloneChunks(block: Block, maxTokens: Positive, ghost counter: string -> int) returns (chunks: seq<Chunk>)
    ensures chunks == Render(Alone(block), maxTokens, counter)
  {
    var text := ExtractText(block);
    assert Ids([block]) == [block.id];
    if EstimateTokens(text) > maxTokens {
      chunks := SplitLargeBlock(block, text, maxTokens, block.headingPath);
    } else {
      chunks := [Chunk(text, block.headingPath, [block.id], EstimateTokens(text))];
    }
  }

  method SendPending(acc: Accumulators, maxTokens: Positive, counter: string -> int, ghost p: Plan)
    returns (acc': Accumulators)
    requires Tracks(acc, p, maxTokens, counter)
    ensures Tracks(acc', RoutePending(p), maxTokens, counter)
  {
    if acc.parts == [] {
      return acc;
    }
    var routed := RouteAccumulatedGroup(acc.parts, acc.scope, acc.ids, maxTokens, counter);
    return Accumulators(acc.chunks + routed, [], acc.scope, [], 0);
  }

  lemma AppendBlock(blocks: seq<Block>, block: Block)
    ensures Texts(blocks + [block]) == Texts(blocks) + [ExtractText(block)]
    ensures Ids(blocks + [block]) == Ids(blocks) + [block.id]
    ensures Tokens(blocks + [block]) == Tokens(blocks) + EstimateTokens(ExtractText(block))
  {
  }

  /** Boundary 2 (scope change), boundary 3 (token overflow), accumulation. */
  method TextBlock(acc: Accumulators, block: Block, maxTokens: Positive, counter: string -> int, ghost p: Plan)
    returns (acc': Accumulators)
    requires Tracks(acc, p, maxTokens, counter)
    ensures Tracks(acc', TakeText(p, block, maxTokens), maxTokens, counter)
  {
    acc' := acc;
    ghost var q := p;
    if block.headingPath != acc.scope {
      acc' := SendPending(acc', maxTokens, counter, q);
      acc' := acc'.(scope := block.headingPath);
      q := RoutePending(q).(scope := block.headingPath);
    }
    if acc'.tokens + EstimateTokens(ExtractText(block)) > maxTokens {
      acc' := SendPending(acc', maxTokens, counter, q);
      q := RoutePending(q);
    }
    acc' := AccumulateBlock(acc', block, maxTokens, counter, q);
  }

  /** Accumulation, and the edge case of a single block over the budget. */
  method AccumulateBlock(acc: Accumulators, block: Block, maxTokens: Positive, counter: string -> int, ghost p: Plan)
    returns (acc': Accumulators)
    requires Tracks(acc, p, maxTokens, counter)
    ensures Tracks(acc', Accumulate(p, block, maxTokens), maxTokens, counter)
  {
    var text := ExtractText(block);
    AppendBlock(p.pending, block);
    acc' := acc.(parts := acc.parts + [text], ids := acc.ids + [block.id], tokens := acc.tokens + EstimateTokens(text));
    if acc'.tokens > maxTokens && |acc'.parts| == 1 {
      var pieces := SplitTextTwoPhase(Join("\n", acc'.parts), maxTokens, acc'.scope, acc'.ids);
      acc' := Accumulators(acc'.chunks + pieces, [], acc'.scope, [], 0);
    }
  }
}
