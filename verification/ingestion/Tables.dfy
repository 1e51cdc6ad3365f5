/**
 Splitting a large block. A table with rows is packed row by row, each packet under the table's header; a row
 too large for a packet is force-split alone. `Pack` says which rows travel together.
 */
module Tables {
  import opened Collections
  import opened Text
  import opened Cutting
  import opened LineWidths
  import opened Splitting

  /** A run of consecutive rows emitted under the header, or one oversized row split by itself. */
  datatype Emission = Packet(rows: seq<string>) | Forced(row: string)

  datatype Packing = Packing(out: seq<Emission>, rows: seq<string>, chars: nat)

  function ShownTrue(row: seq<Cell>): seq<string> {
    if row == [] then [] else (if row[0].truthy then [row[0].shown] else []) + ShownTrue(row[1..])
  }

  function Shown(row: seq<Cell>): (texts: seq<string>)
    ensures |texts| == |row|
  {
    seq(|row|, i requires 0 <= i < |row| => row[i].shown)
  }

  function RowTexts(rows: seq<seq<Cell>>): (texts: seq<string>)
    ensures |texts| == |rows|
    ensures forall i :: 0 <= i < |rows| ==> texts[i] == Join(" | ", Shown(rows[i]))
  {
    seq(|rows|, i requires 0 <= i < |rows| => Join(" | ", Shown(rows[i])))
  }

  /** The header line put in front of every packet; empty if the first row shows nothing. */
  function HeaderPrefix(rows: seq<seq<Cell>>): string
    requires rows != []
  {
    var headers := ShownTrue(rows[0]);
    if headers == [] then "" else Join(" | ", headers) + "\n"
  }

  function Buffer(header: string, rows: seq<string>): seq<string> {
    (if header == "" then [] else [header]) + rows
  }

  function EmitTexts(parts: seq<string>, maxTokens: Positive): seq<string> {
    var joined := Strip(Join("\n", NonEmpty(parts)));
    if joined == "" then []
    else if EstimateTokens(joined) <= maxTokens then [joined]
    else SplitTexts(joined, maxTokens)
  }

  function EmissionTexts(e: Emission, header: string, maxTokens: Positive): seq<string> {
    match e
    case Packet(rows) => EmitTexts(Buffer(header, rows), maxTokens)
    case Forced(row) => SplitTexts(row, maxTokens)
  }

  function Emitter(header: string, maxTokens: Positive): Emission -> seq<string> {
    (e: Emission) => EmissionTexts(e, header, maxTokens)
  }

  function PackRow(p: Packing, row: string, header: string, maxTokens: nat): Packing {
    if EstimateTokens(row) > maxTokens then
      // the character count is not reset here
      Packing(p.out + (if Buffer(header, p.rows) == [] then [] else [Packet(p.rows)]) + [Forced(row)], [], p.chars)
    else if p.chars + |row| + 1 > maxTokens * 4 && p.rows != [] then
      Packing(p.out + [Packet(p.rows)], [row], |header| + |row| + 1)
    else
      Packing(p.out, p.rows + [row], p.chars + |row| + 1)
  }

  function PackRows(rows: seq<string>, header: string, maxTokens: nat): Packing {
    if rows == [] then Packing([], [], |header|)
    else PackRow(PackRows(rows[..|rows| - 1], header, maxTokens), rows[|rows| - 1], header, maxTokens)
  }

  function Pack(rows: seq<string>, header: string, maxTokens: nat): seq<Emission> {
    var p := PackRows(rows, header, maxTokens);
    if p.rows == [] then p.out else p.out + [Packet(p.rows)]
  }

  function TableTexts(rows: seq<seq<Cell>>, maxTokens: Positive): seq<string>
    requires rows != []
  {
    FlatMap(Emitter(HeaderPrefix(rows), maxTokens), Pack(RowTexts(rows[1..]), HeaderPrefix(rows), maxTokens))
  }

  function LargeTexts(block: Block, text: string, maxTokens: Positive): seq<string> {
    if block.kind == "table" && block.rows != [] then TableTexts(block.rows, maxTokens)
    else SplitTexts(text, maxTokens)
  }

  method EmitBuffer(
    before: seq<Chunk>, parts: seq<string>, maxTokens: Positive, scope: seq<string>, sources: seq<string>)
    returns (chunks: seq<Chunk>)
    ensures chunks == before + Stamp(EmitTexts(parts, maxTokens), scope, sources)
  {
    var joined := Strip(Join("\n", NonEmpty(parts)));
    if joined == "" {
      return before;
    }
    var joinedTokens := EstimateTokens(joined);
    if joinedTokens <= maxTokens {
      return before + [Chunk(joined, scope, sources, joinedTokens)];
    }
    var pieces := SplitTextTwoPhase(joined, maxTokens, scope, sources);
    return before + pieces;
  }

  method SplitLargeBlock(
    block: Block, text: string, maxTokens: Positive, scope: seq<string>)
    returns (chunks: seq<Chunk>)
    ensures chunks == Stamp(LargeTexts(block, text, maxTokens), scope, [block.id])
  {
    if block.kind == "table" && block.rows != [] {
      chunks := SplitTable(block, maxTokens, scope);
    } else {
      chunks := SplitTextTwoPhase(text, maxTokens, scope, [block.id]);
    }
  }

  /** The loop's variables hold the buffer and the chunks of the packing reached so far. */
  ghost predicate Tracks(chunks: seq<Chunk>, parts: seq<string>, chars: int, p: Packing,
                         header: string, maxTokens: Positive, scope: seq<string>, sources: seq<string>)
  {
    && parts == Buffer(header, p.rows) && chars == p.chars
    && chunks == Stamp(FlatMap(Emitter(header, maxTokens), p.out), scope, sources)
  }

  method SplitTable(block: Block, maxTokens: Positive, scope: seq<string>) returns (chunks: seq<Chunk>)
    requires block.rows != []
    ensures chunks == Stamp(TableTexts(block.rows, maxTokens), scope, [block.id])
  {
    var headerPrefix := HeaderPrefix(block.rows);
    var dataRows := RowTexts(block.rows[1..]);
    chunks := [];
    var currentParts := Buffer(headerPrefix, []);
    var currentPartsChars: int := |headerPrefix|;
    ghost var p := Packing([], [], |headerPrefix|);
    for i := 0 to |dataRows|
      invariant p == PackRows(dataRows[..i], headerPrefix, maxTokens)
      invariant Tracks(chunks, currentParts, currentPartsChars, p, headerPrefix, maxTokens, scope, [block.id])
    {
      assert dataRows[..i + 1][..i] == dataRows[..i];
      chunks, currentParts, currentPartsChars :=
        TakeRow(chunks, currentParts, currentPartsChars, dataRows[i], headerPrefix, maxTokens, scope, [block.id], p);
      p := PackRow(p, dataRows[i], headerPrefix, maxTokens);
    }
    assert dataRows[..|dataRows|] == dataRows;
    if |currentParts| > (if headerPrefix == "" then 0 else 1) {
      chunks := FlushRows(chunks, currentParts, headerPrefix, maxTokens, scope, [block.id], p);
    }
  }

  /** One turn of the row loop. */
  method TakeRow(chunks: seq<Chunk>, parts: seq<string>, chars: int, rowText: string,
                 header: string, maxTokens: Positive, scope: seq<string>, sources: seq<string>, ghost p: Packing)
    returns (chunks': seq<Chunk>, parts': seq<string>, chars': int)
    requires Tracks(chunks, parts, chars, p, header, maxTokens, scope, sources)
    ensures Tracks(chunks', parts', chars', PackRow(p, rowText, header, maxTokens), header, maxTokens, scope, sources)
  {
    chunks', parts', chars' := chunks, parts, chars;
    ghost var out := p.out;
    if EstimateTokens(rowText) > maxTokens {
      if parts != [] {
        chunks' := FlushRows(chunks, parts, header, maxTokens, scope, sources, p);
        out := out + [Packet(p.rows)];
        parts' := Buffer(header, []);
      }
      assert PackRow(p, rowText, header, maxTokens) == Packing(out + [Forced(rowText)], [], p.chars);
      var pieces := SplitTextTwoPhase(rowText, maxTokens, scope, sources);
      EmitNext(out, Forced(rowText), header, maxTokens, scope, sources);
      chunks' := chunks' + pieces;
    } else {
      ghost var rows := p.rows;
      if chars + |rowText| + 1 > maxTokens * 4 && |parts| > (if header == "" then 0 else 1) {
        chunks' := FlushRows(chunks, parts, header, maxTokens, scope, sources, p);
        out, rows := out + [Packet(p.rows)], [];
        parts' := Buffer(header, []);
        chars' := |header|;
      }
      assert Buffer(header, rows + [rowText]) == Buffer(header, rows) + [rowText];
      parts' := parts' + [rowText];
      chars' := chars' + |rowText| + 1;
      assert PackRow(p, rowText, header, maxTokens) == Packing(out, rows + [rowText], chars');
    }
  }

  method FlushRows(chunks: seq<Chunk>, parts: seq<string>, header: string, maxTokens: Positive, scope: seq<string>,
                   sources: seq<string>, ghost p: Packing)
    returns (chunks': seq<Chunk>)
    requires parts == Buffer(header, p.rows)
    requires chunks == Stamp(FlatMap(Emitter(header, maxTokens), p.out), scope, sources)
    ensures chunks' == Stamp(FlatMap(Emitter(header, maxTokens), p.out + [Packet(p.rows)]), scope, sources)
  {
    chunks' := EmitBuffer(chunks, parts, maxTokens, scope, sources);
    EmitNext(p.out, Packet(p.rows), header, maxTokens, scope, sources);
  }

  lemma EmitNext(
    out: seq<Emission>, e: Emission, header: string, maxTokens: Positive, scope: seq<string>, sources: seq<string>)
    ensures Stamp(FlatMap(Emitter(header, maxTokens), out + [e]), scope, sources)
      == Stamp(FlatMap(Emitter(header, maxTokens), out), scope, sources)
       + Stamp(EmissionTexts(e, header, maxTokens), scope, sources)
  {
  }

  // ---- The emissions partition the rows ----

  function RowsOf(e: Emission): seq<string> {
    match e case Packet(rows) => rows case Forced(row) => [row]
  }

  const ROWS: Emission -> seq<string> := (e: Emission) => RowsOf(e)

  /** A packet with two or more rows was closed while the character count was within the budget. */
  ghost predicate PacketFits(e: Emission, header: string, maxTokens: nat) {
    e.Packet? && |e.rows| >= 2 ==> |header| + TotalLength(e.rows) + |e.rows| <= 4 * maxTokens
  }

  /** A packet holds no row that had to be force-split, and no forced row would have fit. */
  ghost predicate IsRightlyPlaced(e: Emission, maxTokens: nat) {
    match e
    case Packet(rows) => forall row <- rows :: EstimateTokens(row) <= maxTokens
    case Forced(row) => EstimateTokens(row) > maxTokens
  }

  ghost predicate Covers(p: Packing, rows: seq<string>, of: Emission -> seq<string>) {
    FlatMap(of, p.out) + p.rows == rows
  }

  lemma PackRowCovers(
    p: Packing, row: string, header: string, maxTokens: nat, read: seq<string>, rows: Emission -> seq<string>)
    requires (forall e :: rows(e) == RowsOf(e)) && Covers(p, read, rows)
    ensures Covers(PackRow(p, row, header, maxTokens), read + [row], rows)
  {
    var p' := PackRow(p, row, header, maxTokens);
    FlatMapNext(rows, p.out, Packet(p.rows));
    assert FlatMap(rows, p.out + [Packet(p.rows)]) == read;
    if EstimateTokens(row) > maxTokens {
      var out := if Buffer(header, p.rows) == [] then p.out else p.out + [Packet(p.rows)];
      assert FlatMap(rows, out) == read;
      FlatMapNext(rows, out, Forced(row));
      assert p' == Packing(out + [Forced(row)], [], p.chars);
    }
  }

  lemma {:induction false} PackCovers(rows: seq<string>, header: string, maxTokens: nat, of: Emission -> seq<string>)
    requires forall e :: of(e) == RowsOf(e)
    ensures Covers(PackRows(rows, header, maxTokens), rows, of)
  {
    if rows != [] {
      var init, row := rows[..|rows| - 1], rows[|rows| - 1];
      PackCovers(init, header, maxTokens, of);
      PackRowCovers(PackRows(init, header, maxTokens), row, header, maxTokens, init, of);
      assert rows == init + [row];
    }
  }

  /** The character count bounds the buffer, and stays within the budget once a second row is in. */
  ghost predicate CountHolds(p: Packing, header: string, maxTokens: nat) {
    && |header| + TotalLength(p.rows) + |p.rows| <= p.chars
    && (|p.rows| >= 2 ==> p.chars <= 4 * maxTokens)
    && IsRightlyPlaced(Packet(p.rows), maxTokens)
  }

  ghost predicate OutHolds(out: seq<Emission>, header: string, maxTokens: nat) {
    forall i :: 0 <= i < |out| ==> PacketFits(out[i], header, maxTokens) && IsRightlyPlaced(out[i], maxTokens)
  }

  lemma OutGrows(out: seq<Emission>, e: Emission, header: string, maxTokens: nat)
    requires OutHolds(out, header, maxTokens) && PacketFits(e, header, maxTokens) && IsRightlyPlaced(e, maxTokens)
    ensures OutHolds(out + [e], header, maxTokens)
  {
  }

  lemma {:induction false} PackInvariant(rows: seq<string>, header: string, maxTokens: nat)
    ensures
      var p := PackRows(rows, header, maxTokens);
      CountHolds(p, header, maxTokens) && OutHolds(p.out, header, maxTokens)
  {
    if rows != [] {
      var init, row := rows[..|rows| - 1], rows[|rows| - 1];
      var p := PackRows(init, header, maxTokens);
      PackInvariant(init, header, maxTokens);
      TotalLengthAppend(p.rows, [row]);
      OutGrows(p.out, Packet(p.rows), header, maxTokens);
      if EstimateTokens(row) > maxTokens {
        OutGrows(p.out, Forced(row), header, maxTokens);
        OutGrows(p.out + [Packet(p.rows)], Forced(row), header, maxTokens);
        assert p.out + [] + [Forced(row)] == p.out + [Forced(row)];
      }
    }
  }

  /** Packets and force-split rows together hold every data row once, in the original order. */
  lemma PackPartitionsRows(rows: seq<string>, header: string, maxTokens: nat)
    ensures FlatMap(ROWS, Pack(rows, header, maxTokens)) == rows
    ensures forall e <- Pack(rows, header, maxTokens) :: IsRightlyPlaced(e, maxTokens)
  {
    PackCovers(rows, header, maxTokens, ROWS);
    PackInvariant(rows, header, maxTokens);
    var p := PackRows(rows, header, maxTokens);
    FlatMapNext(ROWS, p.out, Packet(p.rows));
    OutGrows(p.out, Packet(p.rows), header, maxTokens);
  }

  /** The header and the row lengths with their separators bound the joined buffer. */
  lemma BufferLength(header: string, rows: seq<string>)
    ensures |Strip(Join("\n", NonEmpty(Buffer(header, rows))))| <= |header| + TotalLength(rows) + |rows|
  {
    var parts := Buffer(header, rows);
    ConcatNonEmpty(parts);
    JoinLength(NonEmpty(parts));
    SqueezeStrip(Join("\n", NonEmpty(parts)));
    if header == "" {
      assert parts == rows;
    } else {
      TotalLengthAppend([header], rows);
    }
  }

  /** The running character count bounds the joined buffer, so a packet of two or more rows is never split: it
      becomes a single chunk within the budget, or none if it shows nothing. */
  lemma PacketIsOneChunk(rows: seq<string>, header: string, maxTokens: Positive, e: Emission)
    requires e in Pack(rows, header, maxTokens) && e.Packet? && |e.rows| >= 2
    ensures
      var texts := EmissionTexts(e, header, maxTokens);
      |texts| <= 1 && forall t <- texts :: EstimateTokens(t) <= maxTokens
  {
    PackInvariant(rows, header, maxTokens);
    var p := PackRows(rows, header, maxTokens);
    OutGrows(p.out, Packet(p.rows), header, maxTokens);
    assert PacketFits(e, header, maxTokens);
    BufferLength(header, e.rows);
  }

  /** A packet without rows, just the header, is emitted only right before an oversized row. */
  lemma {:induction false} HeaderOnlyBeforeForced(rows: seq<string>, header: string, maxTokens: nat, i: nat)
    requires i < |Pack(rows, header, maxTokens)| && Pack(rows, header, maxTokens)[i] == Packet([])
    ensures header != "" && i + 1 < |Pack(rows, header, maxTokens)| && Pack(rows, header, maxTokens)[i + 1].Forced?
  {
    var p := PackRows(rows, header, maxTokens);
    if rows != [] && i < |p.out| {
      var init, row := rows[..|rows| - 1], rows[|rows| - 1];
      var q := PackRows(init, header, maxTokens);
      if i < |q.out| {
        assert q.out[i] == p.out[i];
        HeaderOnlyBeforeForced(init, header, maxTokens, i);
        assert Pack(init, header, maxTokens)[i + 1].Forced?;
        assert i + 1 < |q.out|;
      }
    }
  }

  // ---- What a split table says ----

  lemma EmitKeepsText(parts: seq<string>, maxTokens: Positive)
    ensures Squeeze(Concat(EmitTexts(parts, maxTokens))) == Squeeze(Concat(parts))
  {
    var kept := NonEmpty(parts);
    var joined := Strip(Join("\n", kept));
    SqueezeStrip(Join("\n", kept));
    SqueezeJoin(kept);
    ConcatNonEmpty(parts);
    SplitKeepsText(joined, maxTokens);
    ConcatSingle(joined);
  }

  function EmissionOutline(e: Emission, header: string): string {
    match e
    case Packet(rows) => header + Concat(rows)
    case Forced(row) => row
  }

  /** The visible characters of an emission: the header in front of the rows of a packet. */
  function EmissionInk(header: string): Emission -> string {
    (e: Emission) => Squeeze(EmissionOutline(e, header))
  }

  lemma EmissionKeepsText(e: Emission, header: string, maxTokens: Positive)
    ensures Squeeze(Concat(EmissionTexts(e, header, maxTokens))) == Squeeze(EmissionOutline(e, header))
  {
    match e {
      case Packet(rows) =>
        EmitKeepsText(Buffer(header, rows), maxTokens);
        if header == "" {
          assert Buffer(header, rows) == rows && header + Concat(rows) == Concat(rows);
        } else {
          assert Buffer(header, rows) == [header] + rows;
          ConcatAppend([header], rows);
          ConcatSingle(header);
        }
      case Forced(row) =>
        SplitKeepsText(row, maxTokens);
    }
  }

  /** Every visible character of the header and the rows comes out, once per packet and once, in order. */
  lemma TableKeepsText(out: seq<Emission>, header: string, maxTokens: Positive)
    ensures Squeeze(Concat(FlatMap(Emitter(header, maxTokens), out))) == FlatMap(EmissionInk(header), out)
  {
    forall e | e in out ensures Squeeze(Concat(Emitter(header, maxTokens)(e))) == EmissionInk(header)(e) {
      EmissionKeepsText(e, header, maxTokens);
    }
    FlatMapInk(Emitter(header, maxTokens), EmissionInk(header), out);
  }

  lemma EmissionTokenBound(e: Emission, header: string, maxTokens: Positive)
    ensures forall t <- EmissionTexts(e, header, maxTokens) :: EstimateTokens(t) <= 2 * maxTokens - 1
  {
    match e {
      case Packet(rows) => SplitTokenBound(Strip(Join("\n", NonEmpty(Buffer(header, rows)))), maxTokens);
      case Forced(row) => SplitTokenBound(row, maxTokens);
    }
  }

  lemma LargeTokenBound(block: Block, text: string, maxTokens: Positive)
    ensures forall t <- LargeTexts(block, text, maxTokens) :: EstimateTokens(t) <= 2 * maxTokens - 1
  {
    if block.kind == "table" && block.rows != [] {
      var header := HeaderPrefix(block.rows);
      var out := Pack(RowTexts(block.rows[1..]), header, maxTokens);
      forall t | t in TableTexts(block.rows, maxTokens) ensures EstimateTokens(t) <= 2 * maxTokens - 1 {
        var i := FlatMapOrigin(Emitter(header, maxTokens), out, t);
        EmissionTokenBound(out[i], header, maxTokens);
      }
    } else {
      SplitTokenBound(text, maxTokens);
    }
  }

  // ---- The promise of `_split_large_block` ----

  lemma {:induction false} NonEmptyMembers(parts: seq<string>)
    ensures forall p :: p in NonEmpty(parts) <==> p in parts && p != ""
  {
    if parts != [] {
      NonEmptyMembers(parts[1..]);
    }
  }

  lemma EmitWithin(parts: seq<string>, maxTokens: Positive)
    requires forall p <- parts :: LinesWithin(p, 4 * maxTokens + 3)
    ensures AllWithin(EmitTexts(parts, maxTokens), maxTokens)
  {
    var kept := NonEmpty(parts);
    NonEmptyMembers(parts);
    JoinWithin(kept, 4 * maxTokens + 3);
    StripWithin(Join("\n", kept), 4 * maxTokens + 3);
    ShortLinesFit(Strip(Join("\n", kept)), maxTokens);
  }

  /** The header and the data rows of a table have lines of at most `width` characters. */
  predicate IsNarrow(rows: seq<seq<Cell>>, width: nat)
    requires rows != []
  {
    LinesWithin(HeaderPrefix(rows), width) && forall row <- RowTexts(rows[1..]) :: LinesWithin(row, width)
  }

  lemma EmissionWithin(e: Emission, header: string, maxTokens: Positive)
    requires LinesWithin(header, 4 * maxTokens + 3)
    requires forall row <- RowsOf(e) :: LinesWithin(row, 4 * maxTokens + 3)
    ensures AllWithin(EmissionTexts(e, header, maxTokens), maxTokens)
  {
    match e {
      case Packet(rows) =>
        assert RowsOf(e) == rows;
        EmitWithin(Buffer(header, rows), maxTokens);
      case Forced(row) =>
        assert row in RowsOf(e);
        ShortLinesFit(row, maxTokens);
    }
  }

  lemma NarrowTableFits(rows: seq<seq<Cell>>, maxTokens: Positive)
    requires rows != [] && IsNarrow(rows, 4 * maxTokens + 3)
    ensures AllWithin(TableTexts(rows, maxTokens), maxTokens)
  {
    var header, data := HeaderPrefix(rows), RowTexts(rows[1..]);
    PackingWithin(Pack(data, header, maxTokens), data, header, maxTokens);
  }

  lemma PackingWithin(out: seq<Emission>, data: seq<string>, header: string, maxTokens: Positive)
    requires LinesWithin(header, 4 * maxTokens + 3) && out == Pack(data, header, maxTokens)
    requires forall row <- data :: LinesWithin(row, 4 * maxTokens + 3)
    ensures AllWithin(FlatMap(Emitter(header, maxTokens), out), maxTokens)
  {
    forall t | t in FlatMap(Emitter(header, maxTokens), out) ensures EstimateTokens(t) <= maxTokens {
      var i := FlatMapOrigin(Emitter(header, maxTokens), out, t);
      forall row | row in RowsOf(out[i]) ensures LinesWithin(row, 4 * maxTokens + 3) {
        PackedRowIsRow(data, header, maxTokens, i, row);
      }
      EmissionWithin(out[i], header, maxTokens);
    }
  }

  lemma PackedRowIsRow(rows: seq<string>, header: string, maxTokens: nat, i: nat, row: string)
    requires i < |Pack(rows, header, maxTokens)| && row in RowsOf(Pack(rows, header, maxTokens)[i])
    ensures row in rows
  {
    PackPartitionsRows(rows, header, maxTokens);
    FlatMapHolds(ROWS, Pack(rows, header, maxTokens), i, row);
  }

  /** A table without a header whose one data row is the overrunning line. */
  function OverrunTable(maxTokens: nat): seq<seq<Cell>>
    requires maxTokens >= 2
  {
    [[], [Cell(OverrunLine(maxTokens), true)]]
  }

  lemma OverrunTableOverruns(maxTokens: nat)
    requires maxTokens >= 2
    ensures HeaderPrefix(OverrunTable(maxTokens)) == ""
    ensures RowTexts(OverrunTable(maxTokens)[1..]) == [OverrunLine(maxTokens)]
    ensures TableTexts(OverrunTable(maxTokens), maxTokens) == [OverrunLine(maxTokens)]
    ensures EstimateTokens(OverrunLine(maxTokens)) == maxTokens + 1
  {
    var line, rows := OverrunLine(maxTokens), OverrunTable(maxTokens);
    OverrunLineOverruns(maxTokens);
    assert Shown(rows[1]) == [line];
    assert RowTexts(rows[1..]) == [line];
    LoneForcedRow(line, maxTokens);
  }

  lemma LoneForcedRow(row: string, maxTokens: Positive)
    requires EstimateTokens(row) > maxTokens
    ensures FlatMap(Emitter("", maxTokens), Pack([row], "", maxTokens)) == SplitTexts(row, maxTokens)
  {
    var none: seq<Emission> := [];
    assert [row][..0] == [] && PackRows([], "", maxTokens) == Packing([], [], 0);
    assert PackRows([row], "", maxTokens) == PackRow(Packing([], [], 0), row, "", maxTokens);
    assert Pack([row], "", maxTokens) == none + [Forced(row)];
    FlatMapNext(Emitter("", maxTokens), none, Forced(row));
  }

  ghost predicate TableKeepsPromise(rows: seq<seq<Cell>>, maxTokens: Positive, width: nat) {
    rows != [] && IsNarrow(rows, width) ==> AllWithin(TableTexts(rows, maxTokens), maxTokens)
  }

  lemma TableFits(rows: seq<seq<Cell>>, maxTokens: Positive, width: nat)
    requires (maxTokens == 1 || width <= 4 * maxTokens + 3)
    ensures TableKeepsPromise(rows, maxTokens, width)
  {
    if rows != [] && IsNarrow(rows, width) {
      if maxTokens == 1 {
        LargeTokenBound(Block("", "table", "", "", rows, []), "", maxTokens);
      } else {
        NarrowTableFits(rows, maxTokens);
      }
    }
  }

  lemma OverrunTableBreaks(maxTokens: nat, width: nat)
    requires maxTokens >= 2 && width > 4 * maxTokens + 3
    ensures !TableKeepsPromise(OverrunTable(maxTokens), maxTokens, width)
  {
    OverrunTableOverruns(maxTokens);
    SplitWithoutNewline(OverrunLine(maxTokens));
    TooLong(TableTexts(OverrunTable(maxTokens), maxTokens), OverrunLine(maxTokens), maxTokens);
  }

  lemma TooLong(texts: seq<string>, t: string, maxTokens: nat)
    requires texts == [t] && EstimateTokens(t) > maxTokens
    ensures !AllWithin(texts, maxTokens)
  {
    assert t in texts;
  }

  /** `_split_large_block` promises texts of at most `maxTokens` tokens. Among tables whose header and rows have lines
      of at most `width` characters it keeps that promise exactly when `maxTokens` is 1 or `width` is at most
      `4M + 3`. */
  lemma TablePromiseHoldsIff(maxTokens: Positive, width: nat)
    ensures (forall rows :: TableKeepsPromise(rows, maxTokens, width))
      <==> maxTokens == 1 || width <= 4 * maxTokens + 3
  {
    if maxTokens == 1 || width <= 4 * maxTokens + 3 {
      forall rows ensures TableKeepsPromise(rows, maxTokens, width) {
        TableFits(rows, maxTokens, width);
      }
    } else {
      OverrunTableBreaks(maxTokens, width);
    }
  }

  /** If what the block is split from has lines of at most `width` characters, its texts are within the budget. */
  ghost predicate BlockKeepsPromise(block: Block, text: string, maxTokens: Positive, width: nat) {
    && (block.kind == "table" ==> TableKeepsPromise(block.rows, maxTokens, width))
    && (!(block.kind == "table" && block.rows != []) && LinesWithin(text, width) ==>
          AllWithin(LargeTexts(block, text, maxTokens), maxTokens))
  }

  lemma BlockFits(block: Block, text: string, maxTokens: Positive, width: nat)
    requires (maxTokens == 1 || width <= 4 * maxTokens + 3)
    ensures BlockKeepsPromise(block, text, maxTokens, width)
  {
    TableFits(block.rows, maxTokens, width);
    if !(block.kind == "table" && block.rows != []) && LinesWithin(text, width) {
      SplitPromiseHoldsIff(maxTokens, width);
    }
  }

  /** The same for every block, however it is split. */
  lemma LargePromiseHoldsIff(maxTokens: Positive, width: nat)
    ensures (forall block, text :: BlockKeepsPromise(block, text, maxTokens, width))
      <==> maxTokens == 1 || width <= 4 * maxTokens + 3
  {
    if maxTokens == 1 || width <= 4 * maxTokens + 3 {
      forall block, text ensures BlockKeepsPromise(block, text, maxTokens, width) {
        BlockFits(block, text, maxTokens, width);
      }
    } else {
      OverrunTableBreaks(maxTokens, width);
      var block := Block("", "table", "", "", OverrunTable(maxTokens), []);
      assert !BlockKeepsPromise(block, "", maxTokens, width);
    }
  }
}
