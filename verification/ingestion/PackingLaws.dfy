/**
 Why a packet of rows ends where it does: a row joins it while the running character count allows, and a packet is
 closed for the next row, for an oversized row, or at the end of the table.
 */
module PackingLaws {
  import opened Collections
  import opened Text
  import opened Cutting
  import opened Merging
  import opened Splitting
  import opened Tables

  /** The characters of the rows, each with its separator. */
  function Weight(rows: seq<string>): nat {
    TotalLength(rows) + |rows|
  }

  lemma WeightNext(rows: seq<string>, row: string)
    ensures Weight(rows + [row]) == Weight(rows) + |row| + 1
  {
    TotalLengthAppend(rows, [row]);
  }

  /** The rows the running count holds after these emissions. It starts afresh when a packet was closed for the next
      row, that is, between two packets; oversized rows neither count nor reset it. */
  function Counted(out: seq<Emission>): seq<string> {
    if out == [] then []
    else
      var init, last := out[..|out| - 1], out[|out| - 1];
      if last.Forced? then Counted(init)
      else if init != [] && init[|init| - 1].Packet? then last.rows
      else Counted(init) + last.rows
  }

  lemma CountedNext(out: seq<Emission>, e: Emission)
    ensures Counted(out + [e]) ==
      if e.Forced? then Counted(out)
      else if out != [] && out[|out| - 1].Packet? then e.rows
      else Counted(out) + e.rows
  {
    assert (out + [e])[..|out|] == out;
  }

  function Count(out: seq<Emission>, header: string): nat {
    |header| + Weight(Counted(out))
  }

  /** A packet directly before another was closed because the other's first row did not fit the count. */
  predicate ClosesForCause(out: seq<Emission>, i: nat, header: string, maxTokens: nat)
    requires i + 1 < |out|
  {
    out[i].Packet? && out[i + 1].Packet? ==>
      && out[i + 1].rows != []
      && Count(out[..i + 1], header) + |out[i + 1].rows[0]| + 1 > 4 * maxTokens
  }

  /** A row that is not the first of its packet joined because it fit the count. */
  predicate JoinsForCause(out: seq<Emission>, i: nat, j: nat, header: string, maxTokens: nat)
    requires i < |out|
  {
    out[i].Packet? && 0 < j < |out[i].rows| ==>
      Count(out[..i] + [Packet(out[i].rows[..j])], header) + |out[i].rows[j]| + 1 <= 4 * maxTokens
  }

  /** The bare header is emitted exactly when an oversized row finds the buffer without rows. */
  predicate HeadsRightly(out: seq<Emission>, i: nat, header: string)
    requires i < |out|
  {
    var bare := i == 0 || out[i - 1].Forced?;
    && (out[i] == Packet([]) ==> header != "" && bare)
    && (out[i].Forced? && bare ==> header == "")
  }

  ghost predicate AllClose(out: seq<Emission>, header: string, maxTokens: nat) {
    forall i :: 0 <= i < |out| - 1 ==> ClosesForCause(out, i, header, maxTokens)
  }

  ghost predicate AllJoin(out: seq<Emission>, header: string, maxTokens: nat) {
    forall i, j :: 0 <= i < |out| ==> JoinsForCause(out, i, j, header, maxTokens)
  }

  ghost predicate AllHead(out: seq<Emission>, header: string) {
    forall i :: 0 <= i < |out| ==> HeadsRightly(out, i, header)
  }

  // ---- The invariant ----

  /** The emissions with the rows still in the buffer. */
  function Open(p: Packing): seq<Emission> {
    p.out + [Packet(p.rows)]
  }

  ghost predicate PackHeld(p: Packing, header: string, maxTokens: nat) {
    && p.chars == Count(Open(p), header)
    && (p.out != [] && p.out[|p.out| - 1].Packet? ==> p.rows != [])
    && AllClose(Open(p), header, maxTokens) && AllJoin(Open(p), header, maxTokens) && AllHead(p.out, header)
  }

  lemma ClosesNext(out: seq<Emission>, e: Emission, header: string, maxTokens: nat)
    requires AllClose(out, header, maxTokens)
    requires out != [] && e.Packet? && out[|out| - 1].Packet? ==>
      e.rows != [] && Count(out, header) + |e.rows[0]| + 1 > 4 * maxTokens
    ensures AllClose(out + [e], header, maxTokens)
  {
    var more := out + [e];
    forall i | 0 <= i < |more| - 1 ensures ClosesForCause(more, i, header, maxTokens) {
      assert more[..i + 1] == out[..i + 1];
      if i == |out| - 1 {
        assert out[..i + 1] == out;
      } else {
        assert ClosesForCause(out, i, header, maxTokens);
      }
    }
  }

  lemma JoinsNext(out: seq<Emission>, e: Emission, header: string, maxTokens: nat)
    requires AllJoin(out, header, maxTokens)
    requires e.Packet? ==> forall j :: 0 < j < |e.rows| ==>
      Count(out + [Packet(e.rows[..j])], header) + |e.rows[j]| + 1 <= 4 * maxTokens
    ensures AllJoin(out + [e], header, maxTokens)
  {
    var more := out + [e];
    forall i, j | 0 <= i < |more| ensures JoinsForCause(more, i, j, header, maxTokens) {
      assert more[..i] == out[..i];
      if i == |out| {
        assert out[..i] == out;
      } else {
        assert JoinsForCause(out, i, j, header, maxTokens);
      }
    }
  }

  lemma HeadsNext(out: seq<Emission>, e: Emission, header: string)
    requires AllHead(out, header)
    requires
      var bare := out == [] || out[|out| - 1].Forced?;
      (e == Packet([]) ==> header != "" && bare) && (e.Forced? && bare ==> header == "")
    ensures AllHead(out + [e], header)
  {
    var more := out + [e];
    forall i | 0 <= i < |more| ensures HeadsRightly(more, i, header) {
      if i < |out| {
        assert HeadsRightly(out, i, header);
      }
    }
  }

  /** Dropping the buffer again. */
  lemma OpenIsPrefix(p: Packing, header: string, maxTokens: nat)
    requires PackHeld(p, header, maxTokens)
    ensures AllClose(p.out, header, maxTokens) && AllJoin(p.out, header, maxTokens)
  {
    var open := Open(p);
    forall i | 0 <= i < |p.out| - 1 ensures ClosesForCause(p.out, i, header, maxTokens) {
      assert open[..i + 1] == p.out[..i + 1] && ClosesForCause(open, i, header, maxTokens);
    }
    forall i, j | 0 <= i < |p.out| ensures JoinsForCause(p.out, i, j, header, maxTokens) {
      assert open[..i] == p.out[..i] && JoinsForCause(open, i, j, header, maxTokens);
    }
  }

  /** The rows in the buffer joined one by one. */
  lemma BufferJoined(p: Packing, header: string, maxTokens: nat, j: nat)
    requires PackHeld(p, header, maxTokens) && 0 < j < |p.rows|
    ensures Count(p.out + [Packet(p.rows[..j])], header) + |p.rows[j]| + 1 <= 4 * maxTokens
  {
    assert JoinsForCause(Open(p), |p.out|, j, header, maxTokens);
    assert Open(p)[..|p.out|] == p.out;
  }

  /** One more row in the buffer weighs its length and a separator. */
  lemma CountGrows(p: Packing, row: string, header: string)
    ensures Count(p.out + [Packet(p.rows + [row])], header) == Count(Open(p), header) + |row| + 1
  {
    CountedNext(p.out, Packet(p.rows));
    CountedNext(p.out, Packet(p.rows + [row]));
    WeightNext(Counted(Open(p)), row);
    assert Counted(p.out) + (p.rows + [row]) == Counted(p.out) + p.rows + [row];
  }

  lemma JoinStillCloses(p: Packing, row: string, header: string, maxTokens: nat)
    requires PackHeld(p, header, maxTokens)
    ensures AllClose(p.out + [Packet(p.rows + [row])], header, maxTokens)
  {
    OpenIsPrefix(p, header, maxTokens);
    if p.out != [] && p.out[|p.out| - 1].Packet? {
      assert ClosesForCause(Open(p), |p.out| - 1, header, maxTokens);
      assert Open(p)[..|p.out|] == p.out;
    }
    ClosesNext(p.out, Packet(p.rows + [row]), header, maxTokens);
  }

  lemma JoinKeepsHeld(p: Packing, row: string, header: string, maxTokens: nat)
    requires PackHeld(p, header, maxTokens)
    requires p.rows != [] ==> p.chars + |row| + 1 <= 4 * maxTokens
    ensures PackHeld(Packing(p.out, p.rows + [row], p.chars + |row| + 1), header, maxTokens)
  {
    var rows := p.rows + [row];
    CountGrows(p, row, header);
    JoinStillCloses(p, row, header, maxTokens);
    OpenIsPrefix(p, header, maxTokens);
    forall j | 0 < j < |rows|
      ensures Count(p.out + [Packet(rows[..j])], header) + |rows[j]| + 1 <= 4 * maxTokens
    {
      assert rows[..j] == p.rows[..j];
      if j < |p.rows| {
        BufferJoined(p, header, maxTokens, j);
      } else {
        assert p.rows[..j] == p.rows;
      }
    }
    JoinsNext(p.out, Packet(rows), header, maxTokens);
  }

  lemma OverflowKeepsHeld(p: Packing, row: string, header: string, maxTokens: nat)
    requires PackHeld(p, header, maxTokens)
    requires p.rows != [] && p.chars + |row| + 1 > 4 * maxTokens
    ensures PackHeld(Packing(Open(p), [row], |header| + |row| + 1), header, maxTokens)
  {
    var out := Open(p);
    CountedNext(out, Packet([row]));
    assert Counted(out + [Packet([row])]) == [row];
    assert Weight([row]) == |row| + 1 by {
      WeightNext([], row);
      assert [] + [row] == [row];
    }
    ClosesNext(out, Packet([row]), header, maxTokens);
    JoinsNext(out, Packet([row]), header, maxTokens);
    HeadsNext(p.out, Packet(p.rows), header);
  }

  lemma ForceKeepsHeld(p: Packing, row: string, header: string, maxTokens: nat)
    requires PackHeld(p, header, maxTokens)
    ensures PackHeld(
      Packing((if Buffer(header, p.rows) == [] then p.out else Open(p)) + [Forced(row)], [], p.chars), header,
      maxTokens)
  {
    var sent := if Buffer(header, p.rows) == [] then p.out else Open(p);
    var out := sent + [Forced(row)];
    OpenIsPrefix(p, header, maxTokens);
    CountedNext(p.out, Packet(p.rows));
    CountedNext(sent, Forced(row));
    CountedNext(out, Packet([]));
    assert Counted(p.out) + [] == Counted(p.out) && Counted(out) + [] == Counted(out);
    ClosesNext(sent, Forced(row), header, maxTokens);
    ClosesNext(out, Packet([]), header, maxTokens);
    JoinsNext(sent, Forced(row), header, maxTokens);
    JoinsNext(out, Packet([]), header, maxTokens);
    HeadForced(p, row, header);
  }

  lemma HeadForced(p: Packing, row: string, header: string)
    requires AllHead(p.out, header) && (p.out != [] && p.out[|p.out| - 1].Packet? ==> p.rows != [])
    ensures AllHead((if Buffer(header, p.rows) == [] then p.out else Open(p)) + [Forced(row)], header)
  {
    if Buffer(header, p.rows) == [] {
      HeadsNext(p.out, Forced(row), header);
    } else {
      HeadsNext(p.out, Packet(p.rows), header);
      HeadsNext(Open(p), Forced(row), header);
    }
  }

  lemma {:induction false} PackKeepsHeld(rows: seq<string>, header: string, maxTokens: nat)
    ensures PackHeld(PackRows(rows, header, maxTokens), header, maxTokens)
  {
    if rows == [] {
      CountedNext([], Packet([]));
      assert [] + [Packet([])] == [Packet([])];
    } else {
      var init, row := rows[..|rows| - 1], rows[|rows| - 1];
      var p := PackRows(init, header, maxTokens);
      PackKeepsHeld(init, header, maxTokens);
      RowKeepsHeld(p, row, header, maxTokens);
    }
  }

  lemma RowKeepsHeld(p: Packing, row: string, header: string, maxTokens: nat)
    requires PackHeld(p, header, maxTokens)
    ensures PackHeld(PackRow(p, row, header, maxTokens), header, maxTokens)
  {
    if EstimateTokens(row) > maxTokens {
      ForceKeepsHeld(p, row, header, maxTokens);
      assert p.out + [] + [Forced(row)] == p.out + [Forced(row)];
    } else if p.rows != [] && p.chars + |row| + 1 > 4 * maxTokens {
      OverflowKeepsHeld(p, row, header, maxTokens);
    } else {
      JoinKeepsHeld(p, row, header, maxTokens);
    }
  }

  // ---- What every packing shows ----

  /** A packet is closed only for cause: directly before another packet because the next row did not fit the running
      count, otherwise before an oversized row or at the end. A row joins a packet only if it fits the count. The bare
      header is emitted exactly when an oversized row finds no rows in the buffer. */
  lemma PacketsCloseForCause(rows: seq<string>, header: string, maxTokens: nat)
    ensures
      var out := Pack(rows, header, maxTokens);
      AllClose(out, header, maxTokens) && AllJoin(out, header, maxTokens) && AllHead(out, header)
  {
    var p := PackRows(rows, header, maxTokens);
    PackKeepsHeld(rows, header, maxTokens);
    OpenIsPrefix(p, header, maxTokens);
    if p.rows != [] {
      HeadsNext(p.out, Packet(p.rows), header);
    }
  }

  // ---- Tables without oversized rows ----

  /** A row fits beside the rows of a packet under the header. */
  function TableRule(header: string, maxTokens: nat): Rule<string> {
    (packet: seq<string>, row: string) => |header| + Weight(packet) + |row| + 1 <= 4 * maxTokens
  }

  function Packets(groups: seq<seq<string>>): (out: seq<Emission>)
    ensures |out| == |groups| && forall i :: 0 <= i < |groups| ==> out[i] == Packet(groups[i])
  {
    seq(|groups|, i requires 0 <= i < |groups| => Packet(groups[i]))
  }

  function RowGroups(out: seq<Emission>): (groups: seq<seq<string>>)
    ensures |groups| == |out| && forall i :: 0 <= i < |out| ==> groups[i] == RowsOf(out[i])
  {
    seq(|out|, i requires 0 <= i < |out| => RowsOf(out[i]))
  }

  lemma {:induction false} RowGroupsCover(out: seq<Emission>, of: Emission -> seq<string>)
    requires forall e :: of(e) == RowsOf(e)
    ensures Concat(RowGroups(out)) == FlatMap(of, out)
  {
    if out != [] {
      var init, last := out[..|out| - 1], out[|out| - 1];
      RowGroupsCover(init, of);
      assert RowGroups(out) == RowGroups(init) + [RowsOf(last)];
      ConcatNext(RowGroups(init), RowsOf(last));
    }
  }

  predicate HasNoLargeRow(rows: seq<string>, maxTokens: nat) {
    forall row <- rows :: EstimateTokens(row) <= maxTokens
  }

  lemma AllArePackets(rows: seq<string>, header: string, maxTokens: nat, i: nat)
    requires HasNoLargeRow(rows, maxTokens) && i < |Pack(rows, header, maxTokens)|
    ensures Pack(rows, header, maxTokens)[i].Packet?
  {
    var out := Pack(rows, header, maxTokens);
    PackPartitionsRows(rows, header, maxTokens);
    assert out[i] in out && IsRightlyPlaced(out[i], maxTokens);
    if out[i].Forced? {
      PackedRowIsRow(rows, header, maxTokens, i, out[i].row);
    }
  }

  lemma CountedPacket(out: seq<Emission>, rows: seq<string>)
    requires forall e <- out :: e.Packet?
    ensures Counted(out + [Packet(rows)]) == rows
  {
    CountedNext(out, Packet(rows));
    if out != [] {
      assert out[|out| - 1] in out;
    }
  }

  lemma PacketHasRows(rows: seq<string>, header: string, maxTokens: nat, i: nat)
    requires HasNoLargeRow(rows, maxTokens) && i < |Pack(rows, header, maxTokens)|
    ensures RowsOf(Pack(rows, header, maxTokens)[i]) != []
  {
    AllArePackets(rows, header, maxTokens, i);
    if Pack(rows, header, maxTokens)[i] == Packet([]) {
      HeaderOnlyBeforeForced(rows, header, maxTokens, i);
      AllArePackets(rows, header, maxTokens, i + 1);
    }
  }

  lemma GroupIsJoinable(rows: seq<string>, header: string, maxTokens: nat, i: nat)
    requires HasNoLargeRow(rows, maxTokens) && i < |Pack(rows, header, maxTokens)|
    ensures IsJoinable(RowsOf(Pack(rows, header, maxTokens)[i]), TableRule(header, maxTokens))
  {
    var out := Pack(rows, header, maxTokens);
    PacketsCloseForCause(rows, header, maxTokens);
    forall e | e in out ensures e.Packet? {
      var k :| 0 <= k < |out| && out[k] == e;
      AllArePackets(rows, header, maxTokens, k);
    }
    assert out[i] in out;
    var group := out[i].rows;
    PacketHasRows(rows, header, maxTokens, i);
    forall j | 0 < j < |group| ensures TableRule(header, maxTokens)(group[..j], group[j]) {
      assert JoinsForCause(out, i, j, header, maxTokens);
      CountedPacket(out[..i], group[..j]);
    }
  }

  lemma GroupIsStopped(rows: seq<string>, header: string, maxTokens: nat, i: nat)
    requires HasNoLargeRow(rows, maxTokens) && i + 1 < |Pack(rows, header, maxTokens)|
    ensures
      var out := Pack(rows, header, maxTokens);
      StopsBefore(RowsOf(out[i]), RowsOf(out[i + 1]), TableRule(header, maxTokens))
  {
    var out := Pack(rows, header, maxTokens);
    PacketsCloseForCause(rows, header, maxTokens);
    forall e | e in out[..i] ensures e.Packet? {
      var k :| 0 <= k < i && out[k] == e;
      AllArePackets(rows, header, maxTokens, k);
    }
    AllArePackets(rows, header, maxTokens, i);
    AllArePackets(rows, header, maxTokens, i + 1);
    assert ClosesForCause(out, i, header, maxTokens);
    CountedPacket(out[..i], out[i].rows);
    assert out[..i + 1] == out[..i] + [out[i]];
  }

  /** A table without oversized rows is packed greedily: its packets are the one division of the rows into consecutive
      groups in which every next row fits under the header and no packet could have taken the row after it. */
  lemma PackIsGreedy(rows: seq<string>, header: string, maxTokens: nat, groups: seq<seq<string>>)
    requires HasNoLargeRow(rows, maxTokens)
    ensures Pack(rows, header, maxTokens) == Packets(groups)
      <==> Concat(groups) == rows && IsGreedyGrouping(groups, TableRule(header, maxTokens))
  {
    var out, rule := Pack(rows, header, maxTokens), TableRule(header, maxTokens);
    var packed := RowGroups(out);
    RowGroupsCover(out, ROWS);
    PackPartitionsRows(rows, header, maxTokens);
    forall i | 0 <= i < |packed| ensures IsJoinable(packed[i], rule) {
      GroupIsJoinable(rows, header, maxTokens, i);
    }
    forall i | 0 <= i < |packed| - 1 ensures StopsBefore(packed[i], packed[i + 1], rule) {
      GroupIsStopped(rows, header, maxTokens, i);
    }
    GreedyGroupingIsUnique(rows, packed, rule);
    GreedyGroupingIsUnique(rows, groups, rule);
    assert out == Packets(packed) by {
      forall i | 0 <= i < |out| ensures out[i] == Packets(packed)[i] {
        AllArePackets(rows, header, maxTokens, i);
      }
    }
    if out == Packets(groups) {
      assert forall i :: 0 <= i < |groups| ==> packed[i] == groups[i];
      assert packed == groups;
    }
  }

  lemma {:induction false} WeightOfPrefix(rows: seq<string>, j: nat)
    requires j < |rows|
    ensures Weight(rows[..j]) + |rows[j]| + 1 <= Weight(rows)
  {
    WeightNext(rows[..j], rows[j]);
    assert rows == rows[..j] + [rows[j]] + rows[j + 1..];
    TotalLengthAppend(rows[..j] + [rows[j]], rows[j + 1..]);
  }

  /** A table whose header and rows fit together is one packet. */
  lemma SmallTableIsOnePacket(rows: seq<string>, header: string, maxTokens: nat)
    requires rows != [] && |header| + Weight(rows) <= 4 * maxTokens
    ensures Pack(rows, header, maxTokens) == [Packet(rows)]
  {
    forall row | row in rows ensures EstimateTokens(row) <= maxTokens {
      var j :| 0 <= j < |rows| && rows[j] == row;
      WeightOfPrefix(rows, j);
    }
    forall j | 0 < j < |rows| ensures TableRule(header, maxTokens)(rows[..j], rows[j]) {
      WeightOfPrefix(rows, j);
    }
    ConcatSingle(rows);
    PackIsGreedy(rows, header, maxTokens, [rows]);
    assert Packets([rows]) == [Packet(rows)];
  }

  // ---- What the header and an emission say ----

  /** The header is that of the first row's cells: with all of them true, their texts in one line; a cell that is not
      true does not show, and with none left there is no header. */
  lemma HeaderMeaning(first: seq<Cell>, rest: seq<seq<Cell>>)
    ensures first != [] && (forall c <- first :: c.truthy) ==>
      HeaderPrefix([first] + rest) == Join(" | ", Shown(first)) + "\n"
    ensures (forall c <- first :: !c.truthy) <==> HeaderPrefix([first] + rest) == ""
  {
    if forall c <- first :: c.truthy {
      AllShow(first);
    }
    NoneShow(first);
  }

  lemma {:induction false} AllShow(row: seq<Cell>)
    requires forall c <- row :: c.truthy
    ensures ShownTrue(row) == Shown(row)
  {
    if row != [] {
      AllShow(row[1..]);
      assert Shown(row) == [row[0].shown] + Shown(row[1..]);
    }
  }

  lemma {:induction false} NoneShow(row: seq<Cell>)
    ensures ShownTrue(row) == [] <==> forall c <- row :: !c.truthy
  {
    if row != [] {
      NoneShow(row[1..]);
      assert row == [row[0]] + row[1..];
    }
  }

  lemma {:induction false} FalseCellIsSkipped(before: seq<Cell>, cell: Cell, after: seq<Cell>, rest: seq<seq<Cell>>)
    requires !cell.truthy
    ensures HeaderPrefix([before + [cell] + after] + rest) == HeaderPrefix([before + after] + rest)
  {
    ShownAppend(before + [cell], after);
    ShownAppend(before, [cell]);
    ShownAppend(before, after);
    assert [cell][1..] == [] && ShownTrue([cell]) == [];
    assert ShownTrue(before) + [] == ShownTrue(before);
  }

  lemma {:induction false} ShownAppend(a: seq<Cell>, b: seq<Cell>)
    ensures ShownTrue(a + b) == ShownTrue(a) + ShownTrue(b)
  {
    if a == [] {
      assert a + b == b;
    } else {
      var first := if a[0].truthy then [a[0].shown] else [];
      ShownAppend(a[1..], b);
      assert (a + b)[0] == a[0] && (a + b)[1..] == a[1..] + b;
      assert ShownTrue(a + b) == first + (ShownTrue(a[1..]) + ShownTrue(b));
    }
  }

  /** A row shows its cells in order, with a bar between them, whether or not they count as true. */
  lemma RowMeaning(before: seq<Cell>, cell: Cell)
    ensures RowTexts([[]]) == [""] && RowTexts([[cell]]) == [cell.shown]
    ensures before != [] ==> RowTexts([before + [cell]])[0] == RowTexts([before])[0] + " | " + cell.shown
  {
    assert Shown(before + [cell]) == Shown(before) + [cell.shown];
    assert Shown([cell]) == [cell.shown];
    JoinNext(" | ", Shown(before), cell.shown);
  }

  /** What is emitted is stripped, and comes out in one piece if it is within the budget; a larger one is broken into
      lines. A row without cells does not show. */
  lemma EmissionMeaning(rows: seq<string>, header: string, maxTokens: Positive)
    ensures
      var parts := (if header == "" then [] else [header]) + rows;
      var joined := Strip(Join("\n", NonEmpty(parts)));
      var texts := EmissionTexts(Packet(rows), header, maxTokens);
      && (joined == "" ==> texts == [])
      && (joined != "" && EstimateTokens(joined) <= maxTokens ==> texts == [joined])
      && (EstimateTokens(joined) > maxTokens ==> forall t <- texts :: '\n' !in t)
  {
    SplitHasNoBreak(Strip(Join("\n", NonEmpty(Buffer(header, rows)))), maxTokens);
  }
}
