/**
 Both phases together, line by line, and the documents they work on.
 */
module Splitting {
  import opened Collections
  import opened Text
  import opened Cutting
  import opened Merging
  import opened LineWidths

  /** A table cell: its text, and whether the stored value counts as true. */
  datatype Cell = Cell(shown: string, truthy: bool)

  /** One block of a parsed document. A missing heading path and missing rows are empty. */
  datatype Block = Block(
    id: string, kind: string, mdPreview: string, raw: string, rows: seq<seq<Cell>>, headingPath: seq<string>)

  datatype Chunk = Chunk(text: string, scopePath: seq<string>, sources: seq<string>, tokenCount: nat)

  function ExtractText(block: Block): string {
    if block.mdPreview != "" then block.mdPreview else block.raw
  }

  function Stamp(texts: seq<string>, scope: seq<string>, sources: seq<string>): (chunks: seq<Chunk>)
    ensures |chunks| == |texts|
    ensures forall i :: 0 <= i < |texts| ==> chunks[i] == Chunk(texts[i], scope, sources, EstimateTokens(texts[i]))
  {
    seq(|texts|, i requires 0 <= i < |texts| => Chunk(texts[i], scope, sources, EstimateTokens(texts[i])))
  }

  function LineTexts(line: string, maxTokens: Positive): seq<string> {
    if IsBlank(line) then [] else Merged(Fragments(line, maxTokens * 4), maxTokens, ESTIMATE)
  }

  function LineSplitter(maxTokens: Positive): string -> seq<string> {
    (line: string) => LineTexts(line, maxTokens)
  }

  function SplitTexts(text: string, maxTokens: Positive): seq<string> {
    FlatMap(LineSplitter(maxTokens), SplitLines(text))
  }

  method SplitTextTwoPhase(text: string, maxTokens: Positive, scope: seq<string>, sources: seq<string>)
    returns (chunks: seq<Chunk>)
    ensures chunks == Stamp(SplitTexts(text, maxTokens), scope, sources)
  {
    chunks := [];
    var lines := SplitLines(text);
    for i := 0 to |lines|
      invariant chunks == Stamp(FlatMap(LineSplitter(maxTokens), lines[..i]), scope, sources)
    {
      StampNext(LineSplitter(maxTokens), lines, i, scope, sources);
      if IsBlank(lines[i]) {
        continue;
      }
      var fragments := HardCut(lines[i], maxTokens * 4);
      var chunkTexts := TryMergeFragments(fragments, maxTokens, ESTIMATE);
      chunks := AppendStamped(chunks, chunkTexts, scope, sources);
    }
    assert lines[..|lines|] == lines;
  }

  lemma StampNext(splitter: string -> seq<string>, lines: seq<string>, i: nat, scope: seq<string>, sources: seq<string>)
    requires i < |lines|
    ensures Stamp(FlatMap(splitter, lines[..i + 1]), scope, sources)
      == Stamp(FlatMap(splitter, lines[..i]), scope, sources) + Stamp(splitter(lines[i]), scope, sources)
  {
    FlatMapNext(splitter, lines[..i], lines[i]);
    assert lines[..i + 1] == lines[..i] + [lines[i]];
  }

  method AppendStamped(before: seq<Chunk>, texts: seq<string>, scope: seq<string>, sources: seq<string>)
    returns (chunks: seq<Chunk>)
    ensures chunks == before + Stamp(texts, scope, sources)
  {
    chunks := before;
    for k := 0 to |texts|
      invariant chunks == before + Stamp(texts[..k], scope, sources)
    {
      assert texts[..k + 1] == texts[..k] + [texts[k]];
      chunks := chunks + [Chunk(texts[k], scope, sources, EstimateTokens(texts[k]))];
    }
    assert texts[..|texts|] == texts;
  }

  // ---- What splitting keeps ----

  lemma LineKeepsText(line: string, maxTokens: Positive)
    ensures Squeeze(Concat(LineTexts(line, maxTokens))) == Squeeze(line)
  {
    if IsBlank(line) {
      SqueezeBlank(line);
    } else {
      var frags := Fragments(line, maxTokens * 4);
      FragmentsKeepText(line, maxTokens * 4);
      MergeKeepsText(frags, maxTokens, ESTIMATE);
      SqueezeNonBlank(frags);
    }
  }

  /** Splitting a text keeps every visible character, once and in order. */
  lemma SplitKeepsText(text: string, maxTokens: Positive)
    ensures Squeeze(Concat(SplitTexts(text, maxTokens))) == Squeeze(text)
  {
    var lines, squeeze := SplitLines(text), (s: string) => Squeeze(s);
    forall line | line in lines ensures Squeeze(Concat(LineSplitter(maxTokens)(line))) == squeeze(line) {
      LineKeepsText(line, maxTokens);
    }
    FlatMapInk(LineSplitter(maxTokens), squeeze, lines);
    SqueezeConcat(lines);
    SqueezeJoin(lines);
    JoinOfSplit(text);
  }

  /** Every text a line is split into comes from a non-empty greedy group of its fragments. */
  lemma LineTextIsGroup(line: string, maxTokens: Positive, i: nat) returns (group: seq<string>)
    requires i < |LineTexts(line, maxTokens)|
    ensures LineTexts(line, maxTokens)[i] == Concat(group) && group != []
    ensures forall f <- group :: |f| <= 4 * maxTokens && !IsBlank(f)
    ensures |group| >= 2 ==> EstimateTokens(Concat(group)) <= maxTokens + 3 * |group| / 4 && |group| <= maxTokens
  {
    var frags := NonBlank(Fragments(line, maxTokens * 4));
    var rule := MergeRule(maxTokens, ESTIMATE);
    var groups := GreedyGroups(frags, rule);
    group := groups[i];
    GreedyGroupingIsUnique(frags, groups, rule);
    assert IsJoinable(groups[i], rule);
    MergedTokenBound(frags, maxTokens, i);
    FragmentsKeepText(line, maxTokens * 4);
    NonBlankMembers(Fragments(line, maxTokens * 4));
    forall f | f in group ensures |f| <= 4 * maxTokens && !IsBlank(f) {
      ConcatHolds(groups, i, f);
    }
  }

  /** No text comes out blank, and none exceeds `2M - 1` tokens. */
  lemma LineTokenBound(line: string, maxTokens: Positive, i: nat)
    requires i < |LineTexts(line, maxTokens)|
    ensures EstimateTokens(LineTexts(line, maxTokens)[i]) <= 2 * maxTokens - 1
    ensures !IsBlank(LineTexts(line, maxTokens)[i])
  {
    var group := LineTextIsGroup(line, maxTokens, i);
    if |group| == 1 {
      assert group == [group[0]];
      ConcatSingle(group[0]);
    }
    SqueezeBlank(Concat(group));
    SqueezeBlank(group[0]);
    SqueezeAppend(group[0], Concat(group[1..]));
  }

  lemma SplitTokenBound(text: string, maxTokens: Positive)
    ensures forall t <- SplitTexts(text, maxTokens) :: EstimateTokens(t) <= 2 * maxTokens - 1 && !IsBlank(t)
  {
    var lines := SplitLines(text);
    forall t | t in SplitTexts(text, maxTokens) ensures EstimateTokens(t) <= 2 * maxTokens - 1 && !IsBlank(t) {
      var k := FlatMapOrigin(LineSplitter(maxTokens), lines, t);
      var i :| 0 <= i < |LineTexts(lines[k], maxTokens)| && LineTexts(lines[k], maxTokens)[i] == t;
      LineTokenBound(lines[k], maxTokens, i);
    }
  }

  lemma {:induction false} ConcatMembers(parts: seq<string>, c: char)
    requires c in Concat(parts)
    ensures exists p :: p in parts && c in p
  {
    if c in parts[0] {
      assert parts[0] in parts;
    } else {
      ConcatMembers(parts[1..], c);
      var p :| p in parts[1..] && c in p;
      assert p in parts;
    }
  }

  lemma MergedIsOfText(line: string, maxTokens: Positive, t: string, c: char)
    requires t in LineTexts(line, maxTokens) && c in t
    ensures c in line
  {
    var frags := Fragments(line, maxTokens * 4);
    var texts := LineTexts(line, maxTokens);
    var i :| 0 <= i < |texts| && texts[i] == t;
    TextIsOfAll(texts, i, c);
    MergeKeepsText(frags, maxTokens, ESTIMATE);
    ConcatMembers(NonBlank(frags), c);
    NonBlankMembers(frags);
    FragmentsAreOfText(line, maxTokens * 4);
  }

  lemma TextIsOfAll(texts: seq<string>, i: nat, c: char)
    requires i < |texts| && c in texts[i]
    ensures c in Concat(texts)
  {
    ConcatHolds(texts, i, c);
  }

  /** Splitting a text breaks it at every line break: no text holds one. */
  lemma SplitHasNoBreak(text: string, maxTokens: Positive)
    ensures forall t <- SplitTexts(text, maxTokens) :: '\n' !in t
  {
    var lines := SplitLines(text);
    LinesHaveNoBreak(text);
    forall t | t in SplitTexts(text, maxTokens) ensures '\n' !in t {
      var k := FlatMapOrigin(LineSplitter(maxTokens), lines, t);
      if '\n' in t {
        MergedIsOfText(lines[k], maxTokens, t, '\n');
      }
      assert lines[k] in lines;
    }
  }

  // ---- The promised bound: every text within `maxTokens` ----

  predicate AllWithin(texts: seq<string>, maxTokens: nat) {
    forall t <- texts :: EstimateTokens(t) <= maxTokens
  }

  lemma ShortLineFits(line: string, maxTokens: Positive)
    requires |line| <= 4 * maxTokens + 3
    ensures AllWithin(LineTexts(line, maxTokens), maxTokens)
  {
    if !IsBlank(line) {
      var frags := Fragments(line, maxTokens * 4);
      MergeKeepsText(frags, maxTokens, ESTIMATE);
      if |line| <= maxTokens * 4 {
        ConcatSingle(line);
      } else {
        PiecesPartition(line, 0, maxTokens * 4);
        DroppingShortens(CutPieces(line, 0, maxTokens * 4));
        FragmentsKeepText(line, maxTokens * 4);
      }
      DroppingShortens(frags);
      var texts := LineTexts(line, maxTokens);
      forall t | t in texts ensures EstimateTokens(t) <= maxTokens {
        var i :| 0 <= i < |texts| && texts[i] == t;
        ElementLength(texts, i);
      }
    }
  }

  lemma ShortLinesFit(text: string, maxTokens: Positive)
    requires LinesWithin(text, 4 * maxTokens + 3)
    ensures AllWithin(SplitTexts(text, maxTokens), maxTokens)
  {
    var lines := SplitLines(text);
    forall t | t in SplitTexts(text, maxTokens) ensures EstimateTokens(t) <= maxTokens {
      var k := FlatMapOrigin(LineSplitter(maxTokens), lines, t);
      ShortLineFits(lines[k], maxTokens);
    }
  }

  /** A line of `4M + 4` characters whose two pieces count `M - 1` and `1` tokens but join to `M + 1`. */
  function OverrunLine(maxTokens: nat): (line: string)
    requires maxTokens >= 2
    ensures |line| == 4 * maxTokens + 4
    ensures forall i :: 0 <= i < |line| ==>
      line[i] == if i < 4 * maxTokens - 2 then 'a' else if i == 4 * maxTokens - 2 then ' ' else 'b'
  {
    seq(4 * maxTokens + 4, i => if i < 4 * maxTokens - 2 then 'a' else if i == 4 * maxTokens - 2 then ' ' else 'b')
  }

  lemma OverrunPieces(maxTokens: nat)
    requires maxTokens >= 2
    ensures
      var line, cut := OverrunLine(maxTokens), 4 * maxTokens - 1;
      CutPieces(line, 0, 4 * maxTokens) == [line[..cut], line[cut..]]
  {
    var line, m := OverrunLine(maxTokens), 4 * maxTokens;
    var lo := WindowStart(m);
    assert !IsSafeLookbackChar(line[m - 1]) && IsSafeLookbackChar(line[m - 2]);
    assert LastSafe(line, m, lo, m) == LastSafe(line, m - 1, lo, m) == m - 1;
    assert SkipNumeral(line, m - 1, lo) == m - 1;
    assert CutEnd(line, 0, m) == m - 1;
    assert CutEnd(line, m - 1, m) == |line|;
    assert line[m - 1..|line|] == line[m - 1..];
    assert CutPieces(line, m - 1, m) == [line[m - 1..]] + CutPieces(line, |line|, m);
    assert line[0..m - 1] == line[..m - 1];
  }

  lemma OverrunSeam(maxTokens: nat)
    requires maxTokens >= 2
    ensures
      var line, cut := OverrunLine(maxTokens), 4 * maxTokens - 1;
      && !IsBlank(line[..cut]) && !IsBlank(line[cut..]) && !IsBlank(line)
      && IsSafeJoinBoundary(line[..cut], line[cut..])
  {
    var line, cut := OverrunLine(maxTokens), 4 * maxTokens - 1;
    assert !IsSpace(line[..cut][0]) && !IsSpace(line[cut..][0]) && !IsSpace(line[0]);
    assert line[..cut][cut - 1] == ' ';
  }

  lemma TwoPieceLine(line: string, left: string, right: string, maxTokens: Positive)
    requires |line| > 4 * maxTokens && !IsBlank(line) && !IsBlank(left) && !IsBlank(right)
    requires CutPieces(line, 0, maxTokens * 4) == [left, right]
    ensures LineTexts(line, maxTokens) == Merged([left, right], maxTokens, ESTIMATE)
  {
    NonBlankTwice([left, right]);
  }

  lemma UnsafeSeamStays(left: string, right: string, maxTokens: Positive)
    requires !IsSafeJoinBoundary(left, right) && !IsBlank(left) && !IsBlank(right)
    ensures Merged([left, right], maxTokens, ESTIMATE) == [left, right]
  {
    var both, rule := [left, right], MergeRule(maxTokens, ESTIMATE);
    var groups := [[left], [right]];
    NonBlankTwice(both);
    assert !rule([left], right) && StopsBefore(groups[0], groups[1], rule);
    assert Concat(groups) == both by {
      ConcatNext([[left]], [right]);
    }
    GreedyGroupingIsUnique(both, groups, rule);
    ConcatSingle(left);
    ConcatSingle(right);
  }

  lemma UnsafeSeamSplits(line: string, left: string, right: string, maxTokens: Positive)
    requires |line| > 4 * maxTokens && forall i :: 0 <= i < |line| ==> line[i] != '\n'
    requires CutPieces(line, 0, maxTokens * 4) == [left, right] && !IsSafeJoinBoundary(left, right)
    requires !IsBlank(line) && !IsBlank(left) && !IsBlank(right)
    ensures SplitTexts(line, maxTokens) == [left, right]
  {
    UnsafeSeamStays(left, right, maxTokens);
    TwoPieceLine(line, left, right, maxTokens);
    SplitWithoutNewline(line);
    FlatMapNext(LineSplitter(maxTokens), [], line);
    assert [] + [line] == [line];
  }

  /** The number cut at its decimal point stays split: the seam is one that merging refuses. */
  lemma NumberStaysSplit()
    ensures SplitTexts(PART_NUMBER, 4) == ["aaaaaaaaaa PN1.", "55"]
  {
    var left, right := "aaaaaaaaaa PN1.", "55";
    NumberIsCutAtPoint();
    assert left[14] == '.' && !IsSafeJoinBoundary(left, right);
    assert !IsSpace(left[0]) && !IsSpace(right[0]) && !IsSpace(PART_NUMBER[0]);
    UnsafeSeamSplits(PART_NUMBER, left, right, 4);
  }

  lemma OverrunMerges(maxTokens: nat)
    requires maxTokens >= 2
    ensures LineTexts(OverrunLine(maxTokens), maxTokens) == [OverrunLine(maxTokens)]
    ensures EstimateTokens(OverrunLine(maxTokens)) == maxTokens + 1
  {
    var line, cut := OverrunLine(maxTokens), 4 * maxTokens - 1;
    OverrunPieces(maxTokens);
    OverrunSeam(maxTokens);
    TwoPieceLine(line, line[..cut], line[cut..], maxTokens);
    MergeCanOverrun(maxTokens, maxTokens - 1, line[..cut], line[cut..]);
    assert line[..cut] + line[cut..] == line;
  }

  lemma OverrunLineOverruns(maxTokens: nat)
    requires maxTokens >= 2
    ensures SplitTexts(OverrunLine(maxTokens), maxTokens) == [OverrunLine(maxTokens)]
    ensures EstimateTokens(OverrunLine(maxTokens)) == maxTokens + 1
  {
    var line := OverrunLine(maxTokens);
    SplitWithoutNewline(line);
    OverrunMerges(maxTokens);
    FlatMapNext(LineSplitter(maxTokens), [], line);
    assert [] + [line] == [line];
  }

  /** `_split_text_two_phase` promises texts of at most `maxTokens` tokens. Among all texts with lines of at most
      `width` characters it keeps that promise exactly when `maxTokens` is 1 or `width` is at most `4M + 3`. */
  lemma SplitPromiseHoldsIff(maxTokens: Positive, width: nat)
    ensures (forall text :: LinesWithin(text, width) ==> AllWithin(SplitTexts(text, maxTokens), maxTokens))
      <==> maxTokens == 1 || width <= 4 * maxTokens + 3
  {
    if maxTokens == 1 || width <= 4 * maxTokens + 3 {
      forall text | LinesWithin(text, width) ensures AllWithin(SplitTexts(text, maxTokens), maxTokens) {
        if maxTokens == 1 {
          SplitTokenBound(text, maxTokens);
        } else {
          ShortLinesFit(text, maxTokens);
        }
      }
    } else {
      var line := OverrunLine(maxTokens);
      OverrunLineOverruns(maxTokens);
      SplitWithoutNewline(line);
      assert LinesWithin(line, width);
      assert line in SplitTexts(line, maxTokens);
    }
  }
}
