/**
 Phase 1 of the chunker: fixed-width cuts through a text, each moved back to a safe place where one is in
 reach. `HardCut` and `FindSafeBoundary` are the loops; `CutPieces` and `SafeBoundary` say what they compute.
 */
module Cutting {
  import opened Collections
  import opened Text

  /** About four characters to the token, at least one. */
  function EstimateTokens(text: string): (n: nat)
    ensures n >= 1 && |text| <= 4 * n + 3
    ensures 4 * n <= |text| || n == 1
  {
    if |text| / 4 > 1 then |text| / 4 else 1
  }

  /** The estimate as a counter that can be passed along. */
  const ESTIMATE: string -> int := (text: string) => EstimateTokens(text)

  /** `str.isdigit`, for the ASCII and the fullwidth digits. */
  predicate IsDigit(c: char) {
    '0' <= c <= '9' || 0xFF10 <= c as int <= 0xFF19
  }

  predicate IsAscii(c: char) {
    c as int < 128
  }

  /** `c.isascii() and c.isalpha()` */
  predicate IsAsciiLetter(c: char) {
    'a' <= c <= 'z' || 'A' <= c <= 'Z'
  }

  /** A digit or the dot of a decimal. */
  predicate IsNumeral(c: char) {
    IsDigit(c) || c == '.'
  }

  /** A cut just after this character splits no word. */
  predicate IsSafeLookbackChar(c: char) {
    var u := c as int;
    || IsSpace(c)
    || 0x21 <= u <= 0x2F || 0x3A <= u <= 0x40 || 0x5B <= u <= 0x60 || 0x7B <= u <= 0x7E // ASCII punctuation, all of it
    || 0x3000 <= u <= 0x303F // CJK symbols and punctuation
    || 0xFF00 <= u <= 0xFFEF // fullwidth forms
    || 0x4E00 <= u <= 0x9FFF // CJK ideographs
    || 0x3400 <= u <= 0x4DBF // CJK extension A
  }

  /** Two neighbours that belong to one number, one word, or a number and its unit. */
  predicate IsUnsafePair(left: char, right: char) {
    || (IsDigit(left) && IsAsciiLetter(right))
    || (IsAsciiLetter(left) && IsDigit(right))
    || (IsDigit(left) && right == '.')
    || (left == '.' && IsDigit(right))
    || (IsAsciiLetter(left) && IsAsciiLetter(right))
  }

  /** The pairs a cut looks back for: the unsafe ones and two digits of one number. */
  predicate IsFlaggedCut(left: char, right: char) {
    IsUnsafePair(left, right) || (IsDigit(left) && IsDigit(right))
  }

  // ---- What the characters are ----

  const DIGITS: set<char> := {
    '0', '1', '2', '3', '4', '5', '6', '7', '8', '9',
    '\U{FF10}', '\U{FF11}', '\U{FF12}', '\U{FF13}', '\U{FF14}', '\U{FF15}', '\U{FF16}', '\U{FF17}', '\U{FF18}',
    '\U{FF19}'
  }

  const SMALL_LETTERS: set<char> := {
    'a', 'b', 'c', 'd', 'e', 'f', 'g', 'h', 'i', 'j', 'k', 'l', 'm',
    'n', 'o', 'p', 'q', 'r', 's', 't', 'u', 'v', 'w', 'x', 'y', 'z'
  }

  const CAPITALS: set<char> := {
    'A', 'B', 'C', 'D', 'E', 'F', 'G', 'H', 'I', 'J', 'K', 'L', 'M',
    'N', 'O', 'P', 'Q', 'R', 'S', 'T', 'U', 'V', 'W', 'X', 'Y', 'Z'
  }

  /** The digits of both widths and the letters of ASCII, by name. */
  lemma CharacterMeaning(c: char)
    ensures IsDigit(c) <==> c in DIGITS
    ensures IsAsciiLetter(c) <==> c in SMALL_LETTERS || c in CAPITALS
  {
  }

  /** Letters, and digits or the point of a decimal, that belong together. */
  predicate IsAtomSeam(left: char, right: char) {
    var l, r := IsDigit(left) || IsAsciiLetter(left), IsDigit(right) || IsAsciiLetter(right);
    || (l && r && !(IsDigit(left) && IsDigit(right)))
    || (IsDigit(left) && right == '.')
    || (left == '.' && IsDigit(right))
  }

  /** The pairs merging refuses, and those a cut looks back for. */
  lemma PairMeaning(left: char, right: char)
    ensures IsUnsafePair(left, right) <==> IsAtomSeam(left, right)
    ensures IsFlaggedCut(left, right) <==> IsAtomSeam(left, right) || (IsDigit(left) && IsDigit(right))
  {
  }

  /** The ASCII characters that a cut may follow, by name. */
  const SAFE_ASCII: set<char> := {
    '.', ',', ';', ':', '!', '?', '(', ')', '[', ']', '{', '}', '\"', '\'', '-', '/',
    '\\', '|', '<', '>', '=', '+', '*', '&', '%', '@', '#', '$', '^', '_', '~', '`',
    '\t', '\n', '\U{0B}', '\U{0C}', '\r', '\U{1C}', '\U{1D}', '\U{1E}', '\U{1F}', ' '
  }

  lemma SafeAsciiMeaning(c: char)
    requires IsAscii(c)
    ensures IsSafeLookbackChar(c) <==> c in SAFE_ASCII
  {
  }

  /** The CJK ideographs and fullwidth forms are safe; letters and digits of ASCII are not. */
  lemma SafeClasses(c: char)
    ensures '\U{4E00}' <= c <= '\U{9FFF}' || '\U{3400}' <= c <= '\U{4DBF}' ==> IsSafeLookbackChar(c)
    ensures '\U{3000}' <= c <= '\U{303F}' || '\U{FF00}' <= c <= '\U{FFEF}' ==> IsSafeLookbackChar(c)
    ensures IsAsciiLetter(c) || '0' <= c <= '9' ==> !IsSafeLookbackChar(c)
  {
  }

  // ---- Looking back ----

  /** The earliest position the look-back may reach: 20% of the distance, at least eight characters. */
  function WindowStart(pos: nat): (start: nat)
    ensures start <= pos
    ensures pos > 0 ==> start < pos
    ensures start > 0 ==> pos - start >= 8 && 5 * (pos - start) > pos - 5
    ensures pos - start <= 8 || 5 * (pos - start) <= pos
  {
    var lookback := if pos / 5 > 8 then pos / 5 else 8;
    if pos > lookback then pos - lookback else 0
  }

  function SkipNumeral(text: string, p: nat, lo: nat): (r: nat)
    requires lo <= p < |text|
    ensures lo <= r <= p
  {
    if p > lo && IsNumeral(text[p]) then SkipNumeral(text, p - 1, lo) else p
  }

  /** The last position in `(lo..pos]` that follows a safe character; `default` if there is none. */
  function LastSafe(text: string, pos: nat, lo: nat, default: nat): (r: nat)
    requires lo <= pos <= |text|
    ensures r == default || lo < r <= pos
  {
    if pos <= lo then default
    else if IsSafeLookbackChar(text[pos - 1]) then pos
    else LastSafe(text, pos - 1, lo, default)
  }

  function SafeBoundary(text: string, pos: nat): (r: nat)
    ensures r <= pos
  {
    if pos == 0 || pos >= |text| then pos
    else
      var lo := WindowStart(pos);
      var c := SkipNumeral(text, pos - 1, lo);
      if c + 1 < pos && IsNumeral(text[c + 1]) && IsSafeLookbackChar(text[c]) then c + 1
      else LastSafe(text, pos, lo, pos)
  }

  method FindSafeBoundary(text: string, hardCutPos: nat) returns (r: nat)
    ensures r == SafeBoundary(text, hardCutPos)
  {
    if hardCutPos == 0 || hardCutPos >= |text| {
      return hardCutPos;
    }
    var windowStart := WindowStart(hardCutPos);
    var clusterStart := hardCutPos - 1;
    while clusterStart > windowStart && IsNumeral(text[clusterStart])
      invariant windowStart <= clusterStart < hardCutPos
      invariant SkipNumeral(text, clusterStart, windowStart) == SkipNumeral(text, hardCutPos - 1, windowStart)
    {
      clusterStart := clusterStart - 1;
    }
    if clusterStart + 1 < hardCutPos && IsNumeral(text[clusterStart + 1]) && IsSafeLookbackChar(text[clusterStart]) {
      return clusterStart + 1;
    }
    var pos := hardCutPos;
    while pos > windowStart
      invariant windowStart <= pos <= hardCutPos
      invariant LastSafe(text, pos, windowStart, hardCutPos) == LastSafe(text, hardCutPos, windowStart, hardCutPos)
    {
      if IsSafeLookbackChar(text[pos - 1]) {
        return pos;
      }
      pos := pos - 1;
    }
    return hardCutPos;
  }

  lemma {:induction false} LastSafeMeaning(text: string, pos: nat, lo: nat, default: nat)
    requires lo <= pos <= |text|
    ensures
      var r := LastSafe(text, pos, lo, default);
      || (lo < r <= pos && IsSafeLookbackChar(text[r - 1]) && forall i :: r <= i < pos ==> !IsSafeLookbackChar(text[i]))
      || (r == default && forall i :: lo <= i < pos ==> !IsSafeLookbackChar(text[i]))
  {
    if pos > lo && !IsSafeLookbackChar(text[pos - 1]) {
      LastSafeMeaning(text, pos - 1, lo, default);
    }
  }

  /** A moved cut lies inside the window, just after a safe character; an unmoved one had none to go to,
      or sits after one already. */
  lemma SafeBoundaryIsSafe(text: string, pos: nat)
    requires 0 < pos < |text|
    ensures WindowStart(pos) < SafeBoundary(text, pos) <= pos
    ensures
      || IsSafeLookbackChar(text[SafeBoundary(text, pos) - 1])
      || (SafeBoundary(text, pos) == pos && forall i :: WindowStart(pos) <= i < pos ==> !IsSafeLookbackChar(text[i]))
  {
    LastSafeMeaning(text, pos, WindowStart(pos), pos);
  }

  /** Some character of `[lo..hi)` is safe to cut after. */
  predicate HasSafe(text: string, lo: nat, hi: nat)
    requires hi <= |text|
  {
    exists i :: lo <= i < hi && IsSafeLookbackChar(text[i])
  }

  /** The numerals `[begin..pos)` are a number's characters up to `pos`, from its first one on. */
  predicate IsNumberFrom(text: string, begin: nat, pos: nat)
    requires pos <= |text|
  {
    && begin < pos && (forall i :: begin <= i < pos ==> IsNumeral(text[i]))
    && (begin == 0 || !IsNumeral(text[begin - 1]))
  }

  /** The number that starts at `begin`, inside the window of a cut at `pos` and after `start`, follows a safe
      character; or it holds none, such as a decimal point, and has one before it in the window and after `start`. */
  predicate CanKeepNumber(text: string, begin: nat, pos: nat, start: nat)
    requires begin <= pos <= |text|
  {
    var lo := WindowStart(pos);
    && lo < begin && start < begin
    && (IsSafeLookbackChar(text[begin - 1])
        || (!HasSafe(text, begin, pos) && HasSafe(text, if lo < start then start else lo, begin)))
  }

  /** A number that starts at or before the window is cut. */
  lemma LongNumberIsCut(text: string, pos: nat, begin: nat)
    requires 0 < pos < |text| && IsNumberFrom(text, begin, pos) && begin <= WindowStart(pos)
    ensures SafeBoundary(text, pos) > begin
  {
    SafeBoundaryIsSafe(text, pos);
  }

  /** What the boundary is for a number that starts inside the window. */
  lemma BoundaryOfNumber(text: string, pos: nat, begin: nat)
    requires 0 < pos < |text| && IsNumberFrom(text, begin, pos) && WindowStart(pos) < begin
    ensures SafeBoundary(text, pos) ==
      if IsSafeLookbackChar(text[begin - 1]) then begin else LastSafe(text, pos, WindowStart(pos), pos)
  {
    SkipStopsBefore(text, pos - 1, WindowStart(pos), begin);
  }

  /** The scan stops between `start` and `begin` exactly when the last safe character is there. */
  lemma LastSafePlace(text: string, pos: nat, lo: nat, begin: nat, start: nat)
    requires lo < begin < pos <= |text| && start <= begin
    ensures start < LastSafe(text, pos, lo, pos) <= begin <==>
      start < begin && !HasSafe(text, begin, pos) && HasSafe(text, if lo < start then start else lo, begin)
  {
    LastSafeMeaning(text, pos, lo, pos);
  }

  /** `_find_safe_boundary` promises to cut before the number a cut would land in, not at its decimal point. These are
      exactly the numbers for which it does. */
  lemma NumberKeptWholeIff(text: string, pos: nat, begin: nat)
    requires 0 < pos < |text| && IsNumberFrom(text, begin, pos)
    ensures SafeBoundary(text, pos) <= begin <==> CanKeepNumber(text, begin, pos, 0)
    ensures WindowStart(pos) < begin && IsSafeLookbackChar(text[begin - 1]) ==> SafeBoundary(text, pos) == begin
  {
    if begin <= WindowStart(pos) {
      LongNumberIsCut(text, pos, begin);
    } else {
      BoundaryOfNumber(text, pos, begin);
      LastSafePlace(text, pos, WindowStart(pos), begin, 0);
    }
  }

  /** A number with its unit, cut inside the unit: the cut is made before the number exactly when nothing in it so far
      is safe to cut after, such as its decimal point, and something before it in the window is. */
  lemma UnitKeptWholeIff(text: string, pos: nat, begin: nat)
    requires 0 < pos < |text| && begin < pos && !IsNumeral(text[pos - 1])
    ensures SafeBoundary(text, pos) <= begin <==> !HasSafe(text, begin, pos) && HasSafe(text, WindowStart(pos), begin)
  {
    if begin <= WindowStart(pos) {
      SafeBoundaryIsSafe(text, pos);
    } else {
      LastSafePlace(text, pos, WindowStart(pos), begin, 0);
    }
  }

  lemma {:induction false} SkipStopsBefore(text: string, p: nat, lo: nat, begin: nat)
    requires lo < begin <= p + 1 <= |text| && p >= lo
    requires forall i :: begin <= i <= p ==> IsNumeral(text[i])
    requires !IsNumeral(text[begin - 1])
    ensures SkipNumeral(text, p, lo) == begin - 1
  {
    if p >= begin {
      SkipStopsBefore(text, p - 1, lo, begin);
    }
  }

  // ---- Cutting ----

  /** Where the piece that starts at `start` ends. */
  function CutEnd(text: string, start: nat, maxChars: Positive): (end: nat)
    requires start < |text|
    ensures start < end <= |text| && end <= start + maxChars
  {
    var hardEnd := if start + maxChars < |text| then start + maxChars else |text|;
    if hardEnd < |text| && hardEnd > start + 1 && IsFlaggedCut(text[hardEnd - 1], text[hardEnd]) then
      var safeEnd := SafeBoundary(text, hardEnd);
      if safeEnd > start then safeEnd else hardEnd
    else hardEnd
  }

  /** All pieces from `start` on, blank ones included. */
  function CutPieces(text: string, start: nat, maxChars: Positive): seq<string>
    requires start <= |text|
    decreases |text| - start
  {
    if start == |text| then []
    else
      var end := CutEnd(text, start, maxChars);
      [text[start..end]] + CutPieces(text, end, maxChars)
  }

  function Fragments(text: string, maxChars: Positive): seq<string> {
    if text == "" then [] else if |text| <= maxChars then [text] else NonBlank(CutPieces(text, 0, maxChars))
  }

  /** The cut one turn of the loop makes. */
  method NextCut(text: string, start: nat, maxChars: Positive) returns (end: nat)
    requires start < |text|
    ensures end == CutEnd(text, start, maxChars)
  {
    var n := |text|;
    var hardEnd := if start + maxChars < n then start + maxChars else n;
    end := hardEnd;
    if hardEnd < n && hardEnd > start + 1 {
      if IsFlaggedCut(text[hardEnd - 1], text[hardEnd]) {
        var safeEnd := FindSafeBoundary(text, hardEnd);
        if safeEnd > start {
          end := safeEnd;
        }
      }
    }
  }

  /** The pieces returned so far, after the next one. */
  lemma KeptNext(before: seq<string>, piece: string, rest: seq<string>)
    ensures before + NonBlank([piece] + rest)
      == (if IsBlank(piece) then before else before + [piece]) + NonBlank(rest)
  {
    assert ([piece] + rest)[1..] == rest;
    if IsBlank(piece) {
      assert NonBlank([piece] + rest) == NonBlank(rest);
    } else {
      assert NonBlank([piece] + rest) == [piece] + NonBlank(rest);
    }
  }

  method HardCut(text: string, maxChars: Positive) returns (fragments: seq<string>)
    ensures fragments == Fragments(text, maxChars)
  {
    if text == "" {
      return [];
    }
    if |text| <= maxChars {
      return [text];
    }
    fragments := [];
    var start, n := 0, |text|;
    while start < n
      invariant 0 <= start <= n
      invariant fragments + NonBlank(CutPieces(text, start, maxChars)) == NonBlank(CutPieces(text, 0, maxChars))
    {
      var end := NextCut(text, start, maxChars);
      var fragment := text[start..end];
      KeptNext(fragments, fragment, CutPieces(text, end, maxChars));
      if !IsBlank(fragment) {
        fragments := fragments + [fragment];
      }
      start := end;
    }
  }

  /** The same for the cuts themselves: a piece whose full width ends inside a number that starts in it ends at the
      number's start or before it, exactly for these numbers. */
  lemma CutKeepsNumberIff(text: string, start: nat, maxChars: Positive, begin: nat)
    requires start <= begin && start + maxChars < |text| && IsNumberFrom(text, begin, start + maxChars)
    requires IsFlaggedCut(text[start + maxChars - 1], text[start + maxChars])
    ensures CutEnd(text, start, maxChars) <= begin <==> CanKeepNumber(text, begin, start + maxChars, start)
  {
    var pos := start + maxChars;
    if begin <= WindowStart(pos) {
      LongNumberIsCut(text, pos, begin);
    } else {
      BoundaryOfNumber(text, pos, begin);
      LastSafePlace(text, pos, WindowStart(pos), begin, start);
    }
  }

  /** A cut that parts nothing stays at full width. */
  lemma UnflaggedCutStays(text: string, start: nat, maxChars: Positive)
    requires start + maxChars < |text|
    requires
      var l, r := text[start + maxChars - 1], text[start + maxChars];
      !IsAtomSeam(l, r) && !(IsDigit(l) && IsDigit(r))
    ensures CutEnd(text, start, maxChars) == start + maxChars
  {
  }

  /** A cut that would part letters or digits, or a digit from the point after it, is moved when the window holds a safe
      character of the piece, other than the point of a number; and it is not moved past a later one, unless to the
      start of a number. */
  lemma FlaggedCutMoves(text: string, start: nat, maxChars: Positive, k: nat)
    requires start + maxChars < |text| && start <= k < start + maxChars && WindowStart(start + maxChars) <= k
    requires IsSafeLookbackChar(text[k]) && !IsNumeral(text[k])
    requires !IsSafeLookbackChar(text[start + maxChars - 1])
    requires
      var l, r := text[start + maxChars - 1], text[start + maxChars];
      IsAtomSeam(l, r) || (IsDigit(l) && IsDigit(r))
    ensures k < CutEnd(text, start, maxChars) < start + maxChars
    ensures
      var end := CutEnd(text, start, maxChars);
      && IsSafeLookbackChar(text[end - 1])
      && ((forall i :: end <= i < start + maxChars ==> !IsSafeLookbackChar(text[i]))
          || (forall i :: end <= i < start + maxChars ==> IsNumeral(text[i])))
  {
    PairMeaning(text[start + maxChars - 1], text[start + maxChars]);
    BoundaryMoves(text, start + maxChars, k);
  }

  lemma BoundaryMoves(text: string, pos: nat, k: nat)
    requires WindowStart(pos) <= k < pos < |text|
    requires IsSafeLookbackChar(text[k]) && !IsNumeral(text[k]) && !IsSafeLookbackChar(text[pos - 1])
    ensures
      var end := SafeBoundary(text, pos);
      && k < end < pos && IsSafeLookbackChar(text[end - 1])
      && ((forall i :: end <= i < pos ==> !IsSafeLookbackChar(text[i]))
          || (forall i :: end <= i < pos ==> IsNumeral(text[i])))
  {
    LastSafeMeaning(text, pos, WindowStart(pos), pos);
    SkipIsRun(text, pos - 1, WindowStart(pos));
  }

  lemma {:induction false} SkipIsRun(text: string, p: nat, lo: nat)
    requires lo <= p < |text|
    ensures
      var r := SkipNumeral(text, p, lo);
      (forall i :: r < i <= p ==> IsNumeral(text[i])) && (r > lo ==> !IsNumeral(text[r]))
  {
    if p > lo && IsNumeral(text[p]) {
      SkipIsRun(text, p - 1, lo);
    }
  }

  /** A number after a letter, cut at its decimal point although a space lies in the window. */
  const PART_NUMBER := "aaaaaaaaaa PN1.55"

  lemma NumberIsCutAtPoint()
    ensures CutPieces(PART_NUMBER, 0, 16) == Fragments(PART_NUMBER, 16) == ["aaaaaaaaaa PN1.", "55"]
  {
    var text := PART_NUMBER;
    assert WindowStart(16) == 8;
    assert SkipNumeral(text, 15, 8) == SkipNumeral(text, 14, 8) == SkipNumeral(text, 13, 8) == 12;
    assert LastSafe(text, 16, 8, 16) == LastSafe(text, 15, 8, 16) == 15;
    assert SafeBoundary(text, 16) == 15;
    assert CutEnd(text, 0, 16) == 15 && CutEnd(text, 15, 16) == 17;
    assert text[0..15] == "aaaaaaaaaa PN1." && text[15..17] == "55";
    TwoPieces(text, 15, 16);
  }

  /** A number with its unit, cut at its decimal point although a space lies before it in the window. */
  const PRESSURE := "aaaaaaaaa 1.55MPa"

  lemma UnitIsCutAtPoint()
    ensures Fragments(PRESSURE, 16) == ["aaaaaaaaa 1.", "55MPa"]
  {
    var text := PRESSURE;
    assert WindowStart(16) == 8 && SkipNumeral(text, 15, 8) == 15;
    assert LastSafe(text, 16, 8, 16) == LastSafe(text, 15, 8, 16) == LastSafe(text, 14, 8, 16)
      == LastSafe(text, 13, 8, 16) == LastSafe(text, 12, 8, 16) == 12;
    assert CutEnd(text, 0, 16) == 12 && CutEnd(text, 12, 16) == 17;
    assert text[0..12] == "aaaaaaaaa 1." && text[12..17] == "55MPa";
    TwoPieces(text, 12, 16);
  }

  lemma TwoPieces(text: string, cut: nat, maxChars: Positive)
    requires maxChars < |text| && 0 < cut < |text|
    requires CutEnd(text, 0, maxChars) == cut && CutEnd(text, cut, maxChars) == |text|
    requires !IsBlank(text[0..cut]) && !IsBlank(text[cut..|text|])
    ensures CutPieces(text, 0, maxChars) == [text[0..cut], text[cut..|text|]]
    ensures Fragments(text, maxChars) == [text[0..cut], text[cut..|text|]]
  {
    assert CutPieces(text, cut, maxChars) == [text[cut..|text|]] + CutPieces(text, |text|, maxChars);
    NonBlankTwice([text[0..cut], text[cut..|text|]]);
  }

  /** The pieces partition the text into runs of 1 to `maxChars` characters. */
  lemma {:induction false} PiecesPartition(text: string, start: nat, maxChars: Positive)
    requires start <= |text|
    ensures Concat(CutPieces(text, start, maxChars)) == text[start..]
    ensures forall p <- CutPieces(text, start, maxChars) :: 1 <= |p| <= maxChars
    decreases |text| - start
  {
    if start < |text| {
      var end := CutEnd(text, start, maxChars);
      assert text[start..] == text[start..end] + text[end..];
      PiecesPartition(text, end, maxChars);
    }
  }

  lemma {:induction false} PiecesAreOfText(text: string, start: nat, maxChars: Positive)
    requires start <= |text|
    ensures forall p <- CutPieces(text, start, maxChars) :: forall c <- p :: c in text
    decreases |text| - start
  {
    if start < |text| {
      PiecesAreOfText(text, CutEnd(text, start, maxChars), maxChars);
    }
  }

  lemma FragmentsAreOfText(text: string, maxChars: Positive)
    ensures forall f <- Fragments(text, maxChars) :: forall c <- f :: c in text
  {
    PiecesAreOfText(text, 0, maxChars);
    NonBlankMembers(CutPieces(text, 0, maxChars));
  }

  /** What `_hard_cut` returns: pieces of at most `maxChars` characters that, joined again, are the text without
      its blank pieces, hence carry every visible character of it once and in order. They rebuild the text itself
      exactly when no piece is blank. */
  lemma FragmentsKeepText(text: string, maxChars: Positive)
    ensures forall f <- Fragments(text, maxChars) :: 1 <= |f| <= maxChars
    ensures Squeeze(Concat(Fragments(text, maxChars))) == Squeeze(text)
    ensures text != "" && |text| <= maxChars ==> Fragments(text, maxChars) == [text]
    ensures |text| > maxChars ==>
      (Concat(Fragments(text, maxChars)) == text <==> forall p <- CutPieces(text, 0, maxChars) :: !IsBlank(p))
  {
    if text != "" && |text| <= maxChars {
      ConcatSingle(text);
    } else if text != "" {
      var pieces := CutPieces(text, 0, maxChars);
      PiecesPartition(text, 0, maxChars);
      NonBlankMembers(pieces);
      SqueezeNonBlank(pieces);
      DroppingShortens(pieces);
      if forall p <- pieces :: !IsBlank(p) {
        NonBlankTwice(pieces);
      }
    }
  }

  /** A blank piece is lost: "a   " followed by four spaces, cut to four characters, comes back without them; and so
      for any text whose second half is blank. */
  lemma BlankHalfIsLost(shown: string, blank: string)
    requires |shown| == |blank| >= 1 && !IsBlank(shown) && IsBlank(blank)
    ensures Fragments(shown + blank, |shown|) == [shown]
    ensures Concat(Fragments(shown + blank, |shown|)) != shown + blank
  {
    var text := shown + blank;
    assert text[..|shown|] == shown && text[|shown|..] == blank;
    assert IsSpace(text[|shown|]);
    UnflaggedHalves(text, |shown|);
    LastBlankIsDropped(shown, blank);
    ConcatSingle(shown);
  }

  lemma UnflaggedHalves(text: string, maxChars: Positive)
    requires |text| == 2 * maxChars && !IsFlaggedCut(text[maxChars - 1], text[maxChars])
    ensures CutPieces(text, 0, maxChars) == [text[..maxChars], text[maxChars..]]
  {
    var half, whole := maxChars, 2 * maxChars;
    assert CutPieces(text, half, maxChars) == [text[half..whole]] + CutPieces(text, whole, maxChars);
    assert text[0..maxChars] == text[..maxChars] && text[maxChars..2 * maxChars] == text[maxChars..];
  }

  lemma LastBlankIsDropped(shown: string, blank: string)
    requires !IsBlank(shown) && IsBlank(blank)
    ensures NonBlank([shown, blank]) == [shown]
  {
    assert [shown, blank][1..] == [blank] && [blank][1..] == [];
    assert NonBlank([blank]) == [];
  }

  lemma {:induction false} DroppingShortens(pieces: seq<string>)
    requires forall p <- pieces :: 1 <= |p|
    ensures |Concat(NonBlank(pieces))| <= |Concat(pieces)|
    ensures |Concat(NonBlank(pieces))| == |Concat(pieces)| ==> forall p <- pieces :: !IsBlank(p)
  {
    if pieces != [] {
      DroppingShortens(pieces[1..]);
      if !IsBlank(pieces[0]) {
        assert NonBlank(pieces)[1..] == NonBlank(pieces[1..]);
      } else {
        assert NonBlank(pieces) == NonBlank(pieces[1..]);
      }
    }
  }

  /** Every cut is an unflagged hard cut, or falls just after a safe character, or is a flagged hard cut with no
      safe position after the start of its piece. (A width of one character leaves nothing to look back over.) */
  lemma CutsAreJustified(text: string, start: nat, maxChars: Positive)
    requires start < |text| && CutEnd(text, start, maxChars) < |text|
    ensures
      var end := CutEnd(text, start, maxChars);
      || (end == start + maxChars && (maxChars == 1 || !IsFlaggedCut(text[end - 1], text[end])))
      || IsSafeLookbackChar(text[end - 1])
      || (end == start + maxChars && IsFlaggedCut(text[end - 1], text[end])
          && (SafeBoundary(text, end) <= start
              || forall i :: WindowStart(end) <= i < end ==> !IsSafeLookbackChar(text[i])))
  {
    var hardEnd := start + maxChars;
    if hardEnd < |text| {
      SafeBoundaryIsSafe(text, hardEnd);
    }
  }

  /** In ASCII text a cut just after a safe character keeps words, numbers and number-unit pairs whole; only a
      decimal point may still be parted from the digit that follows it. */
  lemma SafeCutsKeepAtoms(text: string, end: nat)
    requires 0 < end < |text| && IsAscii(text[end - 1]) && IsAscii(text[end])
    requires IsSafeLookbackChar(text[end - 1])
    ensures !IsAsciiLetter(text[end - 1]) && !IsDigit(text[end - 1])
    ensures IsFlaggedCut(text[end - 1], text[end]) <==> text[end - 1] == '.' && IsDigit(text[end])
  {
  }
}
