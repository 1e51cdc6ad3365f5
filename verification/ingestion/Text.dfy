/**
 Text as sequences of characters: the string operations the chunker uses, and the one measure by which
 its outputs are compared with its inputs, `Squeeze`, which deletes all whitespace.
 */
module Text {
  import opened Collections

  /** The characters for which Python's `str.isspace` holds; `strip` trims exactly these. */
  predicate IsSpace(c: char) {
    var u := c as int;
    || 0x09 <= u <= 0x0D || 0x1C <= u <= 0x20 || u == 0x85 || u == 0xA0 || u == 0x1680
    || 0x2000 <= u <= 0x200A || u == 0x2028 || u == 0x2029 || u == 0x202F || u == 0x205F || u == 0x3000
  }

  /** The same characters, by name: tab to carriage return, the separators, the blanks of every width. */
  const SPACES: set<char> := {
    '\t', '\n', '\U{0B}', '\U{0C}', '\r', '\U{1C}', '\U{1D}', '\U{1E}', '\U{1F}', ' ', '\U{85}', '\U{A0}', '\U{1680}',
    '\U{2000}', '\U{2001}', '\U{2002}', '\U{2003}', '\U{2004}', '\U{2005}', '\U{2006}', '\U{2007}', '\U{2008}',
    '\U{2009}', '\U{200A}', '\U{2028}', '\U{2029}', '\U{202F}', '\U{205F}', '\U{3000}'
  }

  lemma SpaceMeaning(c: char)
    ensures IsSpace(c) <==> c in SPACES
  {
  }

  /** `not s.strip()` */
  predicate IsBlank(s: string) {
    forall i :: 0 <= i < |s| ==> IsSpace(s[i])
  }

  function LStrip(s: string): string {
    if s != [] && IsSpace(s[0]) then LStrip(s[1..]) else s
  }

  function RStrip(s: string): string {
    if s != [] && IsSpace(s[|s| - 1]) then RStrip(s[..|s| - 1]) else s
  }

  function Strip(s: string): string {
    RStrip(LStrip(s))
  }

  /** `sep.join(parts)` */
  function Join(sep: string, parts: seq<string>): string {
    if parts == [] then "" else if |parts| == 1 then parts[0] else parts[0] + sep + Join(sep, parts[1..])
  }

  /** `s.split("\n")` */
  function SplitLines(s: string): (lines: seq<string>)
    ensures lines != []
  {
    if s == "" then [""]
    else if s[0] == '\n' then [""] + SplitLines(s[1..])
    else
      var rest := SplitLines(s[1..]);
      [[s[0]] + rest[0]] + rest[1..]
  }

  function NonEmpty(parts: seq<string>): seq<string> {
    if parts == [] then []
    else (if parts[0] == "" then [] else [parts[0]]) + NonEmpty(parts[1..])
  }

  function NonBlank(parts: seq<string>): seq<string> {
    if parts == [] then []
    else (if IsBlank(parts[0]) then [] else [parts[0]]) + NonBlank(parts[1..])
  }

  /** The text with every whitespace character deleted. */
  function Squeeze(s: string): string {
    if s == "" then "" else (if IsSpace(s[0]) then "" else [s[0]]) + Squeeze(s[1..])
  }

  // ---- Texts of many elements ----

  /** If each element's texts show `ink` of it, all texts together show the ink of all. */
  lemma {:induction false} FlatMapInk<S>(texts: S -> seq<string>, ink: S -> string, s: seq<S>)
    requires forall x <- s :: Squeeze(Concat(texts(x))) == ink(x)
    ensures Squeeze(Concat(FlatMap(texts, s))) == FlatMap(ink, s)
  {
    if s != [] {
      var init, last := s[..|s| - 1], s[|s| - 1];
      FlatMapInk(texts, ink, init);
      ConcatAppend(FlatMap(texts, init), texts(last));
      SqueezeAppend(Concat(FlatMap(texts, init)), Concat(texts(last)));
    }
  }

  lemma {:induction false} SqueezeConcat(parts: seq<string>)
    ensures Squeeze(Concat(parts)) == FlatMap((s: string) => Squeeze(s), parts)
  {
    var squeeze := (s: string) => Squeeze(s);
    if parts != [] {
      var init, last := parts[..|parts| - 1], parts[|parts| - 1];
      SqueezeConcat(init);
      assert parts == init + [last];
      ConcatAppend(init, [last]);
      ConcatSingle(last);
      SqueezeAppend(Concat(init), last);
    }
  }

  // ---- Squeeze forgets exactly what the string operations add or remove ----

  lemma {:induction false} SqueezeAppend(a: string, b: string)
    ensures Squeeze(a + b) == Squeeze(a) + Squeeze(b)
  {
    if a == "" {
      assert a + b == b;
    } else {
      assert (a + b)[1..] == a[1..] + b;
      SqueezeAppend(a[1..], b);
    }
  }

  /** Deleting whitespace, character by character. */
  lemma SqueezeNext(s: string, c: char)
    ensures Squeeze("") == "" && Squeeze(s + [c]) == Squeeze(s) + if IsSpace(c) then "" else [c]
  {
    SqueezeAppend(s, [c]);
    assert Squeeze([c]) == if IsSpace(c) then "" else [c];
  }

  lemma {:induction false} SqueezeBlank(s: string)
    ensures IsBlank(s) <==> Squeeze(s) == ""
  {
    if s != "" {
      SqueezeBlank(s[1..]);
      assert IsBlank(s) <==> IsSpace(s[0]) && IsBlank(s[1..]) by {
        if IsSpace(s[0]) && IsBlank(s[1..]) {
          forall i | 0 <= i < |s| ensures IsSpace(s[i]) {
            assert i > 0 ==> s[i] == s[1..][i - 1];
          }
        }
      }
    }
  }

  lemma {:induction false} SqueezeLStrip(s: string)
    ensures Squeeze(LStrip(s)) == Squeeze(s) && |LStrip(s)| <= |s|
  {
    if s != "" && IsSpace(s[0]) {
      SqueezeLStrip(s[1..]);
    }
  }

  lemma {:induction false} SqueezeRStrip(s: string)
    ensures Squeeze(RStrip(s)) == Squeeze(s) && |RStrip(s)| <= |s|
  {
    if s != "" && IsSpace(s[|s| - 1]) {
      SqueezeRStrip(s[..|s| - 1]);
      assert s == s[..|s| - 1] + [s[|s| - 1]];
      SqueezeAppend(s[..|s| - 1], [s[|s| - 1]]);
    }
  }

  /** Stripping loses no visible character, never lengthens, and empties exactly the blank strings. */
  lemma SqueezeStrip(s: string)
    ensures Squeeze(Strip(s)) == Squeeze(s)
    ensures |Strip(s)| <= |s|
    ensures Strip(s) == "" <==> IsBlank(s)
  {
    SqueezeLStrip(s);
    SqueezeRStrip(LStrip(s));
    SqueezeBlank(s);
    if IsBlank(s) && Strip(s) != "" {
      RStripEnds(LStrip(s));
      SqueezeBlank(Strip(s));
    }
  }

  lemma {:induction false} RStripEnds(s: string)
    ensures RStrip(s) <= s
    ensures RStrip(s) != "" ==> !IsSpace(RStrip(s)[|RStrip(s)| - 1])
  {
    if s != "" && IsSpace(s[|s| - 1]) {
      RStripEnds(s[..|s| - 1]);
    }
  }

  lemma {:induction false} LStripStarts(s: string)
    ensures LStrip(s) != "" ==> !IsSpace(LStrip(s)[0])
  {
    if s != "" && IsSpace(s[0]) {
      LStripStarts(s[1..]);
    }
  }

  lemma {:induction false} RStripRest(s: string) returns (after: string)
    ensures s == RStrip(s) + after && IsBlank(after)
  {
    after := "";
    if s != "" && IsSpace(s[|s| - 1]) {
      var rest := RStripRest(s[..|s| - 1]);
      after := rest + [s[|s| - 1]];
      assert s == s[..|s| - 1] + [s[|s| - 1]];
    }
  }

  lemma {:induction false} LStripRest(s: string) returns (before: string)
    ensures s == before + LStrip(s) && IsBlank(before)
  {
    before := "";
    if s != "" && IsSpace(s[0]) {
      var rest := LStripRest(s[1..]);
      before := [s[0]] + rest;
      assert s == [s[0]] + s[1..];
    }
  }

  /** Stripping takes blank ends off, and nothing else. */
  lemma StripTakesEnds(s: string) returns (before: string, after: string)
    ensures s == before + Strip(s) + after && IsBlank(before) && IsBlank(after)
  {
    before := LStripRest(s);
    after := RStripRest(LStrip(s));
  }

  /** A stripped string neither starts nor ends with space. */
  lemma StripEnds(s: string)
    ensures Strip(s) != "" ==> !IsSpace(Strip(s)[0]) && !IsSpace(Strip(s)[|Strip(s)| - 1])
  {
    LStripStarts(s);
    RStripEnds(LStrip(s));
  }

  lemma {:induction false} SqueezeJoin(parts: seq<string>)
    ensures Squeeze(Join("\n", parts)) == Squeeze(Concat(parts))
  {
    if |parts| == 1 {
      ConcatSingle(parts[0]);
      assert parts == [parts[0]];
    } else if parts != [] {
      SqueezeJoin(parts[1..]);
      SqueezeAppend(parts[0] + "\n", Join("\n", parts[1..]));
      SqueezeAppend(parts[0], "\n");
      SqueezeBlank("\n");
      SqueezeAppend(parts[0], Concat(parts[1..]));
    }
  }

  /** The separator comes between the parts. */
  lemma {:induction false} JoinNext(sep: string, parts: seq<string>, part: string)
    ensures Join(sep, [part]) == part
    ensures parts != [] ==> Join(sep, parts + [part]) == Join(sep, parts) + sep + part
  {
    if |parts| == 1 {
      assert (parts + [part])[1..] == [part];
    } else if |parts| > 1 {
      JoinNext(sep, parts[1..], part);
      assert (parts + [part])[1..] == parts[1..] + [part];
    }
  }

  /** No line holds a line break. */
  lemma {:induction false} LinesHaveNoBreak(s: string)
    ensures forall line <- SplitLines(s) :: '\n' !in line
  {
    if s != "" {
      LinesHaveNoBreak(s[1..]);
    }
  }

  /** `"\n".join(s.split("\n")) == s`: splitting into lines is undone by joining them. */
  lemma {:induction false} JoinOfSplit(s: string)
    ensures Join("\n", SplitLines(s)) == s
  {
    if s != "" {
      JoinOfSplit(s[1..]);
      var rest := SplitLines(s[1..]);
      if s[0] == '\n' {
        assert SplitLines(s)[1..] == rest;
      } else if |rest| > 1 {
        assert SplitLines(s)[1..] == rest[1..];
        assert [s[0]] + rest[0] + "\n" + Join("\n", rest[1..]) == [s[0]] + (rest[0] + "\n" + Join("\n", rest[1..]));
      }
    }
  }

  lemma {:induction false} SplitLineLength(s: string)
    ensures forall line <- SplitLines(s) :: |line| <= |s|
  {
    if s != "" {
      SplitLineLength(s[1..]);
    }
  }

  lemma {:induction false} SqueezeNonBlank(parts: seq<string>)
    ensures Squeeze(Concat(NonBlank(parts))) == Squeeze(Concat(parts))
  {
    if parts != [] {
      SqueezeNonBlank(parts[1..]);
      SqueezeAppend(parts[0], Concat(parts[1..]));
      if IsBlank(parts[0]) {
        SqueezeBlank(parts[0]);
        assert NonBlank(parts) == NonBlank(parts[1..]);
      } else {
        assert NonBlank(parts)[1..] == NonBlank(parts[1..]);
        SqueezeAppend(parts[0], Concat(NonBlank(parts[1..])));
      }
    }
  }

  lemma {:induction false} ConcatNonEmpty(parts: seq<string>)
    ensures Concat(NonEmpty(parts)) == Concat(parts)
    ensures TotalLength(NonEmpty(parts)) == TotalLength(parts) && |NonEmpty(parts)| <= |parts|
  {
    if parts != [] {
      ConcatNonEmpty(parts[1..]);
      if parts[0] == "" {
        assert NonEmpty(parts) == NonEmpty(parts[1..]);
      } else {
        assert NonEmpty(parts)[1..] == NonEmpty(parts[1..]);
      }
    }
  }

  lemma {:induction false} ElementLength(parts: seq<string>, i: nat)
    requires i < |parts|
    ensures |parts[i]| <= |Concat(parts)|
  {
    if i > 0 {
      ElementLength(parts[1..], i - 1);
    }
  }

  lemma {:induction false} SplitWithoutNewline(s: string)
    requires forall i :: 0 <= i < |s| ==> s[i] != '\n'
    ensures SplitLines(s) == [s]
  {
    if s != "" {
      SplitWithoutNewline(s[1..]);
      assert [s[0]] + s[1..] == s;
    }
  }

  lemma {:induction false} NonBlankAppend(a: seq<string>, b: seq<string>)
    ensures NonBlank(a + b) == NonBlank(a) + NonBlank(b)
  {
    if a == [] {
      assert a + b == b;
    } else {
      assert (a + b)[1..] == a[1..] + b;
      NonBlankAppend(a[1..], b);
    }
  }

  lemma {:induction false} NonBlankMembers(parts: seq<string>)
    ensures forall p :: p in NonBlank(parts) <==> p in parts && !IsBlank(p)
  {
    if parts != [] {
      NonBlankMembers(parts[1..]);
      assert parts == [parts[0]] + parts[1..];
    }
  }

  lemma NonBlankTwice(parts: seq<string>)
    requires forall p <- parts :: !IsBlank(p)
    ensures NonBlank(parts) == parts
  {
  }

  function TotalLength(parts: seq<string>): nat {
    if parts == [] then 0 else |parts[0]| + TotalLength(parts[1..])
  }

  lemma {:induction false} JoinLength(parts: seq<string>)
    ensures |Join("\n", parts)| == TotalLength(parts) + if parts == [] then 0 else |parts| - 1
  {
    if |parts| > 1 {
      JoinLength(parts[1..]);
    }
  }

  lemma {:induction false} ConcatLength(parts: seq<string>)
    ensures |Concat(parts)| == TotalLength(parts)
  {
    if parts != [] {
      ConcatLength(parts[1..]);
    }
  }

  lemma {:induction false} TotalLengthAppend(a: seq<string>, b: seq<string>)
    ensures TotalLength(a + b) == TotalLength(a) + TotalLength(b)
  {
    if a == [] {
      assert a + b == b;
    } else {
      assert (a + b)[1..] == a[1..] + b;
      TotalLengthAppend(a[1..], b);
    }
  }
}
