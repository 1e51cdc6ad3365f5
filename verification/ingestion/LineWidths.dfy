/** How long the lines of a text are: stripping and joining make none longer. */
module LineWidths {
  import opened Text

  predicate LinesWithin(text: string, width: nat) {
    forall line <- SplitLines(text) :: |line| <= width
  }

  lemma {:induction false} FirstLine(text: string)
    ensures
      var first := SplitLines(text)[0];
      && first <= text && '\n' !in first
      && (|first| < |text| ==> text[|first|] == '\n')
  {
    if text != "" && text[0] != '\n' {
      FirstLine(text[1..]);
    }
  }

  /** Every stretch of more than `width` characters has a line break. */
  predicate BreaksWithin(text: string, width: nat) {
    forall i :: 0 <= i < |text| - width ==> BreaksAt(text, i, width)
  }

  predicate BreaksAt(text: string, i: nat, width: nat) {
    i + width < |text| && '\n' in text[i..i + width + 1]
  }

  lemma BreaksShift(text: string, i: nat, j: nat, k: nat, width: nat)
    requires i <= j <= |text| && k + width < j - i
    ensures BreaksAt(text[i..j], k, width) <==> BreaksAt(text, i + k, width)
  {
    var part, same := text[i..j][k..k + width + 1], text[i + k..i + k + width + 1];
    assert |part| == |same| && forall m :: 0 <= m < |part| ==> part[m] == same[m];
    assert part == same;
  }

  lemma BreaksNext(text: string, width: nat)
    requires text != ""
    ensures BreaksWithin(text, width) <==>
      BreaksWithin(text[1..], width) && (width < |text| ==> BreaksAt(text, 0, width))
  {
    var rest := text[1..];
    assert rest == text[1..|text|];
    forall i | 0 <= i < |rest| - width ensures BreaksAt(rest, i, width) <==> BreaksAt(text, i + 1, width) {
      BreaksShift(text, 1, |text|, i, width);
    }
    if BreaksWithin(rest, width) && (width < |text| ==> BreaksAt(text, 0, width)) {
      forall i | 0 <= i < |text| - width ensures BreaksAt(text, i, width) {
        if i > 0 {
          assert BreaksAt(rest, i - 1, width);
        }
      }
    }
  }

  /** Lines are short exactly when line breaks are close. */
  lemma {:induction false} LinesAreBreaks(text: string, width: nat)
    ensures LinesWithin(text, width) <==> BreaksWithin(text, width)
  {
    if text != "" {
      var rest := SplitLines(text[1..]);
      LinesAreBreaks(text[1..], width);
      BreaksNext(text, width);
      FirstLine(text);
      var lines := SplitLines(text);
      if text[0] == '\n' {
        assert lines[1..] == rest;
        assert LinesWithin(text, width) <==> LinesWithin(text[1..], width) by {
          assert forall line :: line in lines <==> line == "" || line in rest;
        }
      } else {
        assert LinesWithin(text, width) <==> |lines[0]| <= width && LinesWithin(text[1..], width) by {
          assert rest == [rest[0]] + rest[1..];
          assert forall line :: line in lines <==> line == lines[0] || line in rest[1..];
        }
        FirstLineBreaks(text, width);
      }
    }
  }

  lemma FirstLineBreaks(text: string, width: nat)
    ensures |SplitLines(text)[0]| <= width <==> (width < |text| ==> BreaksAt(text, 0, width))
  {
    var first := SplitLines(text)[0];
    FirstLine(text);
    if width < |text| {
      if |first| <= width {
        assert text[0..width + 1][|first|] == '\n';
      } else {
        assert text[0..width + 1] == first[..width + 1];
      }
    }
  }

  /** A stretch of a text has no longer lines. */
  lemma StretchWithin(text: string, i: nat, j: nat, width: nat)
    requires i <= j <= |text| && LinesWithin(text, width)
    ensures LinesWithin(text[i..j], width)
  {
    LinesAreBreaks(text, width);
    LinesAreBreaks(text[i..j], width);
    forall k | 0 <= k < j - i - width ensures BreaksAt(text[i..j], k, width) {
      BreaksShift(text, i, j, k, width);
    }
  }

  lemma {:induction false} RStripWithin(text: string, width: nat)
    requires LinesWithin(text, width)
    ensures LinesWithin(RStrip(text), width)
  {
    if text != "" && IsSpace(text[|text| - 1]) {
      StretchWithin(text, 0, |text| - 1, width);
      RStripWithin(text[..|text| - 1], width);
    }
  }

  lemma {:induction false} LStripWithin(text: string, width: nat)
    requires LinesWithin(text, width)
    ensures LinesWithin(LStrip(text), width)
  {
    if text != "" && IsSpace(text[0]) {
      StretchWithin(text, 1, |text|, width);
      LStripWithin(text[1..], width);
    }
  }

  lemma StripWithin(text: string, width: nat)
    requires LinesWithin(text, width)
    ensures LinesWithin(Strip(text), width)
  {
    LStripWithin(text, width);
    RStripWithin(LStrip(text), width);
  }

  lemma BrokenAt(left: string, right: string, i: nat, width: nat)
    requires BreaksWithin(left, width) && BreaksWithin(right, width) && i + width < |left + "\n" + right|
    ensures BreaksAt(left + "\n" + right, i, width)
  {
    var text := left + "\n" + right;
    if i > |left| {
      assert text[|left| + 1..|text|] == right;
      BreaksShift(text, |left| + 1, |text|, i - |left| - 1, width);
    } else if i + width < |left| {
      assert text[0..|left|] == left;
      BreaksShift(text, 0, |left|, i, width);
    } else {
      assert text[i..i + width + 1][|left| - i] == '\n';
    }
  }

  lemma BrokenWithin(left: string, right: string, width: nat)
    requires LinesWithin(left, width) && LinesWithin(right, width)
    ensures LinesWithin(left + "\n" + right, width)
  {
    LinesAreBreaks(left, width);
    LinesAreBreaks(right, width);
    LinesAreBreaks(left + "\n" + right, width);
    forall i | 0 <= i < |left + "\n" + right| - width ensures BreaksAt(left + "\n" + right, i, width) {
      BrokenAt(left, right, i, width);
    }
  }

  lemma {:induction false} JoinWithin(parts: seq<string>, width: nat)
    requires forall p <- parts :: LinesWithin(p, width)
    ensures LinesWithin(Join("\n", parts), width)
  {
    if |parts| > 1 {
      JoinWithin(parts[1..], width);
      BrokenWithin(parts[0], Join("\n", parts[1..]), width);
    }
  }
}
