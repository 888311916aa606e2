/**
 Where the message splitter cuts: at blank lines, leftmost first, and between sentences; and
 what that means for the parts.
 */
module TextCuts {
  import opened Texts
  import opened MessageSplitter

  // ---- strip

  predicate AllSpace(s: string) {
    forall i :: 0 <= i < |s| ==> IsSpace(s[i])
  }

  lemma {:induction false} SkippedSpaces(s: string)
    ensures |SkipSpaces(s)| <= |s| && SkipSpaces(s) == s[|s| - |SkipSpaces(s)|..]
    ensures AllSpace(s[..|s| - |SkipSpaces(s)|])
  {
    if s != "" && IsSpace(s[0]) {
      SkippedSpaces(s[1..]);
      var k := |s| - |SkipSpaces(s)|;
      assert s[..k] == [s[0]] + s[1..][..k - 1];
    }
  }

  lemma {:induction false} DroppedTrailing(s: string)
    ensures DropTrailing(s) <= s && AllSpace(s[|DropTrailing(s)|..])
  {
    if s != "" && IsSpace(s[|s| - 1]) {
      var front := s[..|s| - 1];
      DroppedTrailing(front);
      assert s[|DropTrailing(s)|..] == front[|DropTrailing(s)|..] + [s[|s| - 1]];
    }
  }

  /** Stripping leaves a stretch of the text; what it takes off at either end is white space. */
  lemma StripSlice(s: string) returns (i: nat, j: nat)
    ensures i <= j <= |s| && Strip(s) == s[i..j] && AllSpace(s[..i]) && AllSpace(s[j..])
    ensures Strip(s) == "" || Trimmed(Strip(s))
  {
    SkippedSpaces(s);
    DroppedTrailing(SkipSpaces(s));
    StripFacts(s);
    i := |s| - |SkipSpaces(s)|;
    j := i + |Strip(s)|;
    assert s[i..][|Strip(s)|..] == s[j..];
  }

  // ---- blank lines

  predicate NoBlankLine(s: string) {
    forall i :: 0 <= i < |s| - 1 ==> !(s[i] == '\n' && s[i + 1] == '\n')
  }

  lemma NoBlankCons(s: string)
    requires |s| >= 2
    ensures NoBlankLine(s) <==> !(s[0] == '\n' && s[1] == '\n') && NoBlankLine(s[1..])
  {
    if !(s[0] == '\n' && s[1] == '\n') && NoBlankLine(s[1..]) {
      forall i | 0 <= i < |s| - 1 ensures !(s[i] == '\n' && s[i + 1] == '\n') {
        if i > 0 {
          assert s[1..][i - 1] == s[i] && s[1..][i] == s[i + 1];
        }
      }
    }
    if NoBlankLine(s) {
      forall i | 0 <= i < |s[1..]| - 1 ensures !(s[1..][i] == '\n' && s[1..][i + 1] == '\n') {
        assert !(s[i + 1] == '\n' && s[i + 2] == '\n');
      }
    }
  }

  lemma {:induction false} HasBlankLineIff(s: string)
    ensures HasBlankLine(s) <==> !NoBlankLine(s)
  {
    if |s| >= 2 {
      NoBlankCons(s);
      HasBlankLineIff(s[1..]);
    }
  }

  /** The pieces with a blank line between them. */
  function Rejoin(r: seq<string>): string
    requires r != []
  {
    if |r| == 1 then r[0] else r[0] + "\n\n" + Rejoin(r[1..])
  }

  /** No blank line is left in a piece, and none begins in a piece and ends in the separator after it. */
  ghost predicate IsBlankLineSplit(s: string, r: seq<string>) {
    && r != [] && Rejoin(r) == s
    && (forall k :: 0 <= k < |r| ==> NoBlankLine(r[k]))
    && (forall k :: 0 <= k < |r| - 1 ==> r[k] == "" || r[k][|r[k]| - 1] != '\n')
  }

  lemma SplitTail(s: string, r: seq<string>)
    requires IsBlankLineSplit(s, r) && |r| >= 2 && r[0] == ""
    ensures |s| >= 2 && s[0] == '\n' && s[1] == '\n' && IsBlankLineSplit(s[2..], r[1..])
  {
    assert s == "\n\n" + Rejoin(r[1..]);
  }

  lemma SplitHead(s: string, r: seq<string>)
    requires IsBlankLineSplit(s, r) && |s| >= 2 && r[0] != ""
    ensures s[0] == r[0][0] && !(s[0] == '\n' && s[1] == '\n')
    ensures IsBlankLineSplit(s[1..], [r[0][1..]] + r[1..])
  {
    var r' := [r[0][1..]] + r[1..];
    assert r'[1..] == r[1..];
    if |r| == 1 {
      assert s == r[0];
    } else {
      assert s == r[0] + ("\n\n" + Rejoin(r[1..]));
      assert s[1..] == r[0][1..] + ("\n\n" + Rejoin(r[1..]));
      assert Rejoin(r') == r'[0] + "\n\n" + Rejoin(r[1..]);
    }
    if |r[0]| >= 2 {
      NoBlankCons(r[0]);
    }
  }

  /** There is only one such split, and it is the one computed. */
  lemma {:induction false} SplitIsOnly(s: string, r: seq<string>)
    requires IsBlankLineSplit(s, r)
    ensures r == SplitBlankLines(s)
  {
    if |s| < 2 {
      if |r| >= 2 {
        assert false;
      }
    } else if r[0] == "" {
      if |r| >= 2 {
        SplitTail(s, r);
        SplitIsOnly(s[2..], r[1..]);
      }
    } else {
      SplitHead(s, r);
      var tail := [r[0][1..]] + r[1..];
      SplitIsOnly(s[1..], tail);
      assert r[0] == [s[0]] + tail[0] && tail[1..] == r[1..];
      assert r == [[s[0]] + tail[0]] + tail[1..];
    }
  }

  lemma {:induction false} SplitIsOne(s: string)
    ensures IsBlankLineSplit(s, SplitBlankLines(s))
  {
    var r := SplitBlankLines(s);
    if |s| < 2 {
    } else if s[0] == '\n' && s[1] == '\n' {
      SplitIsOne(s[2..]);
      assert r[1..] == SplitBlankLines(s[2..]);
      assert s == "\n\n" + s[2..];
    } else {
      SplitIsOne(s[1..]);
      var rest := SplitBlankLines(s[1..]);
      Lengthen(s, rest);
    }
  }

  lemma Lengthen(s: string, rest: seq<string>)
    requires |s| >= 2 && !(s[0] == '\n' && s[1] == '\n') && IsBlankLineSplit(s[1..], rest)
    ensures IsBlankLineSplit(s, [[s[0]] + rest[0]] + rest[1..])
  {
    var r := [[s[0]] + rest[0]] + rest[1..];
    assert r[1..] == rest[1..];
    if |rest| == 1 {
      assert s == [s[0]] + rest[0];
    } else {
      assert s == [s[0]] + (rest[0] + "\n\n" + Rejoin(rest[1..]));
      assert Rejoin(r) == [s[0]] + rest[0] + "\n\n" + Rejoin(rest[1..]);
      assert rest[0] == "" ==> s[1] == '\n';
    }
    assert rest[0] != "" ==> rest[0][0] == s[1];
    if |r[0]| >= 2 {
      NoBlankCons(r[0]);
      assert r[0][1..] == rest[0];
    }
  }

  /** The paragraphs' raw texts: exactly the leftmost cut of the text at its blank lines. */
  lemma BlankLineSplitIff(s: string, r: seq<string>)
    ensures r == SplitBlankLines(s) <==> IsBlankLineSplit(s, r)
  {
    SplitIsOne(s);
    if IsBlankLineSplit(s, r) {
      SplitIsOnly(s, r);
    }
  }

  // ---- sentences

  /** A full stop, question mark or exclamation mark. */
  predicate EndsSentence(c: char) {
    c in ".?!"
  }

  /** No sentence end is followed by white space. */
  predicate OneSentence(s: string) {
    forall i :: 0 <= i < |s| - 1 ==> !(EndsSentence(s[i]) && IsSpace(s[i + 1]))
  }

  /** The pieces with the gaps between them. */
  function Interleave(r: seq<string>, gaps: seq<string>): string
    requires |r| == |gaps| + 1
    decreases |r|
  {
    if gaps == [] then r[0] else r[0] + gaps[0] + Interleave(r[1..], gaps[1..])
  }

  /**
   The text cut exactly at the maximal runs of white space that follow a sentence end; `afterEnd`
   is whether one stands right before the text.
   */
  ghost predicate IsSentenceCut(s: string, afterEnd: bool, r: seq<string>, gaps: seq<string>) {
    && |r| == |gaps| + 1 && Interleave(r, gaps) == s
    && (forall k :: 0 <= k < |gaps| ==> gaps[k] != "" && AllSpace(gaps[k]))
    && (forall k :: 0 <= k < |r| ==> OneSentence(r[k]))
    && (forall k :: 0 < k < |r| ==> r[k] == "" || !IsSpace(r[k][0]))
    && (forall k :: 0 <= k < |gaps| ==>
          if r[k] == "" then k == 0 && afterEnd else EndsSentence(r[k][|r[k]| - 1]))
    && (afterEnd && r[0] != "" ==> !IsSpace(r[0][0]))
  }

  lemma OneSentenceCons(s: string)
    requires |s| >= 2
    ensures OneSentence(s) <==> !(EndsSentence(s[0]) && IsSpace(s[1])) && OneSentence(s[1..])
  {
    if !(EndsSentence(s[0]) && IsSpace(s[1])) && OneSentence(s[1..]) {
      forall i | 0 <= i < |s| - 1 ensures !(EndsSentence(s[i]) && IsSpace(s[i + 1])) {
        if i > 0 {
          assert s[1..][i - 1] == s[i] && s[1..][i] == s[i + 1];
        }
      }
    }
    if OneSentence(s) {
      forall i | 0 <= i < |s[1..]| - 1 ensures !(EndsSentence(s[1..][i]) && IsSpace(s[1..][i + 1])) {
        assert !(EndsSentence(s[i + 1]) && IsSpace(s[i + 2]));
      }
    }
  }

  /** A gap comes first. */
  lemma GapFirst(gap: string, rest: string, r: seq<string>, gaps: seq<string>)
    requires gap != "" && AllSpace(gap) && IsSentenceCut(rest, false, r, gaps)
    requires r[0] == "" || !IsSpace(r[0][0])
    ensures IsSentenceCut(gap + rest, true, [""] + r, [gap] + gaps)
  {
    var r', gaps' := [""] + r, [gap] + gaps;
    assert r'[1..] == r && gaps'[1..] == gaps;
    assert "" + gap + Interleave(r, gaps) == gap + rest;
    forall k | 0 <= k < |gaps'|
      ensures gaps'[k] != "" && AllSpace(gaps'[k])
      ensures if r'[k] == "" then k == 0 else EndsSentence(r'[k][|r'[k]| - 1])
    {
      if k > 0 {
        assert gaps'[k] == gaps[k - 1] && r'[k] == r[k - 1];
      }
    }
    forall k | 0 <= k < |r'| ensures OneSentence(r'[k]) && (k > 0 ==> r'[k] == "" || !IsSpace(r'[k][0])) {
      if k > 0 {
        assert r'[k] == r[k - 1];
      }
    }
  }

  /** A character joins the first piece. */
  lemma LongerFirst(s: string, afterEnd: bool, r: seq<string>, gaps: seq<string>)
    requires s != "" && !(afterEnd && IsSpace(s[0])) && IsSentenceCut(s[1..], EndsSentence(s[0]), r, gaps)
    ensures IsSentenceCut(s, afterEnd, [[s[0]] + r[0]] + r[1..], gaps)
  {
    var r' := [[s[0]] + r[0]] + r[1..];
    assert r'[1..] == r[1..];
    if gaps == [] {
      assert s == [s[0]] + r[0];
    } else {
      assert s == [s[0]] + (r[0] + gaps[0] + Interleave(r[1..], gaps[1..]));
      assert Interleave(r', gaps) == [s[0]] + r[0] + gaps[0] + Interleave(r[1..], gaps[1..]);
    }
    if r[0] != "" {
      OneSentenceCons(r'[0]);
      assert r'[0][1..] == r[0];
    }
    assert r'[0][|r'[0]| - 1] == if r[0] == "" then s[0] else r[0][|r[0]| - 1];
  }

  lemma GapAtStart(s: string) returns (gap: string)
    requires s != "" && IsSpace(s[0])
    ensures s == gap + SkipSpaces(s[1..]) && gap != "" && AllSpace(gap)
    ensures SkipSpaces(s[1..]) == "" || !IsSpace(SkipSpaces(s[1..])[0])
  {
    SkippedSpaces(s[1..]);
    SkipSpacesInk(s[1..]);
    var n := |s[1..]| - |SkipSpaces(s[1..])|;
    gap := [s[0]] + s[1..][..n];
    assert s == [s[0]] + (s[1..][..n] + s[1..][n..]);
  }

  lemma {:induction false} CutIsSentenceCut(s: string, afterEnd: bool) returns (gaps: seq<string>)
    ensures IsSentenceCut(s, afterEnd, CutSentences(s, afterEnd), gaps)
    decreases |s|
  {
    if s == "" {
      gaps := [];
    } else if afterEnd && IsSpace(s[0]) {
      var rest := SkipSpaces(s[1..]);
      var gap := GapAtStart(s);
      gaps := CutIsSentenceCut(rest, false);
      FirstOfCut(rest);
      GapFirst(gap, rest, CutSentences(rest, false), gaps);
      gaps := [gap] + gaps;
    } else {
      gaps := CutIsSentenceCut(s[1..], IsEnd(s[0]));
      LongerFirst(s, afterEnd, CutSentences(s[1..], IsEnd(s[0])), gaps);
    }
  }

  lemma FirstOfCut(s: string)
    ensures var r := CutSentences(s, false); if s == "" then r == [""] else r[0] != "" && r[0][0] == s[0]
  {
  }

  /**
   The sentences of a paragraph are its stretches between the maximal runs of white space that
   follow ".", "?" or "!", and no sentence has such a run inside.
   */
  lemma SentencesAreCut(text: string) returns (gaps: seq<string>)
    requires Trimmed(text)
    ensures IsSentenceCut(text, false, Sentences(text), gaps)
  {
    gaps := CutIsSentenceCut(text, false);
    CutTrimmed(text);
    NonEmptyId(CutSentences(text, false));
  }

  /** A group's sentences are joined by single spaces. */
  lemma {:induction false} JoinedBySpaces(xs: seq<string>, k: nat)
    requires k < |xs|
    ensures Join([xs[k]]) == xs[k]
    ensures k > 0 ==> Join(xs) == Join(xs[..k]) + " " + Join(xs[k..])
    decreases |xs|
  {
    if k > 0 {
      var front, last := xs[..|xs| - 1], xs[|xs| - 1];
      if k == |xs| - 1 {
        assert xs[k..] == [last] && xs[..k] == front;
      } else {
        JoinedBySpaces(front, k);
        assert front[..k] == xs[..k] && xs[k..][..|xs| - 1 - k] == front[k..] && xs[k..][|xs| - 1 - k] == last;
        var a, b := Join(xs[..k]), Join(front[k..]);
        assert a + " " + b + " " + last == a + " " + (b + " " + last);
      }
    }
  }

  // ---- no blank line in a part

  lemma NoBlankSlice(s: string, i: nat, j: nat)
    requires NoBlankLine(s) && i <= j <= |s|
    ensures NoBlankLine(s[i..j])
  {
    forall k | 0 <= k < j - i - 1 ensures !(s[i..j][k] == '\n' && s[i..j][k + 1] == '\n') {
      assert s[i..j][k] == s[i + k] && s[i..j][k + 1] == s[i + k + 1];
    }
  }

  lemma NoBlankJoin(a: string, b: string)
    requires NoBlankLine(a) && NoBlankLine(b)
    ensures NoBlankLine(a + " " + b)
  {
  }

  ghost predicate NoneBlank(xs: seq<string>) {
    forall x :: x in xs ==> NoBlankLine(x)
  }

  lemma {:induction false} JoinNoBlank(xs: seq<string>)
    requires NoneBlank(xs)
    ensures NoBlankLine(Join(xs))
  {
    if |xs| == 1 {
      assert xs[0] in xs;
    } else if |xs| > 1 {
      assert xs[|xs| - 1] in xs;
      JoinNoBlank(xs[..|xs| - 1]);
      NoBlankJoin(Join(xs[..|xs| - 1]), xs[|xs| - 1]);
    }
  }

  lemma {:induction false} PiecesNoBlank(r: seq<string>, gaps: seq<string>)
    requires |r| == |gaps| + 1 && NoBlankLine(Interleave(r, gaps))
    ensures NoneBlank(r)
    decreases |r|
  {
    var s := Interleave(r, gaps);
    if gaps == [] {
      assert r == [s];
    } else {
      var rest := Interleave(r[1..], gaps[1..]);
      var n := |r[0]| + |gaps[0]|;
      assert s == r[0] + gaps[0] + rest;
      assert s[0..|r[0]|] == r[0] && s[n..|s|] == rest;
      NoBlankSlice(s, 0, |r[0]|);
      NoBlankSlice(s, n, |s|);
      PiecesNoBlank(r[1..], gaps[1..]);
      assert r == [r[0]] + r[1..];
    }
  }

  lemma {:induction false} GroupsNoBlank(s: seq<string>, max: int, gs: seq<seq<string>>)
    requires NoneBlank(s) && IsPacking(s, max, gs)
    ensures NoneBlank(Joined(gs))
    decreases |gs|
  {
    if gs != [] {
      assert forall x :: x in gs[0] ==> x in s;
      JoinNoBlank(gs[0]);
      GroupsNoBlank(s[|gs[0]|..], max, gs[1..]);
    }
  }

  lemma PartsNoBlank(para: string, max: int, min: int, p: string)
    requires Trimmed(para) && NoBlankLine(para) && p in PartsOf(para, max, min)
    ensures NoBlankLine(p)
  {
    if p != para {
      var gaps := SentencesAreCut(para);
      PiecesNoBlank(Sentences(para), gaps);
      var gs := PackIsOptimal(para, max);
      GroupsNoBlank(Sentences(para), max, gs);
      KeepExact(Pack(Sentences(para), max), min, p);
    }
  }

  /** The paragraphs are the stripped pieces that are not blank. */
  lemma {:induction false} StripAllExact(xs: seq<string>, p: string)
    ensures p in StripAll(xs) <==> p != "" && exists x :: x in xs && Strip(x) == p
  {
    if xs != [] {
      StripAllExact(xs[1..], p);
      assert forall x :: x in xs <==> x == xs[0] || x in xs[1..];
    }
  }

  lemma ParagraphNoBlank(text: string, para: string)
    requires para in Paragraphs(text)
    ensures Trimmed(para) && NoBlankLine(para)
  {
    var pieces := SplitBlankLines(text);
    StripAllExact(pieces, para);
    var x :| x in pieces && Strip(x) == para;
    SplitIsOne(text);
    var i, j := StripSlice(x);
    NoBlankSlice(x, i, j);
  }

  /**
   A text without a blank line comes out in one part, at any length; and no part has a blank line
   unless the whole text is the only part.
   */
  lemma NoPartHasBlankLine(text: string, max: int, min: int, p: string)
    ensures Strip(text) != "" && NoBlankLine(Strip(text)) ==> Split(text, max, min) == [Strip(text)]
    ensures p in Split(text, max, min) ==> NoBlankLine(p) || Split(text, max, min) == [Strip(text)]
  {
    HasBlankLineIff(Strip(text));
    var paras := Paragraphs(Strip(text));
    if p in Split(text, max, min) && Split(text, max, min) != [Strip(text)] {
      KeepExact(AllParts(paras, max, min), min, p);
      PartsExact(paras, max, min, p);
      var para :| para in paras && p in PartsOf(para, max, min);
      ParagraphNoBlank(Strip(text), para);
      PartsNoBlank(para, max, min, p);
    }
  }
}
