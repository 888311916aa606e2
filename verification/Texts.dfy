/**
 The string operations the message splitter uses: strip, split on a blank line, and the
 cut after sentence ends.  White space is Python's.
 */
module Texts {

  predicate IsSpace(c: char) {
    var n := c as int;
    || 9 <= n <= 13 || 28 <= n <= 32 || n == 0x85 || n == 0xA0 || n == 0x1680 || 0x2000 <= n <= 0x200A
    || n == 0x2028 || n == 0x2029 || n == 0x202F || n == 0x205F || n == 0x3000
  }

  predicate IsEnd(c: char) {
    c == '.' || c == '?' || c == '!'
  }

  function SkipSpaces(s: string): string {
    if s != "" && IsSpace(s[0]) then SkipSpaces(s[1..]) else s
  }

  function DropTrailing(s: string): string {
    if s != "" && IsSpace(s[|s| - 1]) then DropTrailing(s[..|s| - 1]) else s
  }

  function Strip(s: string): string {
    DropTrailing(SkipSpaces(s))
  }

  /** Non-empty, with no white space at either end. */
  predicate Trimmed(s: string) {
    s != "" && !IsSpace(s[0]) && !IsSpace(s[|s| - 1])
  }

  /** The characters that are not white space, in order. */
  function Ink(s: string): string {
    if s == "" then "" else (if IsSpace(s[0]) then "" else [s[0]]) + Ink(s[1..])
  }

  /** The ink of a list of texts. */
  function InkOf(xs: seq<string>): string {
    if xs == [] then "" else Ink(xs[0]) + InkOf(xs[1..])
  }

  lemma {:induction false} InkConcat(s: string, t: string)
    ensures Ink(s + t) == Ink(s) + Ink(t)
  {
    if s == "" {
      assert s + t == t;
    } else {
      assert (s + t)[1..] == s[1..] + t;
      InkConcat(s[1..], t);
    }
  }

  lemma {:induction false} InkOfConcat(xs: seq<string>, ys: seq<string>)
    ensures InkOf(xs + ys) == InkOf(xs) + InkOf(ys)
  {
    if xs == [] {
      assert xs + ys == ys;
    } else {
      assert (xs + ys)[1..] == xs[1..] + ys;
      InkOfConcat(xs[1..], ys);
    }
  }

  lemma {:induction false} SkipSpacesInk(s: string)
    ensures Ink(SkipSpaces(s)) == Ink(s)
    ensures SkipSpaces(s) != "" ==> !IsSpace(SkipSpaces(s)[0])
    ensures |SkipSpaces(s)| <= |s| && SkipSpaces(s) == s[|s| - |SkipSpaces(s)|..]
  {
    if s != "" && IsSpace(s[0]) {
      SkipSpacesInk(s[1..]);
    }
  }

  lemma {:induction false} DropTrailingInk(s: string)
    ensures Ink(DropTrailing(s)) == Ink(s)
    ensures DropTrailing(s) <= s
    ensures DropTrailing(s) != "" ==> !IsSpace(DropTrailing(s)[|DropTrailing(s)| - 1])
  {
    if s != "" && IsSpace(s[|s| - 1]) {
      var front := s[..|s| - 1];
      assert s == front + [s[|s| - 1]];
      InkConcat(front, [s[|s| - 1]]);
      DropTrailingInk(front);
    }
  }

  /** Stripping keeps the ink, and what is left is empty or trimmed. */
  lemma StripFacts(s: string)
    ensures Ink(Strip(s)) == Ink(s)
    ensures Strip(s) == "" || Trimmed(Strip(s))
  {
    SkipSpacesInk(s);
    DropTrailingInk(SkipSpaces(s));
  }

  lemma StripTrimmed(s: string)
    requires Trimmed(s)
    ensures Strip(s) == s
  {
  }

  lemma TrimmedHasInk(s: string)
    requires Trimmed(s)
    ensures Ink(s) != ""
  {
  }

  /** str.split("\n\n"): leftmost, non-overlapping. */
  function SplitBlankLines(s: string): (r: seq<string>)
    ensures |r| >= 1
  {
    if |s| < 2 then [s]
    else if s[0] == '\n' && s[1] == '\n' then [""] + SplitBlankLines(s[2..])
    else var r := SplitBlankLines(s[1..]); [[s[0]] + r[0]] + r[1..]
  }

  lemma InkOfCons(x: string, xs: seq<string>)
    ensures InkOf([x] + xs) == Ink(x) + InkOf(xs)
  {
  }

  /** Putting a character in front of the first piece. */
  lemma InkOfPush(c: char, r: seq<string>)
    requires |r| >= 1
    ensures InkOf([[c] + r[0]] + r[1..]) == Ink([c]) + InkOf(r)
  {
    InkOfCons([c] + r[0], r[1..]);
    InkConcat([c], r[0]);
  }

  lemma InkHead(s: string)
    requires s != ""
    ensures Ink(s) == Ink([s[0]]) + Ink(s[1..])
  {
  }

  lemma {:induction false} SplitBlankLinesInk(s: string)
    ensures InkOf(SplitBlankLines(s)) == Ink(s)
  {
    if |s| < 2 {
      assert [s][1..] == [];
    } else if s[0] == '\n' && s[1] == '\n' {
      SplitBlankLinesInk(s[2..]);
      InkOfCons("", SplitBlankLines(s[2..]));
      InkHead(s);
      InkHead(s[1..]);
      assert s[1..][1..] == s[2..];
    } else {
      SplitBlankLinesInk(s[1..]);
      InkOfPush(s[0], SplitBlankLines(s[1..]));
      InkHead(s);
    }
  }

  lemma SkipSpacesShorter(s: string)
    ensures |SkipSpaces(s)| <= |s|
  {
  }

  /** re.split at each maximal run of white space that follows a sentence end. */
  function CutSentences(s: string, afterEnd: bool): (r: seq<string>)
    ensures |r| >= 1
    decreases |s|
  {
    SkipSpacesShorter(s);
    if s == "" then [""]
    else if afterEnd && IsSpace(s[0]) then
      SkipSpacesShorter(s[1..]);
      [""] + CutSentences(SkipSpaces(s[1..]), false)
    else
      var r := CutSentences(s[1..], IsEnd(s[0]));
      [[s[0]] + r[0]] + r[1..]
  }

  lemma {:induction false} CutSentencesInk(s: string, afterEnd: bool)
    ensures InkOf(CutSentences(s, afterEnd)) == Ink(s)
    decreases |s|
  {
    if s == "" {
      assert [""][1..] == [];
    } else if afterEnd && IsSpace(s[0]) {
      SkipSpacesInk(s[1..]);
      CutSentencesInk(SkipSpaces(s[1..]), false);
      InkOfCons("", CutSentences(SkipSpaces(s[1..]), false));
    } else {
      CutSentencesInk(s[1..], IsEnd(s[0]));
      InkOfPush(s[0], CutSentences(s[1..], IsEnd(s[0])));
      InkHead(s);
    }
  }

  /** The cut of a text that ends in ink: all pieces but the first are trimmed. */
  lemma {:induction false} CutSentencesShape(s: string, afterEnd: bool)
    requires s != "" ==> !IsSpace(s[|s| - 1])
    ensures var r := CutSentences(s, afterEnd);
            && (forall k :: 1 <= k < |r| ==> Trimmed(r[k]))
            && (r[0] == "" ==> s == "" || (afterEnd && IsSpace(s[0])))
            && (r[0] != "" ==> s != "" && r[0][0] == s[0] && !IsSpace(r[0][|r[0]| - 1]))
    decreases |s|
  {
    if s == "" {
    } else if afterEnd && IsSpace(s[0]) {
      var rest := SkipSpaces(s[1..]);
      SkipSpacesInk(s[1..]);
      LastInkStays(s[1..]);
      CutSentencesShape(rest, false);
    } else {
      CutSentencesShape(s[1..], IsEnd(s[0]));
    }
  }

  lemma {:induction false} LastInkStays(s: string)
    requires s != "" && !IsSpace(s[|s| - 1])
    ensures SkipSpaces(s) != "" && SkipSpaces(s)[|SkipSpaces(s)| - 1] == s[|s| - 1]
  {
    if IsSpace(s[0]) {
      LastInkStays(s[1..]);
    }
  }

  lemma CutTrimmed(s: string)
    requires Trimmed(s)
    ensures forall p :: p in CutSentences(s, false) ==> Trimmed(p)
  {
    CutSentencesShape(s, false);
  }
}
