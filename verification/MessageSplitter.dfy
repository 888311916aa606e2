/**
 The WhatsApp message splitter: paragraphs, greedy packing of sentences, length filters.
 */
module MessageSplitter {
  import opened Texts

  /** Sentences joined by single spaces. */
  function Join(xs: seq<string>): string {
    if xs == [] then ""
    else if |xs| == 1 then xs[0]
    else Join(xs[..|xs| - 1]) + " " + xs[|xs| - 1]
  }

  function NonEmpty(xs: seq<string>): seq<string> {
    if xs == [] then [] else if xs[0] != "" then [xs[0]] + NonEmpty(xs[1..]) else NonEmpty(xs[1..])
  }

  function Sentences(text: string): seq<string> {
    NonEmpty(CutSentences(text, false))
  }

  /** The packing loop from its current group on. */
  function PackFrom(current: string, rest: seq<string>, max: int): seq<string>
    decreases |rest|
  {
    if rest == [] then (if current != "" then [current] else [])
    else
      var candidate := if current != "" then Strip(current + " " + rest[0]) else rest[0];
      if current != "" && |candidate| > max then [current] + PackFrom(rest[0], rest[1..], max)
      else PackFrom(candidate, rest[1..], max)
  }

  function Pack(sentences: seq<string>, max: int): seq<string> {
    PackFrom("", sentences, max)
  }

  method SplitBySentence(text: string, max: int) returns (groups: seq<string>)
    ensures groups == Pack(Sentences(text), max)
  {
    var sentences := NonEmpty(CutSentences(text, false));
    groups := [];
    var current := "";
    var i := 0;
    while i < |sentences|
      invariant 0 <= i <= |sentences|
      invariant groups + PackFrom(current, sentences[i..], max) == Pack(sentences, max)
    {
      var sentence := sentences[i];
      assert sentences[i..][0] == sentence && sentences[i..][1..] == sentences[i + 1..];
      var candidate := if current != "" then Strip(current + " " + sentence) else sentence;
      if current != "" && |candidate| > max {
        groups := groups + [current];
        current := sentence;
      } else {
        current := candidate;
      }
      i := i + 1;
    }
    assert sentences[i..] == [];
    if current != "" {
      groups := groups + [current];
    }
  }

  // ---- packing is optimal

  ghost predicate AllTrimmed(xs: seq<string>) {
    forall p :: p in xs ==> Trimmed(p)
  }

  lemma {:induction false} JoinTrimmed(xs: seq<string>)
    requires AllTrimmed(xs) && xs != []
    ensures Trimmed(Join(xs))
  {
    assert xs[|xs| - 1] in xs;
    if |xs| > 1 {
      JoinTrimmed(xs[..|xs| - 1]);
    }
  }

  lemma {:induction false} JoinInk(xs: seq<string>)
    ensures Ink(Join(xs)) == InkOf(xs)
  {
    if |xs| == 1 {
      assert xs[1..] == [];
    } else if |xs| > 1 {
      var front, last := xs[..|xs| - 1], xs[|xs| - 1];
      JoinInk(front);
      assert xs == front + [last];
      InkOfConcat(front, [last]);
      assert [last][1..] == [];
      InkConcat(Join(front) + " ", last);
      InkConcat(Join(front), " ");
      assert " "[1..] == "";
    }
  }

  lemma {:induction false} JoinDropFirst(xs: seq<string>)
    requires |xs| >= 2
    ensures |Join(xs[1..])| <= |Join(xs)|
  {
    if |xs| > 2 {
      JoinDropFirst(xs[..|xs| - 1]);
      assert xs[..|xs| - 1][1..] == xs[1..][..|xs| - 2];
    }
  }

  /** A shorter run of sentences is not wider. */
  lemma {:induction false} JoinNarrower(xs: seq<string>, i: nat, j: nat)
    requires i < j <= |xs|
    ensures |Join(xs[i..j])| <= |Join(xs)|
    decreases |xs|
  {
    if i > 0 {
      JoinDropFirst(xs);
      JoinNarrower(xs[1..], i - 1, j - 1);
      assert xs[1..][i - 1..j - 1] == xs[i..j];
    } else if j < |xs| {
      JoinNarrower(xs[..|xs| - 1], i, j);
      assert xs[..|xs| - 1][i..j] == xs[i..j];
    } else {
      assert xs[i..j] == xs;
    }
  }

  /** A permitted group: a single sentence, or within the limit when joined. */
  predicate Fits(group: seq<string>, max: int) {
    |group| == 1 || (|group| > 1 && |Join(group)| <= max)
  }

  /** gs cuts s into consecutive permitted groups. */
  ghost predicate IsPacking(s: seq<string>, max: int, gs: seq<seq<string>>)
    decreases |gs|
  {
    if gs == [] then s == []
    else gs[0] <= s && Fits(gs[0], max) && IsPacking(s[|gs[0]|..], max, gs[1..])
  }

  /** A packing in which no group could have taken the next sentence. */
  ghost predicate IsGreedy(s: seq<string>, max: int, gs: seq<seq<string>>)
    decreases |gs|
  {
    if gs == [] then s == []
    else
      && gs[0] <= s && Fits(gs[0], max)
      && (|gs[0]| < |s| ==> |Join(s[..|gs[0]| + 1])| > max)
      && IsGreedy(s[|gs[0]|..], max, gs[1..])
  }

  function Joined(gs: seq<seq<string>>): seq<string> {
    if gs == [] then [] else [Join(gs[0])] + Joined(gs[1..])
  }

  lemma {:induction false} GreedyIsPacking(s: seq<string>, max: int, gs: seq<seq<string>>)
    requires IsGreedy(s, max, gs)
    ensures IsPacking(s, max, gs) && |Joined(gs)| == |gs|
    decreases |gs|
  {
    if gs != [] {
      GreedyIsPacking(s[|gs[0]|..], max, gs[1..]);
    }
  }

  lemma GreedyCons(cur: seq<string>, rest: seq<string>, max: int, gs: seq<seq<string>>)
    requires Fits(cur, max) && IsGreedy(rest, max, gs)
    requires rest != [] && |Join(cur + [rest[0]])| > max
    ensures IsGreedy(cur + rest, max, [cur] + gs) && Joined([cur] + gs) == [Join(cur)] + Joined(gs)
  {
    assert ([cur] + gs)[1..] == gs && (cur + rest)[|cur|..] == rest;
    assert (cur + rest)[..|cur| + 1] == cur + [rest[0]];
  }

  /** One iteration of the packing loop, in terms of the group of sentences that `current` stands for. */
  lemma PackStep(cur: seq<string>, rest: seq<string>, max: int)
    requires AllTrimmed(cur) && AllTrimmed(rest) && cur != [] && rest != []
    ensures PackFrom(Join(cur), rest, max) ==
      if |Join(cur + [rest[0]])| > max then [Join(cur)] + PackFrom(rest[0], rest[1..], max)
      else PackFrom(Join(cur + [rest[0]]), rest[1..], max)
  {
    var next := cur + [rest[0]];
    JoinTrimmed(cur);
    assert rest[0] in rest && next[..|next| - 1] == cur;
    JoinTrimmed(next);
    StripTrimmed(Join(next));
  }

  lemma MoveHead(cur: seq<string>, rest: seq<string>)
    requires AllTrimmed(cur) && AllTrimmed(rest) && rest != []
    ensures cur + [rest[0]] + rest[1..] == cur + rest && [rest[0]] + rest[1..] == rest
    ensures AllTrimmed(cur + [rest[0]]) && AllTrimmed([rest[0]]) && AllTrimmed(rest[1..])
  {
    assert rest[0] in rest && forall p :: p in rest[1..] ==> p in rest;
  }

  lemma GreedyOne(cur: seq<string>, max: int)
    requires Fits(cur, max)
    ensures IsGreedy(cur, max, [cur]) && Joined([cur]) == [Join(cur)]
  {
    assert cur[|cur|..] == [] && [cur][1..] == [];
    assert IsGreedy([], max, []);
  }

  lemma {:induction false} PackFromGroups(cur: seq<string>, rest: seq<string>, max: int) returns (gs: seq<seq<string>>)
    requires AllTrimmed(cur) && AllTrimmed(rest) && Fits(cur, max)
    ensures IsGreedy(cur + rest, max, gs) && PackFrom(Join(cur), rest, max) == Joined(gs)
    decreases |rest|
  {
    if rest == [] {
      JoinTrimmed(cur);
      GreedyOne(cur, max);
      assert cur + rest == cur;
      gs := [cur];
    } else {
      PackStep(cur, rest, max);
      MoveHead(cur, rest);
      if |Join(cur + [rest[0]])| > max {
        var others := PackFromGroups([rest[0]], rest[1..], max);
        GreedyCons(cur, rest, max, others);
        gs := [cur] + others;
      } else {
        gs := PackFromGroups(cur + [rest[0]], rest[1..], max);
      }
    }
  }

  /** Greedy packing of a suffix s needs no more groups than any packing of p + s. */
  lemma {:induction false} GreedyIsShortest(
    p: seq<string>, s: seq<string>, max: int, greedy: seq<seq<string>>, other: seq<seq<string>>)
    requires IsGreedy(s, max, greedy) && IsPacking(p + s, max, other)
    ensures |greedy| <= |other|
    decreases |other|
  {
    if greedy != [] && other != [] {
      var g, o := greedy[0], other[0];
      if |o| <= |p| {
        assert (p + s)[|o|..] == p[|o|..] + s;
        GreedyIsShortest(p[|o|..], s, max, greedy, other[1..]);
      } else {
        FirstReachesAs(p, s, max, greedy, o);
        var k := |o| - |p|;
        assert (p + s)[|o|..] == s[k..|g|] + s[|g|..];
        GreedyIsShortest(s[k..|g|], s[|g|..], max, greedy[1..], other[1..]);
      }
    }
  }

  /** The first greedy group reaches at least as far into s as a permitted group that begins in p. */
  lemma FirstReachesAs(p: seq<string>, s: seq<string>, max: int, greedy: seq<seq<string>>, o: seq<string>)
    requires IsGreedy(s, max, greedy) && greedy != []
    requires o <= p + s && Fits(o, max) && |o| > |p|
    ensures |o| - |p| <= |greedy[0]|
  {
    var g := greedy[0];
    if |g| < |o| - |p| {
      assert o[|p|..|p| + |g| + 1] == s[..|g| + 1];
      JoinNarrower(o, |p|, |p| + |g| + 1);
    }
  }

  /**
   Packing cuts the sentences into runs, in order, each a single sentence or within max
   characters when joined; no run could have taken the next sentence; and no such packing has
   fewer groups.
   */
  lemma PackIsOptimal(text: string, max: int) returns (gs: seq<seq<string>>)
    requires Trimmed(text)
    ensures IsPacking(Sentences(text), max, gs) && IsGreedy(Sentences(text), max, gs)
    ensures Pack(Sentences(text), max) == Joined(gs)
    ensures forall other :: IsPacking(Sentences(text), max, other) ==> |Pack(Sentences(text), max)| <= |other|
  {
    var s := Sentences(text);
    SentencesFacts(text);
    if s == [] {
      gs := [];
    } else {
      assert s[0] in s && forall p :: p in s[1..] ==> p in s;
      gs := PackFromGroups([s[0]], s[1..], max);
      assert s == [s[0]] + s[1..];
    }
    GreedyIsPacking(s, max, gs);
    forall other | IsPacking(s, max, other) ensures |gs| <= |other| {
      assert [] + s == s;
      GreedyIsShortest([], s, max, gs, other);
    }
  }

  lemma {:induction false} NonEmptyId(xs: seq<string>)
    requires AllTrimmed(xs)
    ensures NonEmpty(xs) == xs
  {
    if xs != [] {
      assert xs[0] in xs;
      assert forall p :: p in xs[1..] ==> p in xs;
      NonEmptyId(xs[1..]);
    }
  }

  /** The sentences of a trimmed text are trimmed and carry all of its ink. */
  lemma SentencesFacts(text: string)
    requires Trimmed(text)
    ensures AllTrimmed(Sentences(text)) && InkOf(Sentences(text)) == Ink(text)
  {
    CutTrimmed(text);
    NonEmptyId(CutSentences(text, false));
    CutSentencesInk(text, false);
  }

  // ---- the whole splitter

  /** Parts of at least min characters. */
  function Keep(xs: seq<string>, min: int): seq<string> {
    if xs == [] then [] else if |xs[0]| >= min then [xs[0]] + Keep(xs[1..], min) else Keep(xs[1..], min)
  }

  function StripAll(xs: seq<string>): seq<string> {
    if xs == [] then [] else if Strip(xs[0]) != "" then [Strip(xs[0])] + StripAll(xs[1..]) else StripAll(xs[1..])
  }

  function Paragraphs(text: string): seq<string> {
    StripAll(SplitBlankLines(text))
  }

  predicate HasBlankLine(s: string) {
    |s| >= 2 && ((s[0] == '\n' && s[1] == '\n') || HasBlankLine(s[1..]))
  }

  /** What one paragraph contributes before the last filter. */
  function PartsOf(para: string, max: int, min: int): seq<string> {
    if |para| <= max then [para]
    else
      var kept := Keep(Pack(Sentences(para), max), min);
      if kept != [] then kept else [para]
  }

  function AllParts(paras: seq<string>, max: int, min: int): seq<string> {
    if paras == [] then [] else PartsOf(paras[0], max, min) + AllParts(paras[1..], max, min)
  }

  function Split(text: string, max: int, min: int): seq<string> {
    var stripped := Strip(text);
    if stripped == "" then []
    else if !HasBlankLine(stripped) then [stripped]
    else
      var kept := Keep(AllParts(Paragraphs(stripped), max, min), min);
      if kept != [] then kept else [stripped]
  }

  lemma {:induction false} AllPartsConcat(xs: seq<string>, ys: seq<string>, max: int, min: int)
    ensures AllParts(xs + ys, max, min) == AllParts(xs, max, min) + AllParts(ys, max, min)
  {
    if xs == [] {
      assert xs + ys == ys;
    } else {
      assert (xs + ys)[1..] == xs[1..] + ys;
      AllPartsConcat(xs[1..], ys, max, min);
    }
  }

  method SplitMessage(text: string, max: int := 400, min: int := 20) returns (result: seq<string>)
    ensures result == Split(text, max, min)
  {
    var stripped := Strip(text);
    if stripped == "" {
      return [];
    }
    if !HasBlankLine(stripped) {
      return [stripped];
    }
    var paragraphs := Paragraphs(stripped);
    var parts: seq<string> := [];
    var i := 0;
    while i < |paragraphs|
      invariant 0 <= i <= |paragraphs|
      invariant parts == AllParts(paragraphs[..i], max, min)
    {
      var para := paragraphs[i];
      AllPartsConcat(paragraphs[..i], [para], max, min);
      assert paragraphs[..i + 1] == paragraphs[..i] + [para];
      assert [para][1..] == [];
      if |para| <= max {
        parts := parts + [para];
      } else {
        var sub := SplitBySentence(para, max);
        var kept := Keep(sub, min);
        if kept != [] {
          parts := parts + kept;
        } else {
          parts := parts + [para];
        }
      }
      i := i + 1;
    }
    assert paragraphs[..i] == paragraphs;
    var filtered := Keep(parts, min);
    if filtered != [] {
      return filtered;
    }
    return [stripped];
  }

  // ---- what the result contains

  /** The candidate parts: every text that reaches a length filter and is not a whole of others. */
  function CandidatesOf(para: string, max: int, min: int): seq<string> {
    if |para| <= max || Keep(Pack(Sentences(para), max), min) == [] then [para]
    else Pack(Sentences(para), max)
  }

  function Candidates(paras: seq<string>, max: int, min: int): seq<string> {
    if paras == [] then [] else CandidatesOf(paras[0], max, min) + Candidates(paras[1..], max, min)
  }

  lemma {:induction false} KeepConcat(xs: seq<string>, ys: seq<string>, min: int)
    ensures Keep(xs + ys, min) == Keep(xs, min) + Keep(ys, min)
  {
    if xs == [] {
      assert xs + ys == ys;
    } else {
      assert (xs + ys)[1..] == xs[1..] + ys;
      KeepConcat(xs[1..], ys, min);
    }
  }

  lemma {:induction false} KeepTwice(xs: seq<string>, min: int)
    ensures Keep(Keep(xs, min), min) == Keep(xs, min)
    ensures forall p :: p in Keep(xs, min) ==> |p| >= min && p in xs
  {
    if xs != [] {
      KeepTwice(xs[1..], min);
      if |xs[0]| >= min {
        assert ([xs[0]] + Keep(xs[1..], min))[1..] == Keep(xs[1..], min);
      }
    }
  }

  /** The two filters together keep exactly the candidates that are long enough. */
  lemma {:induction false} FiltersCompose(paras: seq<string>, max: int, min: int)
    ensures Keep(AllParts(paras, max, min), min) == Keep(Candidates(paras, max, min), min)
  {
    if paras != [] {
      var head := paras[0];
      FiltersCompose(paras[1..], max, min);
      KeepConcat(PartsOf(head, max, min), AllParts(paras[1..], max, min), min);
      KeepConcat(CandidatesOf(head, max, min), Candidates(paras[1..], max, min), min);
      KeepTwice(Pack(Sentences(head), max), min);
    }
  }

  lemma {:induction false} JoinedFacts(s: seq<string>, max: int, gs: seq<seq<string>>)
    requires AllTrimmed(s) && IsPacking(s, max, gs)
    ensures AllTrimmed(Joined(gs)) && InkOf(Joined(gs)) == InkOf(s)
    decreases |gs|
  {
    if gs != [] {
      var rest := s[|gs[0]|..];
      assert s == gs[0] + rest;
      JoinedFacts(rest, max, gs[1..]);
      JoinTrimmed(gs[0]);
      JoinInk(gs[0]);
      InkOfConcat(gs[0], rest);
      InkOfCons(Join(gs[0]), Joined(gs[1..]));
    }
  }

  lemma CandidatesOfFacts(para: string, max: int, min: int)
    requires Trimmed(para)
    ensures AllTrimmed(CandidatesOf(para, max, min)) && InkOf(CandidatesOf(para, max, min)) == Ink(para)
  {
    if CandidatesOf(para, max, min) == [para] {
      InkOfOne(para);
    } else {
      SentencesFacts(para);
      var gs := PackIsOptimal(para, max);
      JoinedFacts(Sentences(para), max, gs);
    }
  }

  /** The candidates of trimmed paragraphs are trimmed and carry all of their ink. */
  lemma {:induction false} CandidatesFacts(paras: seq<string>, max: int, min: int)
    requires AllTrimmed(paras)
    ensures AllTrimmed(Candidates(paras, max, min)) && InkOf(Candidates(paras, max, min)) == InkOf(paras)
  {
    if paras != [] {
      assert paras[0] in paras && forall p :: p in paras[1..] ==> p in paras;
      CandidatesFacts(paras[1..], max, min);
      CandidatesOfFacts(paras[0], max, min);
      InkOfConcat(CandidatesOf(paras[0], max, min), Candidates(paras[1..], max, min));
    }
  }

  lemma {:induction false} StripAllFacts(xs: seq<string>)
    ensures AllTrimmed(StripAll(xs)) && InkOf(StripAll(xs)) == InkOf(xs)
  {
    if xs != [] {
      var head, rest := Strip(xs[0]), StripAll(xs[1..]);
      StripFacts(xs[0]);
      StripAllFacts(xs[1..]);
      if head == "" {
        assert StripAll(xs) == rest;
      } else {
        assert StripAll(xs) == [head] + rest;
        InkOfCons(head, rest);
      }
    }
  }

  /** a is obtained from b by leaving out characters. */
  predicate Subsequence(a: string, b: string) {
    a == "" || (b != "" && ((a[0] == b[0] && Subsequence(a[1..], b[1..])) || Subsequence(a, b[1..])))
  }

  lemma {:induction false} SubsequencePrefix(p: string, a: string, b: string)
    requires Subsequence(a, b)
    ensures Subsequence(p + a, p + b)
    ensures Subsequence(a, p + b)
  {
    if p == "" {
      assert p + a == a && p + b == b;
    } else {
      SubsequencePrefix(p[1..], a, b);
      assert (p + a)[1..] == p[1..] + a && (p + b)[1..] == p[1..] + b;
    }
  }

  /** Filtering drops ink exactly when it drops a trimmed part. */
  lemma {:induction false} KeepInk(xs: seq<string>, min: int)
    requires AllTrimmed(xs)
    ensures Subsequence(InkOf(Keep(xs, min)), InkOf(xs))
    ensures |InkOf(Keep(xs, min))| <= |InkOf(xs)|
    ensures InkOf(Keep(xs, min)) == InkOf(xs) <==> forall p :: p in xs ==> |p| >= min
  {
    if xs != [] {
      assert xs[0] in xs;
      assert forall p :: p in xs <==> p == xs[0] || p in xs[1..];
      KeepInk(xs[1..], min);
      TrimmedHasInk(xs[0]);
      SubsequencePrefix(Ink(xs[0]), InkOf(Keep(xs[1..], min)), InkOf(xs[1..]));
      if |xs[0]| >= min {
        InkOfCons(xs[0], Keep(xs[1..], min));
        var i, a, b := Ink(xs[0]), InkOf(Keep(xs[1..], min)), InkOf(xs[1..]);
        assert (i + a)[|i|..] == a && (i + b)[|i|..] == b;
      }
    }
  }

  lemma {:induction false} SubsequenceSelf(a: string)
    ensures Subsequence(a, a)
  {
    if a != "" {
      SubsequenceSelf(a[1..]);
    }
  }

  /** Blank text gives no parts and any other text some; short parts appear only as the whole text. */
  lemma SplitShape(text: string, max: int, min: int)
    ensures Split(text, max, min) == [] <==> Strip(text) == ""
    ensures AllTrimmed(Split(text, max, min))
    ensures (forall p :: p in Split(text, max, min) ==> |p| >= min) || Split(text, max, min) == [Strip(text)]
  {
    var stripped := Strip(text);
    StripFacts(text);
    StripAllFacts(SplitBlankLines(stripped));
    var paras := Paragraphs(stripped);
    FiltersCompose(paras, max, min);
    CandidatesFacts(paras, max, min);
    KeepTwice(Candidates(paras, max, min), min);
  }

  lemma InkOfOne(x: string)
    ensures InkOf([x]) == Ink(x)
  {
  }

  /** Some candidate part is filtered out while another survives. */
  predicate DropsPart(text: string, max: int, min: int) {
    var candidates := Candidates(Paragraphs(Strip(text)), max, min);
    HasBlankLine(Strip(text)) && Keep(candidates, min) != [] && exists p :: p in candidates && |p| < min
  }

  /**
   Content: the characters other than white space come out in order, and all of them come out
   exactly when no candidate part is dropped beside a surviving one.
   */
  lemma SplitContent(text: string, max: int, min: int)
    ensures Subsequence(InkOf(Split(text, max, min)), Ink(text))
    ensures InkOf(Split(text, max, min)) == Ink(text) <==> !DropsPart(text, max, min)
  {
    var stripped := Strip(text);
    var paras := Paragraphs(stripped);
    StripFacts(text);
    SplitBlankLinesInk(stripped);
    StripAllFacts(SplitBlankLines(stripped));
    FiltersCompose(paras, max, min);
    CandidatesFacts(paras, max, min);
    KeepInk(Candidates(paras, max, min), min);
    SubsequenceSelf(Ink(text));
    InkOfOne(stripped);
  }

  // ---- the limits

  lemma {:induction false} KeepExact(xs: seq<string>, min: int, p: string)
    ensures p in Keep(xs, min) <==> p in xs && |p| >= min
  {
    if xs != [] {
      KeepExact(xs[1..], min, p);
      assert p in xs <==> p == xs[0] || p in xs[1..];
    }
  }

  lemma {:induction false} PartsExact(paras: seq<string>, max: int, min: int, p: string)
    ensures p in AllParts(paras, max, min) <==> exists para :: para in paras && p in PartsOf(para, max, min)
  {
    if paras != [] {
      PartsExact(paras[1..], max, min, p);
      assert forall para :: para in paras <==> para == paras[0] || para in paras[1..];
    }
  }

  lemma {:induction false} PackedLimit(s: seq<string>, max: int, gs: seq<seq<string>>, p: string)
    requires IsPacking(s, max, gs) && p in Joined(gs)
    ensures |p| <= max || p in s
    decreases |gs|
  {
    if p == Join(gs[0]) {
      if |gs[0]| == 1 {
        assert gs[0][0] == s[0];
      }
    } else {
      PackedLimit(s[|gs[0]|..], max, gs[1..], p);
    }
  }

  /** Too long for the limit, and allowed: a sentence of the paragraph, or the paragraph when all its groups are short. */
  predicate Oversize(para: string, max: int, min: int, p: string) {
    p in Sentences(para) || (p == para && Keep(Pack(Sentences(para), max), min) == [])
  }

  /** max_chars is a soft limit: a longer part is the whole text, one sentence, or a paragraph of short groups only. */
  lemma SoftLimit(text: string, max: int, min: int, p: string)
    requires p in Split(text, max, min)
    ensures |p| <= max || Split(text, max, min) == [Strip(text)]
      || exists para :: para in Paragraphs(Strip(text)) && |para| > max && Oversize(para, max, min, p)
  {
    var stripped := Strip(text);
    var paras := Paragraphs(stripped);
    if |p| > max && Split(text, max, min) != [stripped] {
      KeepExact(AllParts(paras, max, min), min, p);
      PartsExact(paras, max, min, p);
      var para :| para in paras && p in PartsOf(para, max, min);
      StripAllFacts(SplitBlankLines(stripped));
      KeepExact(Pack(Sentences(para), max), min, p);
      if p != para {
        var gs := PackIsOptimal(para, max);
        PackedLimit(Sentences(para), max, gs, p);
      } else if Keep(Pack(Sentences(para), max), min) != [] {
        var gs := PackIsOptimal(para, max);
        PackedLimit(Sentences(para), max, gs, p);
      }
    }
  }

  lemma {:induction false} OneParagraph(s: string)
    requires !HasBlankLine(s)
    ensures SplitBlankLines(s) == [s]
  {
    if |s| >= 2 {
      OneParagraph(s[1..]);
      assert [s[0]] + s[1..] == s;
    }
  }

  /** A paragraph within both limits comes out as it is. */
  lemma FittingParagraphSurvives(text: string, max: int, min: int, para: string)
    requires para in Paragraphs(Strip(text)) && min <= |para| <= max
    ensures para in Split(text, max, min)
  {
    var paras := Paragraphs(Strip(text));
    StripFacts(text);
    if !HasBlankLine(Strip(text)) {
      OneParagraph(Strip(text));
      assert StripAll([Strip(text)]) == if Strip(text) == "" then [] else [Strip(text)] by {
        assert [Strip(text)][1..] == [];
        if Strip(text) != "" {
          StripTrimmed(Strip(text));
        }
      }
    }
    PartsExact(paras, max, min, para);
    KeepExact(AllParts(paras, max, min), min, para);
  }
}
