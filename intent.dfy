/** The intent classifier: which of three response modes governs the reply to
    a user message, decided by whole-word keyword patterns tried in a fixed
    priority order, and the instruction block each mode sends. */
module Intent {
  import opened Text

  const FACTS := "facts"
  const ADVICE := "advice"
  const MOTIVATION := "motivation"

  /** FACT_KEYWORDS; the alternative `facts?` is written as "fact" and "facts". */
  const FactKeywords: seq<string> :=
    ["what", "who", "when", "where", "define", "explain", "difference", "meaning",
     "fact", "facts", "is", "are", "was", "were", "how much", "price", "cost"]

  /** PLAN_KEYWORDS. */
  const PlanKeywords: seq<string> :=
    ["plan", "strategy", "roadmap", "steps", "how to", "improve", "grow", "increase",
     "optimize", "launch", "start", "fix", "reduce"]

  /** MOTIVATE_KEYWORDS. */
  const MotivateKeywords: seq<string> :=
    ["motivate", "motivation", "encourage", "confidence", "nervous", "scared", "stuck"]

  /** The regular-expression assertion \b at position `p` of `t`: exactly one
      of the characters on either side is a word character. */
  predicate Boundary(t: string, p: int)
    ensures Boundary(t, p) ==> 0 <= p <= |t|
    ensures p == 0 ==> (Boundary(t, p) <==> |t| > 0 && IsWordChar(t[0]))
    ensures p == |t| ==> (Boundary(t, p) <==> |t| > 0 && IsWordChar(t[|t| - 1]))
  {
    (0 < p <= |t| && IsWordChar(t[p - 1])) != (0 <= p < |t| && IsWordChar(t[p]))
  }

  /** `\bkw\b` matches `t` at position `i`. */
  predicate WholeWordAt(t: string, kw: string, i: int)
    ensures WholeWordAt(t, kw, i) ==> OccursAt(t, kw, i)
    ensures |kw| > 0 && IsWordChar(kw[0]) && IsWordChar(kw[|kw| - 1]) ==>
      (WholeWordAt(t, kw, i) <==>
        OccursAt(t, kw, i)
        && (i == 0 || !IsWordChar(t[i - 1]))
        && (i + |kw| == |t| || !IsWordChar(t[i + |kw|])))
  {
    OccursAt(t, kw, i) && Boundary(t, i) && Boundary(t, i + |kw|)
  }

  /** `re.search(r"\b(k1|k2|...)\b", t)` succeeds: some keyword of the
      alternation occurs in `t` as a whole word. */
  ghost predicate WordMatch(t: string, kws: seq<string>)
    ensures WordMatch(t, kws) ==> exists k :: 0 <= k < |kws| && Occurs(t, kws[k])
  {
    exists k, i :: 0 <= k < |kws| && WholeWordAt(t, kws[k], i)
  }

  /** Scan of `t` for `\bkw\b` from position `i` on. */
  function SearchFrom(t: string, kw: string, i: nat): (found: bool)
    decreases |t| - i
    ensures found <==> exists j :: i <= j && WholeWordAt(t, kw, j)
  {
    if i + |kw| > |t| then false
    else if WholeWordAt(t, kw, i) then true
    else SearchFrom(t, kw, i + 1)
  }

  /** The alternation: tries the keywords from index `k` on. */
  function SearchAny(t: string, kws: seq<string>, k: nat): (found: bool)
    decreases |kws| - k
    ensures found <==> exists m, i :: k <= m < |kws| && WholeWordAt(t, kws[m], i)
  {
    if k >= |kws| then false
    else if SearchFrom(t, kws[k], 0) then true
    else SearchAny(t, kws, k + 1)
  }

  /** `detect_mode`: FACT keywords win over PLAN keywords, which win over
      MOTIVATE keywords; with none of them the mode is advice. */
  function DetectMode(text: string): (mode: string)
    ensures mode == FACTS || mode == ADVICE || mode == MOTIVATION
    ensures mode == FACTS <==> WordMatch(Lower(text), FactKeywords)
    ensures mode == MOTIVATION <==>
      !WordMatch(Lower(text), FactKeywords) && !WordMatch(Lower(text), PlanKeywords)
      && WordMatch(Lower(text), MotivateKeywords)
    ensures mode == ADVICE <==>
      !WordMatch(Lower(text), FactKeywords)
      && (WordMatch(Lower(text), PlanKeywords) || !WordMatch(Lower(text), MotivateKeywords))
  {
    var t := Lower(text);
    if SearchAny(t, FactKeywords, 0) then FACTS
    else if SearchAny(t, PlanKeywords, 0) then ADVICE
    else if SearchAny(t, MotivateKeywords, 0) then MOTIVATION
    else ADVICE
  }

  const FactsBlock: string :=
    "Mode: FACTS.\n"
    + "Respond neutrally and precisely. If appropriate, include a short 3\U{2013}5 bullet summary. "
    + "Cite sources only if the user provided them; otherwise keep to general knowledge. "
    + "Optionally add one short confident closer if it adds value."

  const AdviceBlock: string :=
    "Mode: ADVICE.\n"
    + "Give a tight action plan with 3\U{2013}6 numbered steps, concrete examples, and simple metrics "
    + "(e.g., deadlines, targets, percentages). No slogans. No repetition."

  const MotivationBlock: string :=
    "Mode: MOTIVATION.\n"
    + "Keep it uplifting but grounded: 2\U{2013}4 short sentences, then 3 actionable micro-steps the user can do today. "
    + "One fresh one-liner max; do not recycle lines used earlier."

  /** `mode_instructions`: "facts" and "advice" have their own blocks and
      every other string gets the motivation block. */
  function ModeInstructions(mode: string): (r: string)
    ensures r == FactsBlock || r == AdviceBlock || r == MotivationBlock
  {
    if mode == FACTS then FactsBlock
    else if mode == ADVICE then AdviceBlock
    else MotivationBlock
  }

  /** The block sent for a mode opens with a header naming that mode; any
      string that is neither "facts" nor "advice" is answered as motivation. */
  lemma ModeInstructionsHeader(mode: string)
    ensures StartsWith(ModeInstructions(mode), "Mode: FACTS.") <==> mode == FACTS
    ensures StartsWith(ModeInstructions(mode), "Mode: ADVICE.") <==> mode == ADVICE
    ensures StartsWith(ModeInstructions(mode), "Mode: MOTIVATION.") <==> mode != FACTS && mode != ADVICE
  {
    if mode == FACTS {
      assert FactsBlock[..13][6] == 'F' && FactsBlock[..17][6] == 'F';
    } else if mode == ADVICE {
      assert AdviceBlock[..12][6] == 'A' && AdviceBlock[..17][6] == 'A';
    } else {
      assert MotivationBlock[..12][6] == 'M' && MotivationBlock[..13][6] == 'M';
    }
  }

  /** The mode does not depend on letter case. */
  lemma DetectModeIgnoresCase(text: string)
    ensures DetectMode(Lower(text)) == DetectMode(text)
  {
    LowerIdempotent(text);
  }

  /** A message with a FACT keyword asks for facts, whatever else it holds. */
  lemma FactWins(text: string)
    requires WordMatch(Lower(text), FactKeywords)
    ensures DetectMode(text) == FACTS
  {
  }

  /** A message opening with the word "what", in any case, as in "What is
      the price of gold?", asks for facts. */
  lemma WhatQuestionIsFacts(text: string)
    requires |text| >= 5 && Lower(text)[..5] == "what "
    ensures DetectMode(text) == FACTS
  {
    var t := Lower(text);
    assert t[..5][4] == ' ';
    assert t[..4] == t[..5][..4] == FactKeywords[0];
    assert WholeWordAt(t, FactKeywords[0], 0);
    FactWins(text);
  }

  /** A whole-word match of a keyword that begins and ends with a word
      character starts a word and ends one. */
  lemma WholeWordBounds(t: string, kw: string, i: int)
    requires |kw| > 0 && IsWordChar(kw[0]) && IsWordChar(kw[|kw| - 1])
    requires WholeWordAt(t, kw, i)
    ensures t[i] == kw[0] && WordStart(t, i)
    ensures t[i + |kw| - 1] == kw[|kw| - 1] && (i + |kw| == |t| || !IsWordChar(t[i + |kw|]))
    ensures |kw| > 1 ==> t[i + 1] == kw[1]
    ensures |kw| > 2 ==> t[i + 2] == kw[2]
  {
    assert t[i..i + |kw|][0] == t[i];
    assert |kw| > 1 ==> t[i..i + |kw|][1] == t[i + 1];
    assert |kw| > 2 ==> t[i..i + |kw|][2] == t[i + 2];
    assert t[i..i + |kw|][|kw| - 1] == t[i + |kw| - 1];
  }

  /** A word of `t` starts at `i`: no word character precedes it. */
  predicate WordStart(t: string, i: int) {
    0 <= i < |t| && (i == 0 || !IsWordChar(t[i - 1]))
  }

  /** The first two letters of a FACT keyword. */
  predicate FactHead(a: char, b: char) {
    (a == 'w' && (b == 'h' || b == 'a' || b == 'e')) || (a == 'd' && (b == 'e' || b == 'i'))
    || (a == 'e' && b == 'x') || (a == 'm' && b == 'e') || (a == 'f' && b == 'a')
    || (a == 'i' && b == 's') || (a == 'a' && b == 'r') || (a == 'h' && b == 'o')
    || (a == 'p' && b == 'r') || (a == 'c' && b == 'o')
  }

  /** The first three letters of a MOTIVATE keyword. */
  predicate MotivateHead(a: char, b: char, c: char) {
    (a == 'm' && b == 'o' && c == 't') || (a == 'e' && b == 'n' && c == 'c')
    || (a == 'c' && b == 'o' && c == 'n') || (a == 'n' && b == 'e' && c == 'r')
    || (a == 's' && ((b == 'c' && c == 'a') || (b == 't' && c == 'u')))
  }

  lemma FactHeads(m: int)
    requires 0 <= m < |FactKeywords|
    ensures |FactKeywords[m]| >= 2 && FactHead(FactKeywords[m][0], FactKeywords[m][1])
    ensures IsWordChar(FactKeywords[m][|FactKeywords[m]| - 1])
    ensures FactKeywords[m][0] == 'h' ==> |FactKeywords[m]| == 8 && FactKeywords[m][7] == 'h'
    ensures FactKeywords[m][0] == 'w' ==> |FactKeywords[m]| <= 5
  {
  }

  lemma MotivateHeads(m: int)
    requires 0 <= m < |MotivateKeywords|
    ensures |MotivateKeywords[m]| >= 3
    ensures MotivateHead(MotivateKeywords[m][0], MotivateKeywords[m][1], MotivateKeywords[m][2])
    ensures IsWordChar(MotivateKeywords[m][|MotivateKeywords[m]| - 1])
  {
  }

  /** "whatever" is one word: it starts only at 0 and has no boundary inside. */
  lemma WhateverWord(t: string, i: int, j: int)
    requires t == "whatever" && WordStart(t, i)
    ensures i == 0 && t[0] == 'w' && t[1] == 'h' && t[2] == 'a'
    ensures 0 < j < |t| ==> !Boundary(t, j)
  {
  }

  /** No FACT or MOTIVATE keyword is a whole word of "whatever". */
  lemma NoKeywordInWhatever(t: string, kws: seq<string>)
    requires t == "whatever"
    requires kws == FactKeywords || kws == MotivateKeywords
    ensures !WordMatch(t, kws)
  {
    forall m, i | 0 <= m < |kws| && WholeWordAt(t, kws[m], i)
      ensures false
    {
      if kws == FactKeywords {
        FactHeads(m);
      } else {
        MotivateHeads(m);
      }
      WholeWordBounds(t, kws[m], i);
      WhateverWord(t, i, i + |kws[m]|);
    }
  }

  /** The two words of "good morning" and their first letters. */
  lemma GreetingWordStarts(t: string, i: int)
    requires t == "good morning" && WordStart(t, i)
    ensures i + 2 < |t|
    ensures (i == 0 && t[i] == 'g' && t[i + 1] == 'o' && t[i + 2] == 'o')
      || (i == 5 && t[i] == 'm' && t[i + 1] == 'o' && t[i + 2] == 'r')
  {
  }

  /** No FACT keyword is a whole word of "good morning". */
  lemma NoFactInGreeting(t: string)
    requires t == "good morning"
    ensures !WordMatch(t, FactKeywords)
  {
    forall m, i | 0 <= m < |FactKeywords| && WholeWordAt(t, FactKeywords[m], i)
      ensures false
    {
      FactHeads(m);
      WholeWordBounds(t, FactKeywords[m], i);
      GreetingWordStarts(t, i);
    }
  }

  /** No MOTIVATE keyword is a whole word of "good morning". */
  lemma NoMotivationInGreeting(t: string)
    requires t == "good morning"
    ensures !WordMatch(t, MotivateKeywords)
  {
    forall m, i | 0 <= m < |MotivateKeywords| && WholeWordAt(t, MotivateKeywords[m], i)
      ensures false
    {
      MotivateHeads(m);
      WholeWordBounds(t, MotivateKeywords[m], i);
      GreetingWordStarts(t, i);
    }
  }

  /** The two words of "nervous plan" and their first letters. */
  lemma PlanWorryWordStarts(t: string, i: int)
    requires t == "nervous plan" && WordStart(t, i)
    ensures i + 1 < |t|
    ensures (i == 0 && t[i] == 'n' && t[i + 1] == 'e') || (i == 8 && t[i] == 'p' && t[i + 1] == 'l')
  {
  }

  /** No FACT keyword is a whole word of "nervous plan". */
  lemma NoFactInPlanWorry(t: string)
    requires t == "nervous plan"
    ensures !WordMatch(t, FactKeywords)
  {
    forall m, i | 0 <= m < |FactKeywords| && WholeWordAt(t, FactKeywords[m], i)
      ensures false
    {
      FactHeads(m);
      WholeWordBounds(t, FactKeywords[m], i);
      PlanWorryWordStarts(t, i);
    }
  }

  /** The words of "how do i grow my sales" and their first letters. */
  lemma SalesWordStarts(t: string, i: int)
    requires t == "how do i grow my sales" && WordStart(t, i)
    ensures i + 1 < |t|
    ensures (i == 0 && t[i] == 'h' && t[i + 1] == 'o' && t[7] == 'i')
      || (i == 4 && t[i] == 'd' && t[i + 1] == 'o') || (i == 7 && t[i] == 'i' && t[i + 1] == ' ')
      || (i == 9 && t[i] == 'g' && t[i + 1] == 'r') || (i == 14 && t[i] == 'm' && t[i + 1] == 'y')
      || (i == 17 && t[i] == 's' && t[i + 1] == 'a')
  {
  }

  /** No FACT keyword is a whole word of "how do i grow my sales"; "how much"
      shares its first word and fails on the second. */
  lemma NoFactInSalesQuestion(t: string)
    requires t == "how do i grow my sales"
    ensures !WordMatch(t, FactKeywords)
  {
    forall m, i | 0 <= m < |FactKeywords| && WholeWordAt(t, FactKeywords[m], i)
      ensures false
    {
      FactHeads(m);
      WholeWordBounds(t, FactKeywords[m], i);
      SalesWordStarts(t, i);
    }
  }

  /** A keyword inside a longer word does not count: "whatever" holds "what"
      but falls to the default mode. */
  lemma EmbeddedKeywordIgnored(text: string)
    requires text == "whatever"
    ensures OccursAt(text, "what", 0)
    ensures DetectMode(text) == ADVICE
  {
    assert text[..4] == "what";
    assert IsLower(text);
    LowerIsLower(text);
    NoKeywordInWhatever(text, FactKeywords);
    NoKeywordInWhatever(text, MotivateKeywords);
  }

  lemma NeitherFactNorMotivation(text: string)
    requires !WordMatch(Lower(text), FactKeywords) && !WordMatch(Lower(text), MotivateKeywords)
    ensures DetectMode(text) == ADVICE
  {
  }

  /** No keyword at all: the default mode, advice. */
  lemma GreetingIsAdvice(text: string)
    requires text == "good morning"
    ensures DetectMode(text) == ADVICE
  {
    assert IsLower(text);
    LowerIsLower(text);
    NoFactInGreeting(text);
    NoMotivationInGreeting(text);
    NeitherFactNorMotivation(text);
  }

  /** A PLAN keyword outranks a MOTIVATE keyword in the same message. */
  lemma PlanBeatsMotivation(text: string)
    requires text == "Nervous plan"
    ensures WordMatch(Lower(text), MotivateKeywords)
    ensures DetectMode(text) == ADVICE
  {
    var t := Lower(text);
    assert t == "nervous plan";
    NoFactInPlanWorry(t);
    assert t[..7] == "nervous" && t[8..12] == "plan";
    assert WholeWordAt(t, MotivateKeywords[4], 0);
    assert WholeWordAt(t, PlanKeywords[0], 8);
  }

  /** A message with a PLAN keyword and no FACT keyword asks for advice. */
  lemma PlanWithoutFact(text: string)
    requires !WordMatch(Lower(text), FactKeywords) && WordMatch(Lower(text), PlanKeywords)
    ensures DetectMode(text) == ADVICE
  {
  }

  /** "grow" is a whole word of the lower-cased growth question. */
  lemma GrowInSalesQuestion(t: string)
    requires t == "how do i grow my sales"
    ensures WordMatch(t, PlanKeywords)
  {
    assert PlanKeywords[6] == "grow";
    assert t[9..13] == "grow";
    assert OccursAt(t, PlanKeywords[6], 9);
    assert Boundary(t, 9) && Boundary(t, 13);
    assert WholeWordAt(t, PlanKeywords[6], 9);
  }

  /** The message that opens a growth conversation is classified as advice. */
  lemma SalesQuestionIsAdvice(text: string)
    requires text == "how do i grow my sales"
    ensures DetectMode(text) == ADVICE
  {
    assert IsLower(text);
    LowerIsLower(text);
    NoFactInSalesQuestion(text);
    GrowInSalesQuestion(text);
    PlanWithoutFact(text);
  }
}
