/** The prompt composer: the fixed system texts, the avoid-hint built from
    the phrases already used in the session, and the ordered message list
    sent to the completion endpoint for one turn. */
module Prompt {
  import opened Text
  import opened Ordering

  datatype Role = System | User | Assistant

  /** One chat message, {"role": ..., "content": ...}. */
  datatype Msg = Msg(role: Role, content: string)

  const StyleCard: string :=
    "You are Donald Trump.\n"
    + "All your personal details exactly match with Donald Trump.\n"
    + "Primary goal: deliver useful, concrete advice. Secondary: a brief, witty closer only if it adds value.\n"
    + "Avoid hype, empty slogans, and repeated phrases. Prefer specifics: numbers, examples, checklists.\n"
    + "Keep answers short unless the user asks for depth.\n"
    + "Use phrases like Make America Great Again, The Beautiful Bill, wherever needed. \n"

  const Guardrails: string :=
    "Safety: no medical/financial/legal guarantees; no hate/harassment; no political persuasion. "

  const AvoidNote: string :=
    "Avoid repeating slogans (e.g., 'believe me', 'tremendous', 'huge', 'win big', 'make it great again', 'bigly'). "
    + "Vary word choice across the session. Do not restate the same advice multiple times."

  const AvoidPrefix: string := "Already used this session, avoid repeating: "

  /** At most this many used phrases are listed in the avoid-hint. */
  const HintCap: nat := 12

  /** Only this many of the latest transcript entries are sent. */
  const HistoryWindow: nat := 6

  /** `list` is what the avoid-hint shows for `used`: the HintCap smallest
      phrases (all of them if there are fewer), in ascending order. */
  predicate IsHintList(list: seq<string>, used: set<string>) {
    |list| == Min(HintCap, |used|)
    && StrictlySorted(list)
    && (forall k :: 0 <= k < |list| ==> list[k] in used)
    && (forall x, k :: x in used && x !in list && 0 <= k < |list| ==> Less(list[k], x))
  }

  /** `sorted(list(used))[:12]`. */
  function HintList(used: set<string>): (list: seq<string>)
    ensures IsHintList(list, used)
  {
    var all := Sorted(used);
    var list := all[..Min(HintCap, |all|)];
    forall x, k | x in used && x !in list && 0 <= k < |list| ensures Less(list[k], x) {
      var j :| 0 <= j < |all| && all[j] == x;
      assert all[k] == list[k];
    }
    list
  }

  /** At most one list meets IsHintList, so the avoid-hint is determined by
      the used set. */
  lemma HintListUnique(a: seq<string>, b: seq<string>, used: set<string>)
    requires IsHintList(a, used) && IsHintList(b, used)
    ensures a == b
  {
    var d := 0;
    while d < |a| && a[d] == b[d]
      invariant 0 <= d <= |a| && a[..d] == b[..d]
    {
      d := d + 1;
    }
    if d < |a| {
      FirstDifferenceNotSmaller(a, b, used, d);
      FirstDifferenceNotSmaller(b, a, used, d);
      LessTotal(a[d], b[d]);
      assert false;
    }
  }

  /** Where two hint lists first differ, the entry of the first is not the
      smaller: it would be missing from the second list below an entry of it,
      or present there out of order. */
  lemma FirstDifferenceNotSmaller(a: seq<string>, b: seq<string>, used: set<string>, d: nat)
    requires IsHintList(a, used) && IsHintList(b, used)
    requires d < |a| && d < |b| && a[..d] == b[..d] && a[d] != b[d]
    ensures !Less(a[d], b[d])
  {
    var x := a[d];
    if x in b {
      var m :| 0 <= m < |b| && b[m] == x;
      AfterFirstDifference(a, b, d, m);
    }
    assert Less(b[d], x);
    LessAsymmetric(b[d], x);
  }

  /** An entry of a strictly sorted `a` reappears in `b`, which agrees with
      `a` before position `d`, only after `d`. */
  lemma AfterFirstDifference(a: seq<string>, b: seq<string>, d: nat, m: nat)
    requires StrictlySorted(a) && StrictlySorted(b)
    requires d < |a| && d < |b| && a[..d] == b[..d] && a[d] != b[d]
    requires m < |b| && b[m] == a[d]
    ensures d < m && Less(b[d], a[d])
  {
    if m < d {
      assert a[m] == a[..d][m] == b[m];
      LessIrreflexive(a[d]);
    }
  }

  /** `build_avoid_hint`: empty while nothing is used, otherwise the prefix
      followed by the listed phrases separated by "; ". */
  function AvoidHint(used: set<string>): (r: string)
    ensures r == "" <==> used == {}
    ensures used != {} ==> exists list :: IsHintList(list, used) && r == AvoidPrefix + Join(list, "; ")
  {
    if used == {} then ""
    else
      var list := HintList(used);
      assert |AvoidPrefix + Join(list, "; ")| >= |AvoidPrefix| > 0;
      AvoidPrefix + Join(list, "; ")
  }

  /** A single used phrase gives the prefix followed by that phrase. */
  lemma AvoidHintSingle(x: string)
    ensures AvoidHint({x}) == AvoidPrefix + x
  {
    var list := HintList({x});
    assert |list| == 1 && list[0] in {x};
    assert list == [x];
  }

  /** With no more than HintCap phrases used, every one of them is listed. */
  lemma HintListsAll(used: set<string>)
    requires |used| <= HintCap
    ensures forall x :: x in used ==> x in HintList(used)
  {
    assert HintList(used) == Sorted(used);
  }

  /** With no more than HintCap phrases used, the avoid-hint text itself
      names every one of them. */
  lemma HintNamesAll(used: set<string>, x: string)
    requires |used| <= HintCap && x in used
    ensures Occurs(AvoidHint(used), x)
  {
    var list := HintList(used);
    var shown :| IsHintList(shown, used) && AvoidHint(used) == AvoidPrefix + Join(shown, "; ");
    HintListUnique(shown, list, used);
    HintListsAll(used);
    var k :| 0 <= k < |list| && list[k] == x;
    JoinHoldsParts(list, "; ");
    OccursInSuffix(AvoidPrefix, Join(list, "; "), x);
  }

  /** Python's `s[-n:]` for `n > 0` (the window used is 6): the last `n`
      entries, or all of them when fewer. */
  function Recent(s: seq<Msg>, n: nat): (r: seq<Msg>)
    ensures |r| == Min(n, |s|)
    ensures forall k :: 0 <= k < |r| ==> r[k] == s[|s| - |r| + k]
  {
    if |s| <= n then s else s[|s| - n..]
  }

  /** The `messages` argument of the completion call: five system messages
      in a fixed order (the style card, the guardrails, the avoid note, the
      instruction block of the mode, the avoid-hint), then the latest
      transcript entries in their order. */
  function ComposePayload(modeBlock: string, avoidHint: string, history: seq<Msg>): (p: seq<Msg>)
    ensures |p| == 5 + Min(HistoryWindow, |history|)
    ensures p[0] == Msg(System, StyleCard) && p[1] == Msg(System, Guardrails)
    ensures p[2] == Msg(System, AvoidNote) && p[3] == Msg(System, modeBlock)
    ensures p[4] == Msg(System, avoidHint)
    ensures forall k :: 5 <= k < |p| ==> p[k] == history[|history| - |p| + k]
  {
    [Msg(System, StyleCard), Msg(System, Guardrails), Msg(System, AvoidNote),
     Msg(System, modeBlock), Msg(System, avoidHint)]
    + Recent(history, HistoryWindow)
  }

  /** The payload ends with the newest transcript entry: the user message
      appended just before it was composed. */
  lemma PayloadEndsWithNewest(modeBlock: string, avoidHint: string, history: seq<Msg>, newest: Msg)
    ensures var p := ComposePayload(modeBlock, avoidHint, history + [newest]);
      p[|p| - 1] == newest
  {
  }
}
