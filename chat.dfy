/** One chat session: the transcript and the ledger of slogan-like phrases
    already used, and the turn step that classifies the user's message,
    composes the payload, records the reply and updates the ledger. The
    completion call itself is outside the model: its reply is an input. */
module Chat {
  import opened Wrappers
  import opened Text
  import opened Intent
  import opened Prompt

  const Greeting: string :=
    "Hi! Ask about business, growth, habits, or a quick plan \U{2014} I\U{2019}ll keep it practical."

  /** The message every transcript starts with. */
  const Seed: Msg := Msg(Assistant, Greeting)

  /** The phrases looked for in every reply, in the order they are tried. */
  const WatchList: seq<string> :=
    ["believe me", "win big", "make it great again", "tremendous", "huge", "bigly"]

  /** The lower-cased watch list: all the ledger can ever hold. */
  const Watched: set<string> :=
    {"believe me", "win big", "make it great again", "tremendous", "huge", "bigly"}

  /** The phrases among `ps` that occur in `reply`, both sides lower-cased,
      each recorded lower-cased. */
  function Found(reply: string, ps: seq<string>): (r: set<string>)
    ensures forall q :: q in r ==> IsLower(q) && Occurs(Lower(reply), q)
    ensures forall q :: q in r ==> exists p :: p in ps && q == Lower(p)
    ensures forall p :: p in ps && Occurs(Lower(reply), Lower(p)) ==> Lower(p) in r
  {
    forall p | p in ps ensures IsLower(Lower(p)) {
      LowerIsLower(p);
    }
    set p | p in ps && Contains(Lower(reply), Lower(p)) :: Lower(p)
  }

  /** The watch list is already lower-case and spells out `Watched`. */
  lemma WatchListLower()
    ensures forall p :: p in WatchList ==> Lower(p) == p
    ensures forall p :: p in WatchList <==> p in Watched
  {
    forall p | p in WatchList ensures Lower(p) == p {
      assert IsLower(p);
      LowerIsLower(p);
    }
  }

  /** The phrases a reply adds to the ledger: exactly the watched phrases
      that occur in it, whatever their case there. */
  function PhrasesIn(reply: string): (found: set<string>)
    ensures found <= Watched
    ensures forall p :: p in Watched ==> (p in found <==> Occurs(Lower(reply), p))
  {
    WatchListLower();
    var found := Found(reply, WatchList);
    forall p | p in Watched ensures p in found <==> Occurs(Lower(reply), p) {
      assert p in WatchList && Lower(p) == p;
    }
    found
  }

  /** The set of phrases a reply adds to the ledger is what the loop over
      the watch list gathers. */
  lemma PhrasesInGathered(reply: string)
    ensures PhrasesIn(reply) == Found(reply, WatchList)
  {
  }

  /** Recording the phrases of `ps[k]` on top of those of `ps[..k]`. */
  lemma FoundStep(reply: string, ps: seq<string>, k: nat)
    requires k < |ps|
    ensures Found(reply, ps[..k + 1]) ==
      Found(reply, ps[..k]) + (if Contains(Lower(reply), Lower(ps[k])) then {Lower(ps[k])} else {})
  {
    assert ps[..k + 1] == ps[..k] + [ps[k]];
  }

  /** A transcript after `turns` turns: the seed, then a user message and an
      assistant reply for each turn. */
  predicate WellFormed(messages: seq<Msg>, turns: nat) {
    |messages| == 1 + 2 * turns
    && messages[0] == Seed
    && (forall k :: 1 <= k < |messages| ==> messages[k].role == if k % 2 == 1 then User else Assistant)
  }

  /** Appending a user message and then a reply keeps a transcript well formed,
      one turn longer. */
  lemma WellFormedStep(messages: seq<Msg>, turns: nat, userText: string, reply: string)
    requires WellFormed(messages, turns)
    ensures WellFormed(messages + [Msg(User, userText), Msg(Assistant, reply)], turns + 1)
  {
    var next := messages + [Msg(User, userText), Msg(Assistant, reply)];
    forall k | 1 <= k < |next| ensures next[k].role == if k % 2 == 1 then User else Assistant {
      if k < |messages| {
        assert next[k] == messages[k];
      }
    }
  }

  /** The watch list has six distinct phrases. */
  lemma WatchedSize()
    ensures |Watched| == 6
  {
  }

  /** The ledger never outgrows the avoid-hint: at most six phrases, all of
      them listed. */
  lemma LedgerFullyListed(used: set<string>)
    requires used <= Watched
    ensures |used| <= 6
    ensures |used| <= HintCap
    ensures forall x :: x in used ==> x in HintList(used)
  {
    WatchedSize();
    SubsetSize(used, Watched);
    HintListsAll(used);
  }

  /** Every phrase in the ledger is named in the avoid-hint text. */
  lemma HintNamesEveryUsedPhrase(used: set<string>, x: string)
    requires used <= Watched && x in used
    ensures Occurs(AvoidHint(used), x)
  {
    LedgerFullyListed(used);
    HintNamesAll(used, x);
  }

  lemma {:induction false} SubsetSize<T>(a: set<T>, b: set<T>)
    requires a <= b
    ensures |a| <= |b|
    decreases |b|
  {
    if a != {} {
      var x :| x in a;
      SubsetSize(a - {x}, b - {x});
    }
  }

  /** No watched phrase but "tremendous" occurs in "tremendous". */
  lemma NoOtherPhrase(reply: string, p: string, i: int)
    requires reply == "tremendous"
    requires p in Watched && p != "tremendous"
    ensures !OccursAt(reply, p, i)
  {
    if OccursAt(reply, p, i) {
      OccursAtFirst(reply, p, i);
      assert false;
    }
  }

  /** No watched phrase but "tremendous" occurs in "tremendous". */
  lemma OnlyTremendousOccurs(reply: string)
    requires reply == "tremendous"
    ensures forall p :: p in Watched && p != "tremendous" ==> !Occurs(reply, p)
  {
    forall p, i | p in Watched && p != "tremendous" ensures !OccursAt(reply, p, i) {
      NoOtherPhrase(reply, p, i);
    }
  }

  /** "tremendous" is lower-case and holds itself. */
  lemma TremendousOccurs(reply: string)
    requires reply == "tremendous"
    ensures Lower(reply) == reply && Occurs(reply, "tremendous")
  {
    WatchListLower();
    assert reply == WatchList[3];
    assert OccursAt(reply, "tremendous", 0);
  }

  /** A reply that is just "tremendous" adds that phrase and no other. */
  lemma TremendousOnly(reply: string)
    requires reply == "tremendous"
    ensures PhrasesIn(reply) == {"tremendous"}
  {
    TremendousOccurs(reply);
    OnlyTremendousOccurs(reply);
  }

  class Session {
    /** `st.session_state.messages`. */
    var messages: seq<Msg>
    /** `st.session_state.used_phrases`. */
    var used: set<string>
    /** The number of turns taken so far. */
    ghost var turns: nat

    /** The transcript is the seed followed by one user message and one
        assistant reply per turn, and the ledger holds watched phrases only. */
    ghost predicate Valid()
      reads this
    {
      WellFormed(messages, turns) && used <= Watched
    }

    /** A new session: the greeting alone and an empty ledger. */
    constructor ()
      ensures Valid()
      ensures messages == [Seed] && used == {} && turns == 0
    {
      messages := [Seed];
      used := {};
      turns := 0;
    }

    /** One turn. An empty message changes nothing. Otherwise the message
        is appended, the payload is composed from the transcript and the
        ledger as they are at that point, `reply` is appended, and every
        watched phrase found in it joins the ledger. */
    method Turn(userText: string, reply: string) returns (payload: Option<seq<Msg>>)
      requires Valid()
      modifies this
      ensures Valid()
      ensures old(used) <= used
      ensures userText == "" ==>
        payload == None && messages == old(messages) && used == old(used) && turns == old(turns)
      ensures userText != "" ==>
        messages == old(messages) + [Msg(User, userText), Msg(Assistant, reply)]
        && turns == old(turns) + 1
        && payload == Some(ComposePayload(ModeInstructions(DetectMode(userText)), AvoidHint(old(used)),
                                          old(messages) + [Msg(User, userText)]))
        && used == old(used) + PhrasesIn(reply)
    {
      if userText == "" {
        return None;
      }
      WellFormedStep(messages, turns, userText, reply);
      messages := messages + [Msg(User, userText)];

      var mode := DetectMode(userText);
      var avoidHint := AvoidHint(used);
      payload := Some(ComposePayload(ModeInstructions(mode), avoidHint, messages));

      messages := messages + [Msg(Assistant, reply)];
      turns := turns + 1;
      assert messages == old(messages) + [Msg(User, userText), Msg(Assistant, reply)];

      NotePhrases(reply);
    }

    /** The loop over the watch list: every watched phrase that occurs in
        `reply`, ignoring case, joins the ledger in lower case. */
    method NotePhrases(reply: string)
      requires used <= Watched
      modifies this`used
      ensures used == old(used) + PhrasesIn(reply)
      ensures used <= Watched
    {
      for i := 0 to |WatchList|
        invariant used == old(used) + Found(reply, WatchList[..i])
      {
        var p := Lower(WatchList[i]);
        if Contains(Lower(reply), p) {
          used := used + {p};
        }
        FoundStep(reply, WatchList, i);
      }
      assert WatchList[..|WatchList|] == WatchList;
      PhrasesInGathered(reply);
    }
  }

  /** The growth conversation on a fresh session: "how do i grow my sales"
      is answered in advice mode, and when the reply is "tremendous" the
      ledger it fills from empty gives a hint naming just that phrase. */
  lemma GrowthConversation(question: string, reply: string)
    requires question == "how do i grow my sales" && reply == "tremendous"
    ensures ModeInstructions(DetectMode(question)) == AdviceBlock
    ensures AvoidHint(PhrasesIn(reply)) == AvoidPrefix + "tremendous"
  {
    SalesQuestionIsAdvice(question);
    TremendousOnly(reply);
    AvoidHintSingle("tremendous");
  }
}
