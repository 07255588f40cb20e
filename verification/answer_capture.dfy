/** Finding the generated answer in the conversation transcript: the
    evaluations run 800 ms after a response ends and, when that one is
    inconclusive, once more (`handleResponseEndWithCapture` in
    components/ChatKitPanel.tsx). */
module AnswerCapture {
  import opened Values
  import opened Strings
  import opened MessageContent
  import opened Scans

  datatype Role = User | Assistant | OtherRole

  /** A transcript item: an object with both `role` and `content`, or
      anything else, which every scan skips. */
  datatype Item = Entry(role: Role, content: Content) | Unshaped

  /** What reading the thread yields when an evaluation fires. */
  datatype Snapshot =
    | Unreadable                          // reading the thread threw
    | NoItemsKey                          // no thread, not an object, or no `items` key
    | WithItems(items: Option<seq<Item>>) // `items` key present; None when it is not an array

  /** The message the panel sends to ask for an answer. */
  const PROMPT_HEAD := "Generate a "
  const PROMPT_TAIL := " for this question based on our conversation."
  /** "Generate a comprehensive answer for this question based on our conversation." */
  const GENERATE_PROMPT := PROMPT_HEAD + TRIGGER_PHRASE + PROMPT_TAIL
  /** "generate a comprehensive answer" */
  const LONG_TRIGGER_PHRASE := "generate a " + TRIGGER_PHRASE
  const TRIGGER_PHRASE := "comprehensive answer"
  const ANSWER_PREFIX := "answer:"

  const FIRST_DELAY := 800
  const RETRY_DELAY_WITH_ITEMS := 1500
  const RETRY_DELAY_WITHOUT_ITEMS := 2000

  // ---------------------------------------------------------------------
  // Locating the request and the reply

  /** A user item whose text mentions the answer request. */
  predicate IsTrigger(it: Item) {
    && it.Entry? && it.role == User && Present(it.content)
    && (|| Contains(Lower(ExtractText(it.content)), LONG_TRIGGER_PHRASE)
        || Contains(Lower(ExtractText(it.content)), TRIGGER_PHRASE))
  }

  /** One flag per item: is it a trigger? */
  function TriggerFlags(items: seq<Item>): (fs: seq<bool>)
    ensures |fs| == |items|
    ensures forall i :: 0 <= i < |items| ==> fs[i] == IsTrigger(items[i])
  {
    seq(|items|, i requires 0 <= i < |items| => IsTrigger(items[i]))
  }

  /** `items.findIndex(IsTrigger)`: the FIRST trigger, or -1. */
  function FindTrigger(items: seq<Item>): (r: int)
    ensures -1 <= r < |items|
    ensures r >= 0 ==> IsTrigger(items[r]) && forall j :: 0 <= j < r ==> !IsTrigger(items[j])
    ensures r == -1 <==> forall j :: 0 <= j < |items| ==> !IsTrigger(items[j])
  {
    FirstIndex(TriggerFlags(items))
  }

  /** An assistant item with truthy content (its text may still be empty). */
  predicate IsReply(it: Item) {
    it.Entry? && it.role == Assistant && Present(it.content)
  }

  /** One flag per item: is it a reply? */
  function ReplyFlags(items: seq<Item>): (fs: seq<bool>)
    ensures |fs| == |items|
    ensures forall i :: 0 <= i < |items| ==> fs[i] == IsReply(items[i])
  {
    seq(|items|, i requires 0 <= i < |items| => IsReply(items[i]))
  }

  /** The reverse scan for the last reply after `trigger`, or anywhere when
      `trigger` is -1. */
  function LastReplyAfter(items: seq<Item>, trigger: int): Option<nat> {
    LastIndexAfter(ReplyFlags(items), trigger)
  }

  /** The reply the first evaluation examines: the last reply after the
      trigger, falling back to the last reply anywhere. */
  function Candidate(items: seq<Item>): (r: Option<nat>)
    ensures r.Some? ==> r.value < |items| && IsReply(items[r.value])
  {
    match LastReplyAfter(items, FindTrigger(items))
    case Some(i) => Some(i)
    case None => LastReplyAfter(items, -1)
  }

  /** The trigger never changes the candidate: whatever the trigger index,
      the candidate is the last reply of the whole transcript. */
  lemma CandidateIgnoresTrigger(items: seq<Item>)
    ensures Candidate(items) == LastReplyAfter(items, -1)
  {
    LastIndexIgnoresBound(ReplyFlags(items), FindTrigger(items));
  }

  /** `includes("generate a comprehensive answer")` already implies
      `includes("comprehensive answer")`, so the first probe never decides. */
  lemma LongPhraseImpliesShort(s: string)
    requires Contains(s, LONG_TRIGGER_PHRASE)
    ensures Contains(s, TRIGGER_PHRASE)
  {
    var i :| 0 <= i <= |s| - |LONG_TRIGGER_PHRASE| && OccursAt(s, LONG_TRIGGER_PHRASE, i);
    var k := |"generate a "|;
    assert LONG_TRIGGER_PHRASE[k..] == TRIGGER_PHRASE;
    assert s[i + k..i + |LONG_TRIGGER_PHRASE|] == s[i..i + |LONG_TRIGGER_PHRASE|][k..];
    assert OccursAt(s, TRIGGER_PHRASE, i + k);
  }

  /** A user message whose trimmed text mentions the phrase is a trigger. */
  lemma MentionIsTrigger(s: string)
    requires Contains(Lower(Trim(s)), TRIGGER_PHRASE)
    ensures IsTrigger(Entry(User, Str(s)))
  {
  }

  /** The panel's own request message mentions the phrase, so it is
      recognised as the trigger (by `MentionIsTrigger`). */
  lemma GeneratePromptMentionsPhrase()
    ensures GENERATE_PROMPT != "" && IsTrimmed(GENERATE_PROMPT)
    ensures Contains(Lower(GENERATE_PROMPT), TRIGGER_PHRASE)
  {
    var p := GENERATE_PROMPT;
    assert p[0] == PROMPT_HEAD[0] == 'G';
    assert p[|p| - 1] == PROMPT_TAIL[|PROMPT_TAIL| - 1] == '.';
    var low := Lower(p);
    assert low[11..31] == TRIGGER_PHRASE by {
      forall k | 0 <= k < 20 ensures low[11 + k] == TRIGGER_PHRASE[k] {
        assert p[11 + k] == TRIGGER_PHRASE[k];
      }
    }
    assert OccursAt(low, TRIGGER_PHRASE, 11);
  }

  /** The message the panel sends is recognised as the trigger. */
  lemma GeneratePromptIsTrigger()
    ensures IsTrigger(Entry(User, Str(GENERATE_PROMPT)))
  {
    GeneratePromptMentionsPhrase();
    TrimOfTrimmed(GENERATE_PROMPT);
    MentionIsTrigger(GENERATE_PROMPT);
  }

  // ---------------------------------------------------------------------
  // Classifying a reply

  /** Outcome of examining one reply's text. */
  datatype Verdict = Found(answer: string) | NotAnAnswer | Inconclusive

  predicate HasAnswerPrefix(t: string) {
    StartsWith(Lower(t), ANSWER_PREFIX)
  }

  /** Examines the extracted text of a reply: a non-empty answer after the
      case-insensitive "answer:" prefix, a reply without the prefix, or
      nothing usable (no text, or an empty answer after the prefix). */
  function Classify(text: string): (v: Verdict)
    ensures v.Found? ==> v.answer != "" && IsTrimmed(v.answer)
    ensures v.Found? ==> HasAnswerPrefix(Trim(text)) && v.answer == Trim(Trim(text)[|ANSWER_PREFIX|..])
    ensures v.NotAnAnswer? <==> text != "" && !HasAnswerPrefix(Trim(text))
    ensures v.Inconclusive? <==>
              || text == ""
              || (HasAnswerPrefix(Trim(text)) && Trim(Trim(text)[|ANSWER_PREFIX|..]) == "")
  {
    if text == "" then Inconclusive
    else
      var t := Trim(text);
      if HasAnswerPrefix(t) then
        var a := Trim(t[|ANSWER_PREFIX|..]);
        if a != "" then Found(a) else Inconclusive
      else NotAnAnswer
  }

  lemma LowerPrefix(p: string, y: string)
    ensures Lower(p + y)[..|p|] == Lower(p)
  {
  }

  /** A reply reading "<prefix><x>", with any capitalisation of "answer:",
      yields exactly the trimmed `x` as the answer. */
  lemma ClassifyPrefixedReply(p: string, x: string)
    requires |p| == 7 && Lower(p) == ANSWER_PREFIX
    requires Trim(x) != ""
    ensures Classify(Trim(p + x)) == Found(Trim(x))
  {
    assert LowerChar(p[0]) == 'a';
    TrimAfterPrefix(p, x);
    TrimEndThenTrim(x);
    var t := p + TrimEnd(x);
    TrimOfTrimmed(t);
    LowerPrefix(p, TrimEnd(x));
    assert HasAnswerPrefix(t);
    assert t[7..] == TrimEnd(x);
  }

  /** A trimmed, non-empty text without the prefix is a definitive
      "no answer". */
  lemma ClassifyUnprefixedReply(t: string)
    requires t != "" && IsTrimmed(t) && !HasAnswerPrefix(t)
    ensures Classify(t) == NotAnAnswer
  {
    TrimOfTrimmed(t);
  }

  // ---------------------------------------------------------------------
  // The two evaluations

  datatype StopReason = NoAnswerInReply | NothingFound | ExtractionFailed

  /** What one evaluation does: set the answer, stop waiting, schedule the
      retry after `delay` milliseconds, or throw out of the timer callback. */
  datatype Attempt =
    | Resolved(answer: string)
    | Concluded(reason: StopReason)
    | Reschedule(delay: nat)
    | Raised

  /** The 800 ms evaluation. */
  function FirstAttempt(snap: Snapshot): (a: Attempt)
    ensures !a.Raised?
    ensures a.Reschedule? ==> a.delay == (if snap.NoItemsKey? then RETRY_DELAY_WITHOUT_ITEMS else RETRY_DELAY_WITH_ITEMS)
    ensures snap.NoItemsKey? ==> a == Reschedule(RETRY_DELAY_WITHOUT_ITEMS)
    ensures snap.WithItems? && (snap.items.None? || |snap.items.value| == 0) ==> a == Reschedule(RETRY_DELAY_WITH_ITEMS)
    ensures a.Resolved? ==> a.answer != "" && IsTrimmed(a.answer)
    ensures a.Concluded? ==> a.reason != NothingFound
    ensures a == Concluded(ExtractionFailed) <==> snap.Unreadable?
  {
    match snap
    case Unreadable => Concluded(ExtractionFailed)
    case NoItemsKey => Reschedule(RETRY_DELAY_WITHOUT_ITEMS)
    case WithItems(items) =>
      if items.None? || |items.value| == 0 then Reschedule(RETRY_DELAY_WITH_ITEMS)
      else
        match Candidate(items.value)
        case None => Reschedule(RETRY_DELAY_WITH_ITEMS)
        case Some(i) =>
          match Classify(ExtractText(items.value[i].content))
          case Found(x) => Resolved(x)
          case NotAnAnswer => Concluded(NoAnswerInReply)
          case Inconclusive => Reschedule(RETRY_DELAY_WITH_ITEMS)
  }

  /** How the retry pass reads one item: only replies are examined. */
  function ReplyVerdict(it: Item): Verdict {
    if IsReply(it) then Classify(ExtractText(it.content)) else Inconclusive
  }

  /** One verdict per item, as the retry pass reads it. */
  function Verdicts(items: seq<Item>): (vs: seq<Verdict>)
    ensures |vs| == |items|
    ensures forall i :: 0 <= i < |items| ==> vs[i] == ReplyVerdict(items[i])
  {
    seq(|items|, i requires 0 <= i < |items| => ReplyVerdict(items[i]))
  }

  /** One flag per verdict: does it end the retry pass? */
  function DecisiveFlags(vs: seq<Verdict>): (fs: seq<bool>)
    ensures |fs| == |vs|
    ensures forall i :: 0 <= i < |vs| ==> fs[i] == !vs[i].Inconclusive?
  {
    seq(|vs|, i requires 0 <= i < |vs| => !vs[i].Inconclusive?)
  }

  /** The second evaluation, run only while the latch is set. It has no
      exception handler, and it never schedules anything. */
  function RetryAttempt(snap: Snapshot): (a: Attempt)
    ensures !a.Reschedule?
    ensures a.Raised? <==> snap.Unreadable?
    ensures a.Resolved? ==> a.answer != "" && IsTrimmed(a.answer)
    ensures snap.NoItemsKey? ==> a == Concluded(NothingFound)
    ensures snap.WithItems? && (snap.items.None? || |snap.items.value| == 0) ==> a == Concluded(NothingFound)
  {
    match snap
    case Unreadable => Raised
    case NoItemsKey => Concluded(NothingFound)
    case WithItems(items) =>
      if items.None? || |items.value| == 0 then Concluded(NothingFound)
      else
        var vs := Verdicts(items.value);
        match LastIndexAfter(DecisiveFlags(vs), -1)
        case None => Concluded(NothingFound)
        case Some(i) =>
          match vs[i]
          case Found(x) => Resolved(x)
          case _ => Concluded(NoAnswerInReply)
  }

  // ---------------------------------------------------------------------
  // Properties of the evaluations

  /** The first evaluation waits for the retry exactly when the transcript
      has no reply, or its last reply carries no text or an empty answer;
      otherwise that last reply decides it. */
  lemma FirstAttemptWaitsOnlyWhenInconclusive(items: seq<Item>)
    requires |items| > 0
    ensures var a := FirstAttempt(WithItems(Some(items)));
            var last := LastReplyAfter(items, -1);
            && (a.Reschedule? <==> last.None? || ReplyVerdict(items[last.value]).Inconclusive?)
            && (a.Resolved? <==> last.Some? && ReplyVerdict(items[last.value]).Found?)
            && (a.Resolved? ==> a.answer == ReplyVerdict(items[last.value]).answer)
  {
    CandidateIgnoresTrigger(items);
  }

  /** A transcript ending in a reply "<prefix><x>" resolves at the first
      evaluation to the trimmed `x`. */
  lemma AnswerReplyResolves(items: seq<Item>, p: string, x: string)
    requires |p| == 7 && Lower(p) == ANSWER_PREFIX
    requires Trim(x) != ""
    ensures FirstAttempt(WithItems(Some(items + [Entry(Assistant, Str(p + x))]))) == Resolved(Trim(x))
  {
    var all := items + [Entry(Assistant, Str(p + x))];
    assert IsReply(all[|all| - 1]);
    CandidateIgnoresTrigger(all);
    ClassifyPrefixedReply(p, x);
  }

  /** When the last reply has text without the prefix, the first evaluation
      stops for good and schedules nothing. */
  lemma UnprefixedReplyStops(items: seq<Item>, it: Item)
    requires IsReply(it)
    requires ExtractText(it.content) != "" && !HasAnswerPrefix(ExtractText(it.content))
    ensures FirstAttempt(WithItems(Some(items + [it]))) == Concluded(NoAnswerInReply)
  {
    var all := items + [it];
    assert all[|all| - 1] == it;
    CandidateIgnoresTrigger(all);
    ClassifyUnprefixedReply(ExtractText(it.content));
  }

  /** With no reply at all, the first evaluation asks for the retry and the
      retry gives up. */
  lemma NoReplyRunsOut(items: seq<Item>)
    requires |items| > 0
    requires forall i :: 0 <= i < |items| ==> !IsReply(items[i])
    ensures FirstAttempt(WithItems(Some(items))) == Reschedule(RETRY_DELAY_WITH_ITEMS)
    ensures RetryAttempt(WithItems(Some(items))) == Concluded(NothingFound)
  {
    CandidateIgnoresTrigger(items);
    var fs := DecisiveFlags(Verdicts(items));
    assert forall i :: 0 <= i < |fs| ==> !fs[i];
  }

  /** The retry pass is decided by the last reply with a decisive verdict,
      looking past every reply with no usable text or an empty answer. */
  lemma RetryDecidedByLastDecisive(items: seq<Item>, i: nat)
    requires i < |items| && !ReplyVerdict(items[i]).Inconclusive?
    requires forall j :: i < j < |items| ==> ReplyVerdict(items[j]).Inconclusive?
    ensures RetryAttempt(WithItems(Some(items)))
            == (if ReplyVerdict(items[i]).Found? then Resolved(ReplyVerdict(items[i]).answer)
                else Concluded(NoAnswerInReply))
  {
    var vs := Verdicts(items);
    var fs := DecisiveFlags(vs);
    assert fs[i];
    assert forall j :: i < j < |fs| ==> !fs[j];
    var d := LastIndexAfter(fs, -1);
    assert d.Some?;
    assert !(d.value < i);
    assert !(d.value > i);
  }

  /** Without any decisive reply the retry pass gives up. */
  lemma RetryRunsOutWithoutDecisive(items: seq<Item>)
    requires forall j :: 0 <= j < |items| ==> ReplyVerdict(items[j]).Inconclusive?
    ensures RetryAttempt(WithItems(Some(items))) == Concluded(NothingFound)
  {
    var fs := DecisiveFlags(Verdicts(items));
    assert forall j :: 0 <= j < |fs| ==> !fs[j];
  }

  /** When the last reply is decisive, the retry pass reaches the same
      outcome as the first evaluation. */
  lemma RetryAgreesOnDecisiveReply(items: seq<Item>)
    requires |items| > 0
    requires Candidate(items).Some?
    requires !ReplyVerdict(items[Candidate(items).value]).Inconclusive?
    ensures RetryAttempt(WithItems(Some(items))) == FirstAttempt(WithItems(Some(items)))
  {
    CandidateIgnoresTrigger(items);
    var c := Candidate(items).value;
    var fs := DecisiveFlags(Verdicts(items));
    assert fs[c];
    assert forall i :: c < i < |items| ==> !IsReply(items[i]) && !fs[i];
    var d := LastIndexAfter(fs, -1);
    assert d.Some?;
    assert !(d.value < c);
    assert !(d.value > c);
  }

  /** The retry pass looks past a trailing reply that holds no answer, where
      the first evaluation would wait: the two differ on such transcripts. */
  lemma RetryLooksPastEmptyReply(items: seq<Item>, it: Item)
    requires |items| > 0
    requires IsReply(it) && ReplyVerdict(it).Inconclusive?
    ensures FirstAttempt(WithItems(Some(items + [it]))) == Reschedule(RETRY_DELAY_WITH_ITEMS)
    ensures RetryAttempt(WithItems(Some(items + [it]))) == RetryAttempt(WithItems(Some(items)))
  {
    var all := items + [it];
    assert all[|all| - 1] == it;
    CandidateIgnoresTrigger(all);
    var fs := DecisiveFlags(Verdicts(all));
    var gs := DecisiveFlags(Verdicts(items));
    assert fs[..|items|] == gs;
    assert !fs[|items|];
  }
}
