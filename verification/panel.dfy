/** The chat panel controller (components/ChatKitPanel.tsx) as a state
    machine. Every callback, timer and asynchronous continuation of the
    component is an event; the state is its React state and refs; and the
    overlay, widget visibility and answer controls are functions of the
    state. */
module PanelController {
  import opened Values
  import opened ErrorSlots
  import opened Session
  import opened ClientTools
  import opened AnswerCapture
  import Overlay

  const SCRIPT_TIMEOUT_MESSAGE := "ChatKit web component is unavailable. Verify that the script URL is reachable."
  const UNKNOWN_SCRIPT_ERROR := "unknown error"
  const LOADING_MESSAGE := "Loading assistant session..."
  const SEND_FAILURE_ANSWER := "Sorry, there was an error generating the answer."

  datatype ScriptStatus = Pending | Ready | Failed

  /** A scheduled evaluation of the transcript: the 800 ms one, or the
      retry. */
  datatype Stage = FirstStage | RetryStage
  datatype Check = Check(stage: Stage, delay: nat)

  datatype Panel = Panel(
    workflowId: string,
    errors: Errors,
    initializing: bool,        // isInitializingSession
    script: ScriptStatus,
    widgetKey: nat,
    processed: set<string>,    // ids of facts already forwarded in this thread
    answer: Option<string>,    // generatedAnswer
    generating: bool,          // isGenerating
    saving: bool,              // isSaving
    pending: bool,             // pendingAnswerRef: the latch
    checks: seq<Check>)        // evaluations scheduled and not yet run

  /** The state on mount; `registered` says whether the web component is
      already defined. The loading overlay is up, nothing is scheduled and
      no answer is pending. */
  function Init(workflowId: string, registered: bool): (p: Panel)
    ensures OverlayView(p) == Overlay.Card(LOADING_MESSAGE, true, None)
    ensures !WidgetVisible(p) && WellScheduled(p.checks)
    ensures p.answer.None? && !p.generating && !p.pending && p.checks == []
    ensures p.script == (if registered then Ready else Pending)
  {
    Panel(workflowId, InitialErrors, true, if registered then Ready else Pending,
          0, {}, None, false, false, false, [])
  }

  datatype Event =
    | ScriptLoaded                                      // load event, or the element found registered
    | ScriptErrored(detail: Option<string>)             // error event with its detail
    | ScriptTimedOut(registered: bool)                  // the 5000 ms timer
    | ConfigChecked                                     // the workflow-configuration effect
    | Restarted(registered: bool)                       // handleResetChat
    | CredentialRequested(current: Option<string>)      // getClientSecret, up to the request
    | CredentialSettled(current: Option<string>, reply: Reply)  // getClientSecret, after it
    | ResponseBegan
    | ResponseEnded
    | CheckFired(index: nat, snapshot: Snapshot)        // scheduled evaluation `index` runs
    | GenerateClicked(canSend: bool)                    // `canSend`: sendUserMessage exists
    | SendFailed                                        // sendUserMessage rejected
    | CloseClicked
    | SaveStarted
    | SaveSucceeded
    | SaveFailed
    | ThreadChanged
    | ToolInvoked(name: string, params: map<string, Param>)

  /** `handleError`: the script failed with `detail`. */
  function ScriptError(p: Panel, detail: Option<string>): Panel {
    p.(script := Failed,
       errors := Merge(p.errors, ScriptFailed("Error: " + detail.GetOr(UNKNOWN_SCRIPT_ERROR))),
       initializing := false)
  }

  /** What an evaluation's outcome does to the answer state. */
  function Apply(p: Panel, a: Attempt): Panel {
    match a
    case Resolved(x) => p.(answer := Some(x), generating := false, pending := false)
    case Concluded(_) => p.(generating := false, pending := false)
    case Reschedule(d) => p.(checks := p.checks + [Check(RetryStage, d)])
    case Raised => p
  }

  /** The checks with the `i`-th removed. */
  function Without(cs: seq<Check>, i: nat): seq<Check>
    requires i < |cs|
  {
    cs[..i] + cs[i + 1..]
  }

  /** Only the three delays the code uses, each with its stage. */
  predicate WellScheduled(cs: seq<Check>) {
    forall i :: 0 <= i < |cs| ==>
      || cs[i] == Check(FirstStage, FIRST_DELAY)
      || cs[i] == Check(RetryStage, RETRY_DELAY_WITH_ITEMS)
      || cs[i] == Check(RetryStage, RETRY_DELAY_WITHOUT_ITEMS)
  }

  /** Scheduled check `i` runs against the transcript `snap`: the 800 ms
      check always evaluates, a retry only while the latch is set. */
  function Fire(p: Panel, i: nat, snap: Snapshot): (q: Panel)
    requires i < |p.checks|
    ensures WellScheduled(p.checks) ==> WellScheduled(q.checks)
  {
    var c := p.checks[i];
    var q := p.(checks := Without(p.checks, i));
    assert WellScheduled(p.checks) ==> WellScheduled(q.checks) by {
      if WellScheduled(p.checks) {
        forall j | 0 <= j < |q.checks|
          ensures q.checks[j] == p.checks[if j < i then j else j + 1]
        {
        }
      }
    }
    if c.stage == FirstStage then Apply(q, FirstAttempt(snap))
    else if q.pending then Apply(q, RetryAttempt(snap))
    else q
  }

  function Step(p: Panel, e: Event): (q: Panel)
    ensures q.workflowId == p.workflowId
    ensures !p.errors.retryable ==> !q.errors.retryable
    ensures q.widgetKey == (if e.Restarted? then p.widgetKey + 1 else p.widgetKey)
    ensures WellScheduled(p.checks) ==> WellScheduled(q.checks)
  {
    match e
    case ScriptLoaded =>
      p.(script := Ready, errors := Merge(p.errors, ScriptCleared))
    case ScriptErrored(detail) =>
      ScriptError(p, detail)
    case ScriptTimedOut(registered) =>
      if p.script == Pending && !registered then ScriptError(p, Some(SCRIPT_TIMEOUT_MESSAGE)) else p
    case ConfigChecked =>
      if IsWorkflowConfigured(p.workflowId) then p
      else p.(errors := Merge(p.errors, SessionFailed(MISSING_WORKFLOW_MESSAGE)), initializing := false)
    case Restarted(registered) =>
      p.(processed := {}, script := if registered then Ready else Pending, initializing := true,
         errors := InitialErrors, widgetKey := p.widgetKey + 1)
    case CredentialRequested(current) =>
      var b := BeginCredential(p.workflowId, current, Flags(p.errors, p.initializing));
      p.(errors := b.flags.errors, initializing := b.flags.initializing)
    case CredentialSettled(current, reply) =>
      var f := SettleCredential(current, reply, Flags(p.errors, p.initializing)).0;
      p.(errors := f.errors, initializing := f.initializing)
    case ResponseBegan =>
      p.(errors := Merge(p.errors, ResponseStarted))
    case ResponseEnded =>
      if p.pending then p.(checks := p.checks + [Check(FirstStage, FIRST_DELAY)]) else p
    case CheckFired(i, snap) =>
      if i < |p.checks| then Fire(p, i, snap) else p
    case GenerateClicked(canSend) =>
      if canSend then p.(generating := true, answer := None, pending := true) else p
    case SendFailed =>
      p.(generating := false, answer := Some(SEND_FAILURE_ANSWER), pending := false)
    case CloseClicked =>
      p.(answer := None, pending := false)
    case SaveStarted =>
      p.(saving := true)
    case SaveSucceeded =>
      p.(answer := None, pending := false, saving := false)
    case SaveFailed =>
      p.(saving := false)
    case ThreadChanged =>
      p.(processed := {})
    case ToolInvoked(name, params) =>
      p.(processed := Dispatch(name, params, p.processed).processed)
  }

  function Run(p: Panel, es: seq<Event>): Panel
    decreases |es|
  {
    if |es| == 0 then p else Run(Step(p, es[0]), es[1..])
  }

  // ---------------------------------------------------------------------
  // What is drawn

  /** `blockingError || isInitializingSession` hides the widget. */
  predicate WidgetVisible(p: Panel)
    ensures WidgetVisible(p) ==> OverlayView(p) == Overlay.Hidden
  {
    !Filled(Blocking(p.errors)) && !p.initializing
  }

  /** The overlay as the panel configures it. */
  function OverlayView(p: Panel): (v: Overlay.View)
    ensures v.Card? && !v.loading ==> Blocking(p.errors) == Some(v.content) && v.content != ""
    ensures v.Card? && v.loading ==> v.content == LOADING_MESSAGE && p.initializing && Blocking(p.errors).None?
    ensures v.Card? && v.retryLabel.Some? ==> p.errors.retryable && v.retryLabel == Some(Overlay.DEFAULT_RETRY_LABEL)
  {
    var blocking := Blocking(p.errors);
    Overlay.Select(
      blocking,
      if Filled(blocking) || !p.initializing then None else Some(LOADING_MESSAGE),
      Filled(blocking) && p.errors.retryable,
      Some(Overlay.DEFAULT_RETRY_LABEL))
  }

  /** The answer controls below the widget. */
  datatype Controls = NoControls | GenerateButton(disabled: bool) | SaveAndCancel(saveDisabled: bool)

  /** `showButton` is the `show_generate_answer_button=true` query flag and
      `hasControl` whether the widget's control object is available. */
  function AnswerControls(p: Panel, showButton: bool, hasControl: bool): (c: Controls)
    ensures !c.NoControls? ==> showButton && hasControl && WidgetVisible(p)
    ensures c.SaveAndCancel? <==> showButton && AnswerShown(p, hasControl)
    ensures c.SaveAndCancel? ==> (c.saveDisabled <==> p.saving)
    ensures c.GenerateButton? ==> p.answer.None? || p.answer == Some("")
    ensures c.GenerateButton? ==> (c.disabled <==> p.generating)
    ensures showButton && hasControl && WidgetVisible(p) ==> !c.NoControls?
    ensures showButton && hasControl && WidgetVisible(p) && !Filled(p.answer) ==> c.GenerateButton?
  {
    if !(showButton && hasControl && WidgetVisible(p)) then NoControls
    else if Filled(p.answer) then SaveAndCancel(p.saving)
    else GenerateButton(p.generating)
  }

  /** The answer box is drawn under the same conditions as the controls,
      bar the query flag. */
  predicate AnswerShown(p: Panel, hasControl: bool)
    ensures AnswerShown(p, hasControl) ==> OverlayView(p) == Overlay.Hidden && p.answer.Some? && p.answer.value != ""
  {
    Filled(p.answer) && hasControl && WidgetVisible(p)
  }

  // ---------------------------------------------------------------------
  // Properties: error slots and the overlay

  /** From mount, whatever happens, no error is ever marked retryable, so
      the overlay never offers the restart button. */
  lemma {:induction false} RetryNeverEnabled(p: Panel, es: seq<Event>)
    requires !p.errors.retryable
    ensures !Run(p, es).errors.retryable
    ensures !RestartOffered(Run(p, es).errors)
    decreases |es|
  {
    if |es| > 0 {
      RetryNeverEnabled(Step(p, es[0]), es[1..]);
    }
  }

  lemma NoRestartButton(workflowId: string, registered: bool, es: seq<Event>)
    ensures var v := OverlayView(Run(Init(workflowId, registered), es));
            v.Card? ==> v.retryLabel.None?
  {
    RetryNeverEnabled(Init(workflowId, registered), es);
  }

  /** The loading card is shown exactly when no slot holds an error and the
      session is initializing; an empty-string error while initializing
      shows nothing at all. */
  lemma LoadingOverlayIff(p: Panel)
    ensures OverlayView(p) == Overlay.Card(LOADING_MESSAGE, true, None)
            <==> Blocking(p.errors).None? && p.initializing
    ensures Blocking(p.errors) == Some("") ==> OverlayView(p) == Overlay.Hidden
  {
  }

  /** A non-empty blocking error is shown as an error card, the script slot
      first; nothing is shown once the session is up and no slot is set. */
  lemma ErrorOverlayShown(p: Panel)
    ensures Filled(Blocking(p.errors)) ==> OverlayView(p).Card? && OverlayView(p).content == Blocking(p.errors).value
                                           && !OverlayView(p).loading
    ensures Filled(p.errors.script) ==> OverlayView(p).content == p.errors.script.value
    ensures Blocking(p.errors).None? && !p.initializing ==> OverlayView(p) == Overlay.Hidden
  {
  }

  /** The answer box and the save/cancel pair go together; the generate
      button is disabled while generating. */
  lemma ControlsMatchAnswer(p: Panel, hasControl: bool)
    ensures AnswerControls(p, true, hasControl).SaveAndCancel? <==> AnswerShown(p, hasControl)
    ensures AnswerControls(p, true, hasControl).GenerateButton? ==> AnswerControls(p, true, hasControl).disabled == p.generating
    ensures !WidgetVisible(p) ==> AnswerControls(p, true, hasControl) == NoControls && !AnswerShown(p, hasControl)
  {
  }

  // ---------------------------------------------------------------------
  // Properties: the script

  /** The timeout only acts on a pending script whose element is still not
      registered. */
  lemma ScriptTimeoutOnlyWhilePending(p: Panel, registered: bool)
    ensures p.script != Pending || registered ==> Step(p, ScriptTimedOut(registered)) == p
    ensures p.script == Pending && !registered ==>
              var q := Step(p, ScriptTimedOut(registered));
              && q.script == Failed && !q.initializing
              && q.errors.script == Some("Error: " + SCRIPT_TIMEOUT_MESSAGE)
              && OverlayView(q).Card? && OverlayView(q).content == "Error: " + SCRIPT_TIMEOUT_MESSAGE
  {
  }

  /** The load and error signals apply in any status: a load after a
      failure clears the script slot again. */
  lemma ScriptSignalsAlwaysApply(p: Panel, detail: Option<string>)
    ensures Step(Step(p, ScriptErrored(detail)), ScriptLoaded).script == Ready
    ensures Step(Step(p, ScriptErrored(detail)), ScriptLoaded).errors.script.None?
    ensures Step(p, ScriptErrored(None)).errors.script == Some("Error: " + UNKNOWN_SCRIPT_ERROR)
  {
  }

  /** Restarting clears the slots and processed facts, shows the loading
      state and remounts the widget; the answer state is left alone. */
  lemma RestartResets(p: Panel, registered: bool)
    ensures var q := Step(p, Restarted(registered));
            && q.errors == InitialErrors && q.initializing && q.processed == {}
            && q.widgetKey == p.widgetKey + 1
            && q.script == (if registered then Ready else Pending)
            && q.answer == p.answer && q.generating == p.generating && q.pending == p.pending
            && OverlayView(q) == Overlay.Card(LOADING_MESSAGE, true, None)
  {
  }

  /** Without a configured workflow the configuration check shows the
      setup message and ends the loading state. */
  lemma UnconfiguredShowsSetupMessage(p: Panel)
    requires !IsWorkflowConfigured(p.workflowId)
    requires p.errors.script.None?
    ensures var q := Step(p, ConfigChecked);
            Blocking(q.errors) == Some(MISSING_WORKFLOW_MESSAGE) && !q.initializing
  {
  }

  // ---------------------------------------------------------------------
  // Properties: answer generation

  /** The pipeline starts only when the latch is set at the end of the
      response, with one 800 ms check. */
  lemma ResponseEndSchedulesOnlyWhenPending(p: Panel)
    ensures Step(p, ResponseEnded).checks
            == (if p.pending then p.checks + [Check(FirstStage, FIRST_DELAY)] else p.checks)
    ensures Step(p, ResponseEnded).answer == p.answer && Step(p, ResponseEnded).pending == p.pending
  {
  }

  /** A retry that fires after the latch was cleared only drops itself. */
  lemma RetryCheckGuardedByLatch(p: Panel, i: nat, snap: Snapshot)
    requires i < |p.checks| && p.checks[i].stage == RetryStage && !p.pending
    ensures Step(p, CheckFired(i, snap)) == p.(checks := Without(p.checks, i))
  {
  }

  /** After a cancel every pending retry is silent. */
  lemma CancelSilencesRetries(p: Panel, i: nat, snap: Snapshot)
    requires i < |p.checks| && p.checks[i].stage == RetryStage
    ensures var q := Step(p, CloseClicked);
            Step(q, CheckFired(i, snap)) == q.(checks := Without(q.checks, i))
  {
  }

  /** The 800 ms check does not look at the latch: a cancel between the end
      of the response and the check is overridden when the check finds an
      answer. */
  lemma FirstCheckIgnoresLatch(p: Panel, i: nat, snap: Snapshot, x: string)
    requires i < |p.checks| && p.checks[i].stage == FirstStage
    requires FirstAttempt(snap) == Resolved(x)
    ensures var q := Step(Step(p, CloseClicked), CheckFired(i, snap));
            q.answer == Some(x) && !q.pending && !q.generating
  {
  }

  /** A throwing read in the retry has no handler: the state is unchanged,
      latch and generating flag included. */
  lemma RetryThrowKeepsLatch(p: Panel, i: nat)
    requires i < |p.checks| && p.checks[i].stage == RetryStage && p.pending
    ensures Step(p, CheckFired(i, Unreadable)) == p.(checks := Without(p.checks, i))
  {
  }

  /** Every evaluation that does not reschedule leaves latch and generating
      flag cleared; a found answer becomes the answer, and a definitive stop
      or an exhausted retry leaves the answer as it was. */
  lemma SettledCheckClearsLatch(p: Panel, i: nat, snap: Snapshot)
    requires i < |p.checks|
    requires p.checks[i].stage == FirstStage || p.pending
    requires var a := if p.checks[i].stage == FirstStage then FirstAttempt(snap) else RetryAttempt(snap);
             a.Resolved? || a.Concluded?
    ensures var q := Step(p, CheckFired(i, snap));
            var a := if p.checks[i].stage == FirstStage then FirstAttempt(snap) else RetryAttempt(snap);
            && !q.pending && !q.generating
            && q.answer == (if a.Resolved? then Some(a.answer) else p.answer)
            && |q.checks| == |p.checks| - 1
  {
  }

  /** Generating sets the latch and clears the answer; a failed send puts
      an apology in the answer box. */
  lemma GenerateAndSendFailure(p: Panel)
    ensures var q := Step(p, GenerateClicked(true));
            q.pending && q.generating && q.answer.None?
    ensures Step(p, GenerateClicked(false)) == p
    ensures var q := Step(Step(p, GenerateClicked(true)), SendFailed);
            !q.pending && !q.generating && q.answer == Some(SEND_FAILURE_ANSWER)
  {
  }

  /** Cancel clears the answer and latch but leaves `generating` as it
      was. */
  lemma CloseKeepsGenerating(p: Panel)
    ensures var q := Step(p, CloseClicked);
            q.answer.None? && !q.pending && q.generating == p.generating
  {
  }

  /** A successful save clears the answer and latch and ends saving; a
      failed save only ends saving. */
  lemma SaveOutcomes(p: Panel)
    ensures var q := Step(Step(p, SaveStarted), SaveSucceeded);
            q.answer.None? && !q.pending && !q.saving && q.generating == p.generating
    ensures Step(p, SaveStarted).saving
    ensures var q := Step(Step(p, SaveStarted), SaveFailed);
            q == p.(saving := false)
  {
  }

  /** A cancel while generating leaves the generate button disabled until an
      evaluation concludes. */
  lemma CancelWhileGeneratingKeepsButtonDisabled(p: Panel)
    requires p.generating && WidgetVisible(p)
    ensures AnswerControls(Step(p, CloseClicked), true, true) == GenerateButton(true)
  {
  }

  // ---------------------------------------------------------------------
  // Properties: bounded evaluations

  /** Each scheduled 800 ms check can still cause two evaluations (itself
      and its retry), each retry one. */
  function Weight(c: Check): nat {
    if c.stage == FirstStage then 2 else 1
  }

  function Budget(cs: seq<Check>): nat
    decreases |cs|
  {
    if |cs| == 0 then 0 else Weight(cs[0]) + Budget(cs[1..])
  }

  lemma {:induction false} BudgetAppend(a: seq<Check>, b: seq<Check>)
    ensures Budget(a + b) == Budget(a) + Budget(b)
    decreases |a|
  {
    if |a| == 0 {
      assert a + b == b;
    } else {
      assert (a + b)[1..] == a[1..] + b;
      BudgetAppend(a[1..], b);
    }
  }

  lemma BudgetWithout(cs: seq<Check>, i: nat)
    requires i < |cs|
    ensures Budget(Without(cs, i)) + Weight(cs[i]) == Budget(cs)
  {
    var head, tail := cs[..i], cs[i..];
    assert cs == head + tail;
    BudgetAppend(head, tail);
    assert tail[1..] == cs[i + 1..];
    assert Budget(tail) == Weight(cs[i]) + Budget(cs[i + 1..]);
    BudgetAppend(head, cs[i + 1..]);
  }

  /** Does the event run a scheduled evaluation? */
  predicate Fires(p: Panel, e: Event) {
    e.CheckFired? && e.index < |p.checks|
  }

  /** One step never raises the budget, except that the end of a response
      may add two; running a check spends at least one. */
  lemma StepBudget(p: Panel, e: Event)
    ensures Budget(Step(p, e).checks) + (if Fires(p, e) then 1 else 0)
            <= Budget(p.checks) + (if e.ResponseEnded? then 2 else 0)
  {
    match e
    case ResponseEnded =>
      BudgetAppend(p.checks, [Check(FirstStage, FIRST_DELAY)]);
    case CheckFired(i, snap) =>
      if i < |p.checks| {
        FireBudget(p, i, snap);
      }
    case _ =>
  }

  /** Running a check spends its weight and adds at most one retry. */
  lemma FireBudget(p: Panel, i: nat, snap: Snapshot)
    requires i < |p.checks|
    ensures Budget(Fire(p, i, snap).checks) + 1 <= Budget(p.checks)
  {
    var q := p.(checks := Without(p.checks, i));
    BudgetWithout(p.checks, i);
    var a := if p.checks[i].stage == FirstStage then FirstAttempt(snap) else RetryAttempt(snap);
    if a.Reschedule? {
      BudgetAppend(q.checks, [Check(RetryStage, a.delay)]);
    }
  }

  /** Evaluations run over a sequence of events. */
  function Evaluations(p: Panel, es: seq<Event>): nat
    decreases |es|
  {
    if |es| == 0 then 0
    else (if Fires(p, es[0]) then 1 else 0) + Evaluations(Step(p, es[0]), es[1..])
  }

  function ResponseEnds(es: seq<Event>): nat
    decreases |es|
  {
    if |es| == 0 then 0 else (if es[0].ResponseEnded? then 1 else 0) + ResponseEnds(es[1..])
  }

  lemma {:induction false} EvaluationsWithinBudget(p: Panel, es: seq<Event>)
    ensures Evaluations(p, es) + Budget(Run(p, es).checks) <= Budget(p.checks) + 2 * ResponseEnds(es)
    decreases |es|
  {
    if |es| > 0 {
      StepBudget(p, es[0]);
      EvaluationsWithinBudget(Step(p, es[0]), es[1..]);
    }
  }

  /** From mount, at most two evaluations run per response end. */
  lemma AtMostTwoEvaluationsPerResponse(workflowId: string, registered: bool, es: seq<Event>)
    ensures Evaluations(Init(workflowId, registered), es) <= 2 * ResponseEnds(es)
  {
    EvaluationsWithinBudget(Init(workflowId, registered), es);
  }

  /** From mount, only the delays 800, 1500 and 2000 ms are ever scheduled. */
  lemma {:induction false} OnlyKnownDelays(p: Panel, es: seq<Event>)
    requires WellScheduled(p.checks)
    ensures WellScheduled(Run(p, es).checks)
    decreases |es|
  {
    if |es| > 0 {
      OnlyKnownDelays(Step(p, es[0]), es[1..]);
    }
  }
}
