# ChatKit panel controller — a Dafny model

This project models the decision logic of the chat panel in an OpenAI
ChatKit starter app (`components/ChatKitPanel.tsx`) and the render choice of
its error overlay (`components/ErrorOverlay.tsx`), and proves properties of
that model with Dafny 4.11.

The panel embeds the ChatKit web component. It:

- loads the component's script and watches for its load or failure;
- asks a session endpoint for a client secret;
- shows a blocking overlay while loading or on error;
- offers a "Generate Answer" button. The button sends a fixed prompt. When
  the response ends, the panel searches the transcript for a reply of the
  form `Answer: …` and shows that answer with Save and Cancel controls;
- answers two client tools for the assistant: `switch_theme` and
  `record_fact`.

Modules, one per file:

| module | file | models |
|---|---|---|
| `Values` | values.dfy | `Option`, `Result`, parsed JSON, JavaScript truthiness, property access |
| `Strings` | strings.dfy | `trim` and `\s` (ECMAScript white space), `toLowerCase`, `startsWith`, `includes`, `join`, `replace(/\s+/g, " ")` |
| `MessageContent` | message_content.dfy | `extractTextFromContent` |
| `Scans` | scans.dfy | `findIndex` and the backward `for` loop that breaks at the first hit |
| `AnswerCapture` | answer_capture.dfy | trigger, candidate, classification, the 800 ms and the retry evaluation |
| `ErrorSlots` | error_slots.dfy | `ErrorState`, `setErrorState`, `createInitialErrors`, the blocking error, the restart offer |
| `ErrorDetail` | error_detail.dfy | `extractErrorDetail` |
| `Session` | session.dfy | `getClientSecret`: configuration guard, request composition, state before and after the request |
| `ClientTools` | client_tools.dfy | `onClientTool` |
| `Overlay` | overlay.dfy | `ErrorOverlay`'s choice of what to draw |
| `PanelController` | panel.dfy | the panel as a state machine over explicit events, and what it draws |

Timers, window events, the widget's callbacks and the ends of asynchronous
requests are all **events** in `PanelController.Event`. The state is a plain
record of the component's React state and refs. Scheduled transcript
evaluations are a list of pending checks, and the event `CheckFired(i, s)`
runs check `i` against the transcript snapshot `s`. Reading the thread
becomes a `Snapshot` input, with these cases:

- the read threw;
- there is no `items` key;
- `items` is present.

A session response becomes a `Reply` input: a thrown error, or a status
flag, status text and parsed body.

### Behaviour of the code that the model keeps

These follow from the code as written; the model reproduces each one.

- The trigger message is the **first** user item that mentions
  "comprehensive answer", because `findIndex` is used
  (`components/ChatKitPanel.tsx` lines 411-420).
- The candidate reply is chosen by truthy content, not by non-empty text
  (lines 426-439). The trigger restriction never changes the candidate: it
  is always the last assistant item with truthy content.
  `AnswerCapture.CandidateIgnoresTrigger` proves this.
- Each response end makes at most **two** evaluations:
  - one at 800 ms (lines 385-591);
  - then at most one more: after 1500 ms when the thread has an `items`
    key (lines 499-542), and after 2000 ms when it does not (lines 545-587).

  The retries schedule nothing further
  (`PanelController.AtMostTwoEvaluationsPerResponse`).
- The latch (`pendingAnswerRef`) is tested when the response ends
  (line 383) and inside each retry (lines 500 and 546), but not inside the
  800 ms callback. A Cancel within those 800 ms is therefore overridden
  when an answer is found (`PanelController.FirstCheckIgnoresLatch`).
- The `try`/`catch` (lines 386 and 588-591) surrounds only the 800 ms
  callback, so a retry has no exception handler. If reading the thread
  throws there, the latch and `isGenerating` stay set
  (`PanelController.RetryThrowKeepsLatch`).
- The script load and error listeners are attached whatever the status
  (lines 133-137), so a load after a failure still clears the script error.
  Only the 5000 ms timeout depends on the pending status (lines 141-152).
  The effect re-runs on every status change (line 164) and calls
  `handleLoaded` at once when the element is registered (lines 139-140), so
  an error signal while the element is registered is undone straight away.
  The model admits that `ScriptLoaded` event after the error, but does not
  force it.
- Cancel (`handleCloseAnswer`, lines 692-695) does not reset
  `isGenerating`. A failed send stores "Sorry, there was an error
  generating the answer." as the answer (lines 684-687).
- Slots hold `string | null` and precedence uses `??` (lines 705-706), so
  an empty-string error blocks the slots after it. The overlay treats it as
  absent and draws nothing (`components/ErrorOverlay.tsx` lines 22-27;
  `Overlay.EmptyErrorHidesFallback`, `PanelController.LoadingOverlayIff`).

## Model

| member | source | states |
|---|---|---|
| Strings.Trim | components/ChatKitPanel.tsx:365 | `trim` yields a string with no white space at either end |
| Strings.TrimSurrounded | components/ChatKitPanel.tsx:365 | `trim`'s result sits inside its input with only white space around it |
| Strings.TrimUnique | components/ChatKitPanel.tsx:365 | any non-empty trimmed core surrounded only by white space is exactly what `trim` returns |
| Strings.TrimOfTrimmed | components/ChatKitPanel.tsx:468 | trimming an already trimmed string changes nothing, so the second `trim` of the extracted text is a no-op |
| Strings.TrimIdempotent | components/ChatKitPanel.tsx:468 | `trim(trim(s)) == trim(s)` |
| Strings.TrimEmptyIff | components/ChatKitPanel.tsx:466 | `trim(s)` is empty exactly when `s` is all white space |
| Strings.TrimStartShape | components/ChatKitPanel.tsx:365 | dropping leading white space removes a white-space prefix and stops at a non-space |
| Strings.TrimEndShape | components/ChatKitPanel.tsx:365 | dropping trailing white space removes a white-space suffix and stops at a non-space |
| Strings.TrimAfterPrefix | components/ChatKitPanel.tsx:468-471 | trimming text that begins with a non-space prefix only trims its tail |
| Strings.TrimEndThenTrim | components/ChatKitPanel.tsx:471 | trimming the tail first does not change the final trim |
| Strings.CollapseRuns | components/ChatKitPanel.tsx:642 | `replace(/\s+/g, " ")` leaves no two white-space characters in a row, only `' '` as white space, and the same non-space characters in order |
| Strings.CollapseRunsOfSpace | components/ChatKitPanel.tsx:642 | a non-empty run of white space becomes exactly one `' '` |
| Strings.CollapseRunsAppend | components/ChatKitPanel.tsx:642 | cut anywhere outside a run, the two pieces collapse independently: each run becomes one space between the same neighbours |
| Strings.TrimStartAppend | components/ChatKitPanel.tsx:642 | leading white space ends inside the first piece when that piece holds a non-space |
| Strings.CollapseWhitespace | components/ChatKitPanel.tsx:642 | the fact text sent to the host is trimmed, single-spaced, and keeps every non-space character in order |
| Strings.CollapseWhitespaceSeparatesWords | components/ChatKitPanel.tsx:642 | two words with any white space between them come out as the words joined by one space |
| Strings.CollapseRunsOfSingleSpaced | components/ChatKitPanel.tsx:642 | a single-spaced string is left alone by run collapsing |
| Strings.CollapseWhitespaceIdempotent | components/ChatKitPanel.tsx:642 | collapsing a collapsed fact text again changes nothing |
| MessageContent.ExtractText | components/ChatKitPanel.tsx:343-376 | extracted text is always trimmed, and falsy content gives "" |
| MessageContent.ExtractIsTrimFixpoint | components/ChatKitPanel.tsx:343-376 | `trim(extract(c)) == extract(c)` for all content |
| MessageContent.TextsOfAppend | components/ChatKitPanel.tsx:348-361 | the filter-then-map over parts distributes over concatenation |
| MessageContent.ExtractIgnoresNonTextPart | components/ChatKitPanel.tsx:349-354 | a part that is not a `type: "text"` object contributes nothing, wherever it sits |
| MessageContent.ExtractSingleTextPart | components/ChatKitPanel.tsx:355-360 | a text part reads as its non-empty `text`, else its string `content`, else "" |
| MessageContent.ExtractTwoTextParts | components/ChatKitPanel.tsx:362-363 | text parts are joined with a newline before the single trim |
| MessageContent.ExtractTextFieldWins | components/ChatKitPanel.tsx:368-369 | an object with a non-empty `text` ignores its nested `content` |
| MessageContent.ExtractDelegatesToInner | components/ChatKitPanel.tsx:370-371 | an object without a usable `text` reads as its nested `content` |
| MessageContent.ExtractSeesThroughWrapping | components/ChatKitPanel.tsx:366-372 | any depth of text-less wrapper objects gives the same text as the innermost content |
| Scans.FirstIndex | components/ChatKitPanel.tsx:411-420 | `findIndex` gives the first matching index, or -1 exactly when nothing matches |
| Scans.LastIndexAfter | components/ChatKitPanel.tsx:427-439 | the backward loop gives the greatest matching index past the bound, or nothing when no such index exists |
| Scans.LastIndexIgnoresBound | components/ChatKitPanel.tsx:426-453 | the bounded scan with the unbounded fallback always equals the unbounded scan |
| AnswerCapture.FindTrigger | components/ChatKitPanel.tsx:411-420 | the trigger index is the first user item mentioning the phrase, or -1 exactly when there is none |
| AnswerCapture.Candidate | components/ChatKitPanel.tsx:426-453 | the candidate, when there is one, is an assistant item with truthy content |
| AnswerCapture.CandidateIgnoresTrigger | components/ChatKitPanel.tsx:411-453 | whatever the trigger index, the candidate is the last assistant item with truthy content |
| AnswerCapture.LongPhraseImpliesShort | components/ChatKitPanel.tsx:416-417 | a text containing "generate a comprehensive answer" also contains "comprehensive answer" |
| AnswerCapture.MentionIsTrigger | components/ChatKitPanel.tsx:411-420 | a user message whose trimmed, lower-cased text contains "comprehensive answer" is a trigger |
| AnswerCapture.GeneratePromptMentionsPhrase | components/ChatKitPanel.tsx:677-679 | the panel's own prompt is trimmed and mentions the trigger phrase |
| AnswerCapture.GeneratePromptIsTrigger | components/ChatKitPanel.tsx:677-679 | the message the panel sends is itself recognised as the trigger |
| AnswerCapture.Classify | components/ChatKitPanel.tsx:466-489 | a found answer needs the prefix and is the trimmed, non-empty remainder; the verdict is "no answer" exactly for non-empty text without the prefix, and inconclusive exactly for empty text or an empty remainder after the prefix |
| AnswerCapture.ClassifyPrefixedReply | components/ChatKitPanel.tsx:468-474 | a reply `<any-case "answer:"><x>` yields exactly `trim(x)` when that is non-empty |
| AnswerCapture.ClassifyUnprefixedReply | components/ChatKitPanel.tsx:479-488 | non-empty trimmed text without the prefix is a definitive stop |
| AnswerCapture.FirstAttempt | components/ChatKitPanel.tsx:385-592 | the 800 ms evaluation never escapes its handler; without an `items` key it always retries after 2000 ms, and with a non-array or empty `items` always after 1500 ms; any retry is after 2000 ms exactly without an `items` key; a found answer is non-empty and trimmed; a throwing read is the only extraction failure |
| AnswerCapture.FirstAttemptWaitsOnlyWhenInconclusive | components/ChatKitPanel.tsx:426-498 | with items, the 800 ms evaluation retries exactly when there is no reply or the last reply is inconclusive, and resolves exactly when the last reply has an answer, to that answer |
| AnswerCapture.RetryAttempt | components/ChatKitPanel.tsx:499-542 | the retry never schedules anything; it throws exactly when the read throws; without an `items` key, or with a non-array or empty `items`, it gives up having found nothing; a found answer is non-empty and trimmed |
| AnswerCapture.AnswerReplyResolves | components/ChatKitPanel.tsx:459-477 | a transcript ending in an answer reply resolves at 800 ms to the trimmed remainder |
| AnswerCapture.UnprefixedReplyStops | components/ChatKitPanel.tsx:479-488 | a transcript ending in a non-empty reply without the prefix stops at 800 ms |
| AnswerCapture.NoReplyRunsOut | components/ChatKitPanel.tsx:494-541 | with no reply the 800 ms evaluation asks for the 1500 ms retry, and the retry gives up |
| AnswerCapture.RetryDecidedByLastDecisive | components/ChatKitPanel.tsx:508-533 | the last reply with a decisive verdict decides the retry: its prefixed answer resolves it, an unprefixed reply ends it without an answer, whatever replies with empty text or an empty answer follow |
| AnswerCapture.RetryRunsOutWithoutDecisive | components/ChatKitPanel.tsx:508-542 | when no reply is decisive, the retry ends having found nothing |
| AnswerCapture.RetryAgreesOnDecisiveReply | components/ChatKitPanel.tsx:508-533 | when the last reply is decisive, the retry reaches the same outcome as the 800 ms evaluation |
| AnswerCapture.RetryLooksPastEmptyReply | components/ChatKitPanel.tsx:508-533 | a trailing reply with no usable text makes the 800 ms evaluation wait, while the retry skips it |
| ErrorSlots.MergeNoChange | components/ChatKitPanel.tsx:97-99 | an update naming no field leaves the error state unchanged |
| ErrorSlots.Merge | components/ChatKitPanel.tsx:97-99 | a partial update sets each field it names and keeps every other field |
| ErrorSlots.MergeThen | components/ChatKitPanel.tsx:97-99 | two partial updates in turn equal their combination, the later winning on shared fields |
| ErrorSlots.MergeIdempotent | components/ChatKitPanel.tsx:97-99 | applying a partial update twice equals applying it once |
| ErrorSlots.Blocking | components/ChatKitPanel.tsx:705-706 | the script slot outranks the session slot, which outranks the integration slot, by `??` |
| ErrorSlots.BlockingIsASlot | components/ChatKitPanel.tsx:705-706 | the blocking error is one of the slots, and absent exactly when all three are `null` |
| ErrorSlots.PanelUpdateKeepsRetryOff | components/ChatKitPanel.tsx:129 | none of the panel's updates can turn `retryable` on |
| ErrorDetail.ExtractErrorDetail | components/ChatKitPanel.tsx:860-907 | the code's nested checks pick the first string among `error`, `error.message`, `details`, `details.error`, `details.error.message` and `message`, else the fallback |
| ErrorDetail.FirstString | components/ChatKitPanel.tsx:860-907 | the reference priority scan returns the fallback or a string found at one of the probed paths |
| ErrorDetail.NonObjectGivesFallback | components/ChatKitPanel.tsx:864-866 | an absent or non-object payload gives the fallback |
| ErrorDetail.ErrorStringWins | components/ChatKitPanel.tsx:868-871 | a string `error` wins over everything else |
| ErrorDetail.TopMessageLast | components/ChatKitPanel.tsx:902-904 | a top-level `message` is used only when none of the five earlier probes yields a string |
| Session.PlaceholderIsUnconfigured | components/ChatKitPanel.tsx:166-168 | any id starting with "wf_replace" is not a configured workflow |
| Session.IsWorkflowConfigured | components/ChatKitPanel.tsx:166-168 | an empty id or one starting with "wf_replace" is not configured; a non-empty id that cannot start with the prefix is |
| Session.RealIdIsConfigured | components/ChatKitPanel.tsx:166-168 | a "wf_" id whose remainder does not start with "replace" is configured |
| Session.ComposeRequest | components/ChatKitPanel.tsx:221-228 | the query carries the six page parameters in the code's order |
| Session.RequestCarriesPageParams | components/ChatKitPanel.tsx:221-244 | each page parameter is forwarded, an absent one as ""; the body's `question_template_id` equals the query's; file upload is disabled |
| Session.LookupFirst | components/ChatKitPanel.tsx:222-227 | a query lookup finds the first entry with the key |
| Session.BeginCredential | components/ChatKitPanel.tsx:202-217 | without a configured workflow the request is refused with the setup message and loading ends; otherwise the slots are cleared and a first acquisition turns loading on |
| Session.Outcome | components/ChatKitPanel.tsx:269-297 | a request succeeds exactly with a success status and a truthy `client_secret`, and then yields that secret; a thrown error gives its message, or "Unable to start ChatKit session." when it is not an `Error` |
| Session.SuccessYieldsSecret | components/ChatKitPanel.tsx:269-301 | a success status with a truthy secret hands back that secret and leaves the session and integration slots empty |
| Session.SettleCredential | components/ChatKitPanel.tsx:283-301 | success clears the session and integration slots; failure writes the message to the session slot; a first acquisition always ends loading |
| Session.RefreshKeepsInitializing | components/ChatKitPanel.tsx:212-301 | a refresh (a secret already held) never touches the loading flag |
| Session.FirstAcquisitionBrackets | components/ChatKitPanel.tsx:212-301 | a first acquisition turns loading on before the request and off after it, whatever the outcome |
| Session.SettleRecordsOutcome | components/ChatKitPanel.tsx:283-296 | a failure shows its message in the session slot without a restart offer; a success leaves session and integration empty; the script slot is untouched |
| Session.MissingSecretMessage | components/ChatKitPanel.tsx:269-281 | a success status without a truthy secret fails with "Missing client secret in response"; a failure status reports the body's detail, else the status text |
| ClientTools.Dispatch | components/ChatKitPanel.tsx:616-648 | unknown tools fail and change nothing; `switch_theme` succeeds exactly for "light" or "dark", and exactly then forwards that theme; `record_fact` always succeeds, forwards only a new non-empty id, records exactly that id, and forwards trimmed single-spaced text |
| ClientTools.RecordFactForwardsNewIds | components/ChatKitPanel.tsx:632-645 | `record_fact` forwards exactly when the id is non-empty and unseen, with the collapsed text, and adds just that id |
| ClientTools.RecordFactIdempotent | components/ChatKitPanel.tsx:635-638 | repeating a `record_fact` call forwards nothing and leaves the processed set as it was |
| ClientTools.ThreadChangeForgetsFacts | components/ChatKitPanel.tsx:653-655 | after the set is cleared, a fact with a non-empty id is forwarded again |
| ClientTools.ThemeNeedsExactString | components/ChatKitPanel.tsx:620-630 | a missing theme, or anything but the strings "light" and "dark", is refused without effect |
| Overlay.Select | components/ErrorOverlay.tsx:18-54 | a card is drawn exactly for a non-empty error, or for no error with a non-empty fallback; it shows the error when there is one, else the fallback; it is loading exactly without a truthy error; the button appears exactly for a truthy error with a handler, labelled "Restart chat" by default |
| Overlay.NothingToShow | components/ErrorOverlay.tsx:18-20 | neither an error nor a fallback draws nothing |
| Overlay.EmptyErrorHidesFallback | components/ErrorOverlay.tsx:22-27 | an empty-string error hides the fallback and draws nothing |
| Overlay.LoadingExcludesRetry | components/ErrorOverlay.tsx:23-45 | a loading card shows the fallback, has no error and no button |
| PanelController.Step | components/ChatKitPanel.tsx:97-695 | no event changes the workflow id or turns `retryable` on; only a restart bumps the widget key, by one; only the 800, 1500 and 2000 ms checks are ever scheduled |
| PanelController.Init | components/ChatKitPanel.tsx:40-70 | on mount the loading overlay is up, the widget hidden, nothing scheduled and no answer pending |
| PanelController.WidgetVisible | components/ChatKitPanel.tsx:726 | the widget is shown only when the overlay draws nothing |
| PanelController.OverlayView | components/ChatKitPanel.tsx:846-855 | an error card shows the non-empty blocking error, a loading card the loading message while initializing with no error, and a button only when the error is retryable |
| PanelController.AnswerControls | components/ChatKitPanel.tsx:734-844 | controls appear exactly with the query flag, the control object and the visible widget; Save/Cancel appear exactly with the answer box, Save disabled while saving; otherwise Generate appears, disabled exactly while generating |
| PanelController.AnswerShown | components/ChatKitPanel.tsx:734-760 | the answer box is drawn only with a non-empty answer and no overlay |
| PanelController.RetryNeverEnabled | components/ChatKitPanel.tsx:853 | along any sequence of events `retryable` stays false, so restart is never offered |
| PanelController.NoRestartButton | components/ChatKitPanel.tsx:853 | from mount, the overlay never carries the restart button |
| PanelController.LoadingOverlayIff | components/ChatKitPanel.tsx:846-852 | the loading card is shown exactly when no slot is set and the session is initializing; an empty blocking error shows nothing |
| PanelController.ErrorOverlayShown | components/ChatKitPanel.tsx:846-855 | a non-empty blocking error is shown as a non-loading card, the script error first; with no error and no loading, nothing is shown |
| PanelController.ControlsMatchAnswer | components/ChatKitPanel.tsx:734-844 | Save/Cancel appear exactly when the answer box does; the Generate button is disabled exactly while generating; nothing shows while the widget is hidden |
| PanelController.ScriptTimeoutOnlyWhilePending | components/ChatKitPanel.tsx:139-152 | the timeout acts only on a pending script still unregistered, and then shows "Error: ChatKit web component is unavailable…" and ends loading |
| PanelController.ScriptSignalsAlwaysApply | components/ChatKitPanel.tsx:114-131 | a load after a failure restores the ready status and clears the script slot; an error without detail reads "Error: unknown error" |
| PanelController.RestartResets | components/ChatKitPanel.tsx:180-190 | restart clears every slot and the processed facts, turns loading on, bumps the widget key by one, and leaves the answer state alone |
| PanelController.UnconfiguredShowsSetupMessage | components/ChatKitPanel.tsx:170-178 | without a configured workflow the setup message blocks and loading ends |
| PanelController.ResponseEndSchedulesOnlyWhenPending | components/ChatKitPanel.tsx:379-385 | the end of a response schedules one 800 ms check exactly when the latch is set |
| PanelController.RetryCheckGuardedByLatch | components/ChatKitPanel.tsx:499-500 | a retry firing after the latch was cleared only removes itself |
| PanelController.CancelSilencesRetries | components/ChatKitPanel.tsx:692-695 | after Cancel every pending retry is silent |
| PanelController.FirstCheckIgnoresLatch | components/ChatKitPanel.tsx:383-386 | the 800 ms check ignores a Cancel made before it fires and still sets a found answer |
| PanelController.RetryThrowKeepsLatch | components/ChatKitPanel.tsx:499-503 | a throwing read in the retry leaves the state unchanged, latch and generating flag included |
| PanelController.SettledCheckClearsLatch | components/ChatKitPanel.tsx:474-542 | an evaluation that resolves or stops clears the latch and generating flag; a found answer becomes the answer, and a definitive stop or an exhausted retry leaves the answer unchanged |
| PanelController.GenerateAndSendFailure | components/ChatKitPanel.tsx:664-689 | Generate sets the latch and clears the answer, does nothing without `sendUserMessage`, and a failed send stores the apology |
| PanelController.CloseKeepsGenerating | components/ChatKitPanel.tsx:692-695 | Cancel clears answer and latch and leaves `isGenerating` as it was |
| PanelController.SaveOutcomes | components/ChatKitPanel.tsx:313-339 | a successful save clears answer and latch and ends saving; a failed save only ends saving |
| PanelController.CancelWhileGeneratingKeepsButtonDisabled | components/ChatKitPanel.tsx:810-812 | after Cancel during generation the Generate button stays disabled |
| PanelController.BudgetAppend | components/ChatKitPanel.tsx:385-592 | the evaluation budget of two check lists adds up |
| PanelController.BudgetWithout | components/ChatKitPanel.tsx:385-592 | removing a check lowers the budget by that check's weight |
| PanelController.Fire | components/ChatKitPanel.tsx:385-592 | running a scheduled check keeps the schedule to the 800, 1500 and 2000 ms checks |
| PanelController.FireBudget | components/ChatKitPanel.tsx:385-592 | running a check spends its weight and schedules at most one retry |
| PanelController.StepBudget | components/ChatKitPanel.tsx:383-592 | a step raises the budget only at the end of a response, by at most two, and running a check spends at least one |
| PanelController.EvaluationsWithinBudget | components/ChatKitPanel.tsx:383-592 | evaluations run plus the budget left never exceed the starting budget plus two per response end |
| PanelController.AtMostTwoEvaluationsPerResponse | components/ChatKitPanel.tsx:383-592 | from mount, at most two evaluations run per response end |
| PanelController.OnlyKnownDelays | components/ChatKitPanel.tsx:542-592 | along any sequence of events only the 800, 1500 and 2000 ms delays are scheduled |

## Left out

- Network I/O: the session `fetch` and the save `fetch` are abstract.
  The session reply is an input value, and saving is the three events
  `SaveStarted`, `SaveSucceeded` and `SaveFailed`.
  The save request body and `app/api/save-answer/route.ts` (a proxy to an
  external API) are not part of this model.
- JSON parsing: a parse failure or an empty body is supplied as the empty
  object, as the code does.
- Real timers, window event listeners, `customElements` lookups and React
  hooks are events. Concurrency and interleaving of promises are not
  modelled; each continuation is one atomic event.
- The unmount guard (`isMountedRef`) is dropped: the model always applies
  the updates it guards. The cleanup at `components/ChatKitPanel.tsx` lines
  101-105 sets the ref to false and nothing sets it back. After a real
  unmount React discards those updates anyway. After a development
  StrictMode remount, the code skips them while the panel is mounted; the
  model does not.
- How the thread is read (the three `getThread` accessors tried in order) is
  abstracted into the `Snapshot` input.
- `String(...)` of a non-string value (a tool parameter, a script-error
  detail, a truthy non-string `text` field) is supplied as data, the text
  it renders to, rather than computed.
- MessageContent.ExtractText: a truthy `text` whose `String(v)` is empty
  (an empty array) is carried as the empty text and so read as absent: the
  model falls back to `content` where the code uses the empty text.
- Strings are sequences of Unicode scalar values, not UTF-16 code units.
- Strings.Lower: only ASCII letters are lowered. Every probe the code makes
  is ASCII, and no other character lowers to an ASCII letter that could
  complete one.
- The greeting text, theme configuration and other constants come from
  `lib/config.ts`, which is not part of this model. The same holds for the
  JSX layout and styling and for `components/AnswerModal.tsx`, `app/App.tsx`
  and `next.config.ts`.
- Console logging, `alert`, and the `onError` and `onResponseEnd` callbacks
  have no effect on the state and are left out.
- PanelController.Step: the host callbacks that `onClientTool` triggers
  (`onThemeRequest`, `onWidgetAction`) are returned by
  `ClientTools.Dispatch` as its `Effect`; the panel step keeps only the
  processed-fact set.
