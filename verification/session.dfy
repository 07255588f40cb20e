/** Acquiring the client secret for the chat widget (`getClientSecret` in
    components/ChatKitPanel.tsx): the configuration guard, the request it
    composes from the page's query parameters, and what it records in the
    error slots and the initializing flag before and after the request. */
module Session {
  import opened Values
  import opened Strings
  import opened ErrorSlots
  import opened ErrorDetail

  const PLACEHOLDER_PREFIX := "wf_replace"
  const MISSING_WORKFLOW_MESSAGE := "Set NEXT_PUBLIC_CHATKIT_WORKFLOW_ID in your .env.local file."
  const MISSING_SECRET_MESSAGE := "Missing client secret in response"
  const UNKNOWN_FAILURE_MESSAGE := "Unable to start ChatKit session."

  /** `Boolean(WORKFLOW_ID && !WORKFLOW_ID.startsWith("wf_replace"))` */
  predicate IsWorkflowConfigured(id: string)
    ensures id == "" ==> !IsWorkflowConfigured(id)
    ensures |PLACEHOLDER_PREFIX| <= |id| && id[..|PLACEHOLDER_PREFIX|] == PLACEHOLDER_PREFIX ==> !IsWorkflowConfigured(id)
    ensures id != "" && id[0] != 'w' ==> IsWorkflowConfigured(id)
  {
    id != "" && !StartsWith(id, PLACEHOLDER_PREFIX)
  }

  /** The placeholder id shipped in the template never counts as configured,
      whatever follows the prefix. */
  lemma PlaceholderIsUnconfigured(suffix: string)
    ensures !IsWorkflowConfigured(PLACEHOLDER_PREFIX + suffix)
  {
    assert (PLACEHOLDER_PREFIX + suffix)[..|PLACEHOLDER_PREFIX|] == PLACEHOLDER_PREFIX;
  }

  /** A real workflow id, "wf_" followed by anything but "replace…", counts
      as configured. */
  lemma RealIdIsConfigured(suffix: string)
    requires !StartsWith(suffix, "replace")
    ensures IsWorkflowConfigured("wf_" + suffix)
  {
    var id := "wf_" + suffix;
    assert PLACEHOLDER_PREFIX[3..] == "replace";
    assert |id| >= 10 ==> id[..10][3..] == suffix[..7];
  }

  // ---------------------------------------------------------------------
  // The request

  /** The page's query parameters. */
  type PageParams = map<string, string>

  /** `urlParams.get(key) || ''` */
  function Param(page: PageParams, key: string): string {
    if key in page then page[key] else ""
  }

  /** The parameters copied onto the session endpoint's query, in order. */
  const QUERY_KEYS: seq<string> :=
    ["user_first_name", "user_last_name", "form_template_uid", "user_id", "question_template_id", "version"]

  /** The JSON body of the request. */
  datatype SessionBody = SessionBody(workflowId: string, questionTemplateId: string, fileUpload: bool)

  datatype SessionRequest = SessionRequest(query: seq<(string, string)>, body: SessionBody)

  /** The value sent under `key`, or "" when the query does not carry it. */
  function Lookup(query: seq<(string, string)>, key: string): string
    decreases |query|
  {
    if |query| == 0 then ""
    else if query[0].0 == key then query[0].1
    else Lookup(query[1..], key)
  }

  /** The POST to the session endpoint. */
  function ComposeRequest(page: PageParams, workflowId: string): (r: SessionRequest)
    ensures |r.query| == |QUERY_KEYS|
    ensures forall i :: 0 <= i < |QUERY_KEYS| ==> r.query[i].0 == QUERY_KEYS[i]
  {
    SessionRequest(
      seq(|QUERY_KEYS|, i requires 0 <= i < |QUERY_KEYS| => (QUERY_KEYS[i], Param(page, QUERY_KEYS[i]))),
      SessionBody(workflowId, Param(page, "question_template_id"), false))
  }

  /** Every listed parameter is forwarded with its page value, an absent one
      as the empty string; attachments stay disabled; and the body's
      `question_template_id` is the one in the query. */
  lemma {:induction false} RequestCarriesPageParams(page: PageParams, workflowId: string)
    ensures forall k :: k in QUERY_KEYS ==> Lookup(ComposeRequest(page, workflowId).query, k) == Param(page, k)
    ensures forall k :: k in QUERY_KEYS && k !in page ==> Lookup(ComposeRequest(page, workflowId).query, k) == ""
    ensures ComposeRequest(page, workflowId).body.questionTemplateId
            == Lookup(ComposeRequest(page, workflowId).query, "question_template_id")
    ensures ComposeRequest(page, workflowId).body.workflowId == workflowId
    ensures !ComposeRequest(page, workflowId).body.fileUpload
  {
    var q := ComposeRequest(page, workflowId).query;
    forall k | k in QUERY_KEYS
      ensures Lookup(q, k) == Param(page, k)
    {
      var i :| 0 <= i < |QUERY_KEYS| && QUERY_KEYS[i] == k;
      LookupFirst(q, i, k);
    }
    LookupFirst(q, 4, "question_template_id");
  }

  /** `Lookup` finds the first entry with the key. */
  lemma {:induction false} LookupFirst(query: seq<(string, string)>, i: nat, key: string)
    requires i < |query| && query[i].0 == key
    requires forall j :: 0 <= j < i ==> query[j].0 != key
    ensures Lookup(query, key) == query[i].1
    decreases i
  {
    if i > 0 {
      LookupFirst(query[1..], i - 1, key);
    }
  }

  // ---------------------------------------------------------------------
  // The state around the request

  /** What the request touches: the error slots and `isInitializingSession`. */
  datatype Flags = Flags(errors: Errors, initializing: bool)

  /** `!currentSecret`: a first acquisition rather than a refresh. */
  predicate FirstAcquisition(current: Option<string>) {
    !Filled(current)
  }

  /** The part that runs before the request: refuse without a configured
      workflow, otherwise clear the session state and, on a first
      acquisition, show the loading state. */
  datatype Begin = Refused(flags: Flags, message: string) | Sent(flags: Flags)

  function BeginCredential(workflowId: string, current: Option<string>, f: Flags): (b: Begin)
    ensures b.Refused? <==> !IsWorkflowConfigured(workflowId)
    ensures b.Refused? ==> b.message == MISSING_WORKFLOW_MESSAGE
    ensures b.Refused? ==> b.flags.errors == Merge(f.errors, SessionFailed(MISSING_WORKFLOW_MESSAGE))
    ensures b.Refused? ==> !b.flags.initializing
    ensures b.Sent? ==> b.flags.errors == Merge(f.errors, RequestStarted)
    ensures b.Sent? ==> b.flags.initializing == (f.initializing || FirstAcquisition(current))
  {
    if !IsWorkflowConfigured(workflowId) then
      Refused(Flags(Merge(f.errors, SessionFailed(MISSING_WORKFLOW_MESSAGE)), false), MISSING_WORKFLOW_MESSAGE)
    else
      Sent(Flags(Merge(f.errors, RequestStarted), if FirstAcquisition(current) then true else f.initializing))
  }

  /** How the request ended. `data` is the parsed body, or the empty object
      when the body is empty or not JSON. */
  datatype Reply =
    | Thrown(message: Option<string>)          // `None` when what was thrown is not an `Error`
    | Answered(ok: bool, statusText: string, data: Json)

  /** The secret, or the message of the error the request ends with. */
  function Outcome(reply: Reply): (r: Result<Json, string>)
    ensures r.Ok? ==> Truthy(r.value)
    ensures r.Ok? <==> reply.Answered? && reply.ok
                       && Field(reply.data, "client_secret").Some? && Truthy(Field(reply.data, "client_secret").value)
    ensures r.Ok? ==> r.value == Field(reply.data, "client_secret").value
    ensures reply.Thrown? ==> r == Err(reply.message.GetOr(UNKNOWN_FAILURE_MESSAGE))
  {
    match reply
    case Thrown(m) => Err(m.GetOr(UNKNOWN_FAILURE_MESSAGE))
    case Answered(ok, statusText, data) =>
      if !ok then Err(ExtractErrorDetail(data, statusText))
      else
        match Field(data, "client_secret")
        case Some(secret) =>
          if Truthy(secret) then Ok(secret) else Err(MISSING_SECRET_MESSAGE)
        case None => Err(MISSING_SECRET_MESSAGE)
  }

  /** The part that runs after the request: record the outcome, and on a
      first acquisition leave the loading state whatever happened. */
  function SettleCredential(current: Option<string>, reply: Reply, f: Flags): (r: (Flags, Result<Json, string>))
    ensures r.1 == Outcome(reply)
    ensures r.1.Ok? ==> r.0.errors == Merge(f.errors, SessionCleared)
    ensures r.1.Err? ==> r.0.errors == Merge(f.errors, SessionFailed(r.1.error))
    ensures r.0.initializing == (f.initializing && !FirstAcquisition(current))
  {
    var outcome := Outcome(reply);
    var errors := match outcome
      case Ok(_) => Merge(f.errors, SessionCleared)
      case Err(m) => Merge(f.errors, SessionFailed(m));
    (Flags(errors, if FirstAcquisition(current) then false else f.initializing), outcome)
  }

  /** A refresh (a secret is already held) never touches the loading state. */
  lemma RefreshKeepsInitializing(workflowId: string, current: Option<string>, reply: Reply, f: Flags)
    requires Filled(current) && IsWorkflowConfigured(workflowId)
    ensures BeginCredential(workflowId, current, f).flags.initializing == f.initializing
    ensures SettleCredential(current, reply, BeginCredential(workflowId, current, f).flags).0.initializing == f.initializing
  {
  }

  /** A first acquisition shows the loading state during the request and
      always leaves it afterwards. */
  lemma FirstAcquisitionBrackets(workflowId: string, current: Option<string>, reply: Reply, f: Flags)
    requires FirstAcquisition(current) && IsWorkflowConfigured(workflowId)
    ensures BeginCredential(workflowId, current, f).flags.initializing
    ensures !SettleCredential(current, reply, BeginCredential(workflowId, current, f).flags).0.initializing
  {
  }

  /** A failed request shows its message in the session slot, without a
      restart offer; a successful one leaves the session and integration
      slots empty. */
  lemma SettleRecordsOutcome(current: Option<string>, reply: Reply, f: Flags)
    ensures var (g, out) := SettleCredential(current, reply, f);
            && (out.Err? ==> g.errors.session == Some(out.error) && !g.errors.retryable)
            && (out.Ok? ==> g.errors.session.None? && g.errors.integration.None?)
            && g.errors.script == f.errors.script
  {
  }

  /** A successful status with a truthy `client_secret` hands that secret
      to the widget, clears the session and integration slots, and keeps
      the script slot. */
  lemma SuccessYieldsSecret(current: Option<string>, statusText: string, data: Json, f: Flags)
    requires Field(data, "client_secret").Some? && Truthy(Field(data, "client_secret").value)
    ensures var (g, out) := SettleCredential(current, Answered(true, statusText, data), f);
            && out == Ok(Field(data, "client_secret").value)
            && g.errors.session.None? && g.errors.integration.None?
            && g.errors.script == f.errors.script
  {
  }

  /** A successful status without a truthy `client_secret` fails with the
      fixed message; a failing status reports the body's detail, falling
      back to the status text. */
  lemma MissingSecretMessage(statusText: string, data: Json)
    requires Field(data, "client_secret").None? || !Truthy(Field(data, "client_secret").value)
    ensures Outcome(Answered(true, statusText, data)) == Err(MISSING_SECRET_MESSAGE)
    ensures Outcome(Answered(false, statusText, data)) == Err(FirstString(data, Probes(), statusText))
  {
  }
}
