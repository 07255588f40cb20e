/** The panel's error state: three message slots and the `retryable` flag,
    changed only by partial updates (`setErrorState` in
    components/ChatKitPanel.tsx), and what the panel derives from them. */
module ErrorSlots {
  import opened Values

  datatype Errors = Errors(
    script: Option<string>,
    session: Option<string>,
    integration: Option<string>,
    retryable: bool)

  /** `createInitialErrors()`: every slot empty, no restart offered. */
  const InitialErrors := Errors(None, None, None, false)

  /** A partial update: a field is `None` when the update does not name it,
      and `Some(v)` when it sets it to `v` (which may itself be `null`). */
  datatype Update = Update(
    script: Option<Option<string>>,
    session: Option<Option<string>>,
    integration: Option<Option<string>>,
    retryable: Option<bool>)

  /** The update that names no field. */
  const NoChange := Update(None, None, None, None)

  /** `{ ...current, ...updates }`: the named fields are replaced, the
      others are kept. */
  function Merge(e: Errors, u: Update): (r: Errors)
    ensures r.script == u.script.GetOr(e.script)
    ensures r.session == u.session.GetOr(e.session)
    ensures r.integration == u.integration.GetOr(e.integration)
    ensures r.retryable == u.retryable.GetOr(e.retryable)
  {
    Errors(
      u.script.GetOr(e.script),
      u.session.GetOr(e.session),
      u.integration.GetOr(e.integration),
      u.retryable.GetOr(e.retryable))
  }

  /** Two updates applied in turn, as one: the later one wins on the fields
      both name. */
  function Then(u: Update, v: Update): Update {
    Update(
      if v.script.Some? then v.script else u.script,
      if v.session.Some? then v.session else u.session,
      if v.integration.Some? then v.integration else u.integration,
      if v.retryable.Some? then v.retryable else u.retryable)
  }

  /** An update that names nothing leaves the state alone. */
  lemma MergeNoChange(e: Errors)
    ensures Merge(e, NoChange) == e
  {
  }

  /** Consecutive updates compose: the state after both is the state after
      their combination. */
  lemma MergeThen(e: Errors, u: Update, v: Update)
    ensures Merge(Merge(e, u), v) == Merge(e, Then(u, v))
  {
  }

  /** Applying the same update twice is applying it once. */
  lemma MergeIdempotent(e: Errors, u: Update)
    ensures Merge(Merge(e, u), u) == Merge(e, u)
  {
  }

  /** `errors.script ?? (errors.session ?? errors.integration)`: the first
      slot that holds a value, even an empty one. */
  function Blocking(e: Errors): (r: Option<string>)
    ensures e.script.Some? ==> r == e.script
    ensures e.script.None? && e.session.Some? ==> r == e.session
    ensures e.script.None? && e.session.None? ==> r == e.integration
  {
    if e.script.Some? then e.script
    else if e.session.Some? then e.session
    else e.integration
  }

  /** The blocking error is one of the slots, and there is none exactly when
      every slot is empty. */
  lemma BlockingIsASlot(e: Errors)
    ensures Blocking(e) in {e.script, e.session, e.integration}
    ensures Blocking(e).None? <==> e.script.None? && e.session.None? && e.integration.None?
  {
  }

  /** `blockingError && errors.retryable`: the restart button's handler is
      passed only for a truthy blocking error that is marked retryable. */
  predicate RestartOffered(e: Errors) {
    Filled(Blocking(e)) && e.retryable
  }

  // ---------------------------------------------------------------------
  // The updates the panel performs

  /** The script loaded: `{ script: null }`. */
  const ScriptCleared := Update(Some(None), None, None, None)

  /** The script failed: `{ script: message, retryable: false }`. */
  function ScriptFailed(message: string): Update {
    Update(Some(Some(message)), None, None, Some(false))
  }

  /** A session problem: `{ session: message, retryable: false }`. */
  function SessionFailed(message: string): Update {
    Update(None, Some(Some(message)), None, Some(false))
  }

  /** Before a credential request: `{ session: null, integration: null, retryable: false }`. */
  const RequestStarted := Update(None, Some(None), Some(None), Some(false))

  /** After a credential request succeeds: `{ session: null, integration: null }`. */
  const SessionCleared := Update(None, Some(None), Some(None), None)

  /** A response started: `{ integration: null, retryable: false }`. */
  const ResponseStarted := Update(None, None, Some(None), Some(false))

  /** Every update the panel performs. */
  predicate PanelUpdate(u: Update) {
    || u == ScriptCleared
    || (u.script.Some? && u.script.value.Some? && u == ScriptFailed(u.script.value.value))
    || (u.session.Some? && u.session.value.Some? && u == SessionFailed(u.session.value.value))
    || u == RequestStarted
    || u == SessionCleared
    || u == ResponseStarted
  }

  /** No update of the panel ever sets `retryable` to true. */
  lemma PanelUpdateKeepsRetryOff(e: Errors, u: Update)
    requires PanelUpdate(u)
    ensures Merge(e, u).retryable ==> e.retryable
  {
  }
}
