/** What the error overlay shows (components/ErrorOverlay.tsx): nothing, a
    loading message, or an error, with or without a retry button. */
module Overlay {
  import opened Values

  const DEFAULT_RETRY_LABEL := "Restart chat"

  /** The rendered overlay. `retryLabel` is the button's label when there is
      a button. */
  datatype View = Hidden | Card(content: string, loading: bool, retryLabel: Option<string>)

  /** `error` is the error prop (`null` is `None`), `fallback` the fallback
      message, `hasRetry` whether a retry handler is passed. */
  function Select(error: Option<string>, fallback: Option<string>, hasRetry: bool, retryLabel: Option<string>): (v: View)
    ensures v.Card? <==> Filled(error) || (error.None? && Filled(fallback))
    ensures v.Card? && error.Some? ==> v.content == error.value
    ensures v.Card? && error.None? ==> v.content == fallback.value
    ensures v.Card? ==> (v.loading <==> !Filled(error))
    ensures v.Card? ==> (v.retryLabel.Some? <==> Filled(error) && hasRetry)
    ensures v.Card? && v.retryLabel.Some? ==> v.retryLabel.value == retryLabel.GetOr(DEFAULT_RETRY_LABEL)
  {
    if !Filled(error) && !Filled(fallback) then Hidden
    else
      var content := if error.Some? then error else fallback;
      if !Filled(content) then Hidden
      else
        Card(
          content.value,
          !Filled(error) && Filled(fallback),
          if Filled(error) && hasRetry then Some(retryLabel.GetOr(DEFAULT_RETRY_LABEL)) else None)
  }

  /** Neither an error nor a fallback: nothing is drawn. */
  lemma NothingToShow(error: Option<string>, fallback: Option<string>, hasRetry: bool, retryLabel: Option<string>)
    requires !Filled(error) && !Filled(fallback)
    ensures Select(error, fallback, hasRetry, retryLabel) == Hidden
  {
  }

  /** An empty error string is not `null`, so it hides the fallback even
      though it is not shown itself. */
  lemma EmptyErrorHidesFallback(fallback: Option<string>, hasRetry: bool, retryLabel: Option<string>)
    ensures Select(Some(""), fallback, hasRetry, retryLabel) == Hidden
  {
  }

  /** The loading card and the error card never mix: a card is loading
      exactly when it shows the fallback, and only an error card can carry
      the button. */
  lemma LoadingExcludesRetry(error: Option<string>, fallback: Option<string>, hasRetry: bool, retryLabel: Option<string>)
    ensures var v := Select(error, fallback, hasRetry, retryLabel);
            v.Card? && v.loading ==> v.retryLabel.None? && error.None? && Some(v.content) == fallback
  {
  }
}
