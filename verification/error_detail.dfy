/** Choosing the message of a failed session request from its response body
    (`extractErrorDetail` in components/ChatKitPanel.tsx). */
module ErrorDetail {
  import opened Values

  /** `v.message` when `v` is an object whose `message` is a string. */
  function MessageOf(v: Json): Option<string> {
    match Field(v, "message")
    case Some(JStr(m)) => Some(m)
    case _ => None
  }

  /** The code's chain of checks, in its own order. */
  function ExtractErrorDetail(payload: Json, fallback: string): (r: string)
    ensures r == FirstString(payload, Probes(), fallback)
  {
    if !Truthy(payload) then fallback
    else
      var error := Field(payload, "error");
      if error.Some? && error.value.JStr? then error.value.s
      else if error.Some? && MessageOf(error.value).Some? then MessageOf(error.value).value
      else
        var details := Field(payload, "details");
        if details.Some? && details.value.JStr? then details.value.s
        else
          var nested := if details.Some? then Field(details.value, "error") else None;
          if nested.Some? && nested.value.JStr? then nested.value.s
          else if nested.Some? && MessageOf(nested.value).Some? then MessageOf(nested.value).value
          else if MessageOf(payload).Some? then MessageOf(payload).value
          else fallback
  }

  /** The places a message is looked for, in priority order. */
  function Probes(): seq<seq<string>> {
    [["error"], ["error", "message"], ["details"], ["details", "error"],
     ["details", "error", "message"], ["message"]]
  }

  /** The string at the first path that leads to one, else `fallback`. */
  function FirstString(v: Json, paths: seq<seq<string>>, fallback: string): (r: string)
    ensures r == fallback || exists i :: 0 <= i < |paths| && StringAt(v, paths[i]) == Some(r)
    decreases |paths|
  {
    if |paths| == 0 then fallback
    else
      match StringAt(v, paths[0])
      case Some(s) => s
      case None =>
        var r := FirstString(v, paths[1..], fallback);
        assert forall i :: 1 <= i < |paths| ==> paths[1..][i - 1] == paths[i];
        r
  }

  /** Anything but an object, including an absent (falsy) payload, gives the
      fallback. */
  lemma NonObjectGivesFallback(payload: Json, fallback: string)
    requires !payload.JObj?
    ensures ExtractErrorDetail(payload, fallback) == fallback
  {
  }

  /** A string `error` wins over everything else. */
  lemma ErrorStringWins(fields: map<string, Json>, s: string, fallback: string)
    requires "error" in fields && fields["error"] == JStr(s)
    ensures ExtractErrorDetail(JObj(fields), fallback) == s
  {
  }

  /** The top-level `message` is used only when nothing under `error` or
      `details` yields a string. */
  lemma TopMessageLast(payload: Json, m: string, fallback: string)
    requires MessageOf(payload) == Some(m)
    requires forall i :: 0 <= i < 5 ==> StringAt(payload, Probes()[i]).None?
    ensures ExtractErrorDetail(payload, fallback) == m
  {
    assert StringAt(payload, Probes()[5]) == Some(m);
  }
}
