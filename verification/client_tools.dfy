/** The client tools the assistant may invoke (`onClientTool` in
    components/ChatKitPanel.tsx): switching the colour scheme and recording
    a fact, de-duplicated by id within the current thread. */
module ClientTools {
  import opened Values
  import opened Strings

  /** A tool parameter as received. `Other` is any other non-null value,
      carried with the text `String(value)` gives for it. */
  datatype Param = Nullish | Text(s: string) | Other(rendered: string)

  /** `String(value ?? "")`, with an absent key read as `undefined`. */
  function Stringify(params: map<string, Param>, key: string): string {
    if key !in params then ""
    else
      match params[key]
      case Nullish => ""
      case Text(s) => s
      case Other(rendered) => rendered
  }

  datatype Theme = Light | Dark

  /** The payload handed to the save callback. */
  datatype FactAction = FactAction(factId: string, factText: string)

  /** What a tool call asks of the host, besides its result. */
  datatype Effect = NoEffect | ThemeRequest(theme: Theme) | SaveFact(action: FactAction)

  /** The `{ success }` result, the effect, and the ids processed so far. */
  datatype ToolResult = ToolResult(success: bool, effect: Effect, processed: set<string>)

  /** `requested === "light" || requested === "dark"`: only the two strings. */
  function RequestedTheme(params: map<string, Param>): Option<Theme> {
    if "theme" in params && params["theme"] == Text("light") then Some(Light)
    else if "theme" in params && params["theme"] == Text("dark") then Some(Dark)
    else None
  }

  function Dispatch(name: string, params: map<string, Param>, processed: set<string>): (r: ToolResult)
    ensures name != "switch_theme" && name != "record_fact" ==> r == ToolResult(false, NoEffect, processed)
    ensures name == "switch_theme" ==> r.processed == processed
    ensures name == "switch_theme" ==> (r.success <==> RequestedTheme(params).Some?)
    ensures name == "switch_theme" ==> (r.success <==> r.effect.ThemeRequest?)
    ensures r.effect.ThemeRequest? ==> name == "switch_theme" && RequestedTheme(params) == Some(r.effect.theme)
    ensures name == "record_fact" ==> r.success
    ensures r.effect.SaveFact? ==> name == "record_fact" && r.effect.action.factId !in processed
    ensures r.effect.SaveFact? ==> r.effect.action.factId != "" && r.processed == processed + {r.effect.action.factId}
    ensures r.effect.SaveFact? ==> IsTrimmed(r.effect.action.factText) && SingleSpaced(r.effect.action.factText)
    ensures processed <= r.processed
  {
    if name == "switch_theme" then
      match RequestedTheme(params)
      case Some(theme) => ToolResult(true, ThemeRequest(theme), processed)
      case None => ToolResult(false, NoEffect, processed)
    else if name == "record_fact" then
      var id := Stringify(params, "fact_id");
      var text := Stringify(params, "fact_text");
      if id == "" || id in processed then ToolResult(true, NoEffect, processed)
      else ToolResult(true, SaveFact(FactAction(id, CollapseWhitespace(text))), processed + {id})
    else ToolResult(false, NoEffect, processed)
  }

  /** `record_fact` forwards exactly the new, non-empty ids, adds exactly
      that id, and forwards the text with white-space runs collapsed. */
  lemma RecordFactForwardsNewIds(params: map<string, Param>, processed: set<string>)
    ensures var id := Stringify(params, "fact_id");
            var r := Dispatch("record_fact", params, processed);
            && (r.effect.SaveFact? <==> id != "" && id !in processed)
            && (r.effect.SaveFact? ==> r.effect.action == FactAction(id, CollapseWhitespace(Stringify(params, "fact_text"))))
            && r.processed == (if r.effect.SaveFact? then processed + {id} else processed)
  {
  }

  /** Repeating a `record_fact` call forwards nothing the second time and
      leaves the processed ids as the first call left them. */
  lemma RecordFactIdempotent(params: map<string, Param>, processed: set<string>)
    ensures var first := Dispatch("record_fact", params, processed);
            var second := Dispatch("record_fact", params, first.processed);
            second == ToolResult(true, NoEffect, first.processed)
  {
  }

  /** After the thread changes (the set is cleared) a fact seen before is
      forwarded again. */
  lemma ThreadChangeForgetsFacts(params: map<string, Param>)
    requires Stringify(params, "fact_id") != ""
    ensures Dispatch("record_fact", params, {}).effect.SaveFact?
  {
  }

  /** A missing theme, or one given as anything but one of the two
      strings, is refused. */
  lemma ThemeNeedsExactString(params: map<string, Param>, processed: set<string>)
    requires "theme" !in params || (params["theme"] != Text("light") && params["theme"] != Text("dark"))
    ensures Dispatch("switch_theme", params, processed) == ToolResult(false, NoEffect, processed)
  {
  }
}
