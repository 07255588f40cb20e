/** The loosely typed content of a conversation item and the extraction of
    its text (`extractTextFromContent` in components/ChatKitPanel.tsx). */
module MessageContent {
  import opened Values
  import opened Strings

  /** One element of a content array. Only objects matter. `kind` is the
      `type` field when it is a string. `text` is the `text` field when it
      is truthy, a non-string value carried as the text `String(v)` gives
      for it, and `None` when it is absent or falsy. `content` is the
      `content` field when it is a string, else `None`. */
  datatype Part =
    | NonObjectPart
    | PartObject(kind: Option<string>, text: Option<string>, content: Option<string>)

  /** Message content as the widget may deliver it. */
  datatype Content =
    | Missing                                    // undefined, null, false, 0, NaN
    | Scalar                                     // true or a non-zero number
    | Str(s: string)
    | Parts(parts: seq<Part>)
    // `text` as in `Part`; `inner` is Missing when the object has no `content`
    | Record(text: Option<string>, inner: Content)

  /** JavaScript truthiness of content. */
  predicate Present(c: Content) {
    match c
    case Missing => false
    case Scalar => true
    case Str(s) => s != ""
    case Parts(_) => true
    case Record(_, _) => true
  }

  /** The array filter: an object whose `type` is the string "text". */
  predicate IsTextPart(p: Part) {
    p.PartObject? && p.kind == Some("text")
  }

  /** `partObj.text || (typeof partObj.content === "string" ? partObj.content : "") || ""` */
  function PartText(p: Part): string {
    match p
    case NonObjectPart => ""
    case PartObject(_, text, content) =>
      if Filled(text) then text.value
      else content.GetOr("")
  }

  /** The texts of the text parts, in order (filter, then map). */
  function TextsOf(ps: seq<Part>): seq<string>
    decreases |ps|
  {
    if |ps| == 0 then []
    else (if IsTextPart(ps[0]) then [PartText(ps[0])] else []) + TextsOf(ps[1..])
  }

  /** The text carried by a piece of content, trimmed. */
  function ExtractText(c: Content): (r: string)
    ensures IsTrimmed(r)
    ensures !Present(c) ==> r == ""
    decreases c
  {
    if !Present(c) then ""
    else
      match c
      case Str(s) => Trim(s)
      case Parts(ps) => Trim(Join(TextsOf(ps), "\n"))
      case Record(text, inner) =>
        if Filled(text) then Trim(text.value)
        else if Present(inner) then ExtractText(inner)
        else ""
      case _ => ""
  }

  /** Extraction always yields a trimmed string: trimming it again changes
      nothing. */
  lemma ExtractIsTrimFixpoint(c: Content)
    ensures Trim(ExtractText(c)) == ExtractText(c)
  {
    TrimOfTrimmed(ExtractText(c));
  }

  lemma {:induction false} TextsOfAppend(ps: seq<Part>, qs: seq<Part>)
    ensures TextsOf(ps + qs) == TextsOf(ps) + TextsOf(qs)
    decreases |ps|
  {
    if |ps| == 0 {
      assert ps + qs == qs;
    } else {
      assert (ps + qs)[1..] == ps[1..] + qs;
      TextsOfAppend(ps[1..], qs);
    }
  }

  /** Parts that are not text parts contribute nothing, wherever they sit. */
  lemma ExtractIgnoresNonTextPart(ps: seq<Part>, p: Part, qs: seq<Part>)
    requires !IsTextPart(p)
    ensures ExtractText(Parts(ps + [p] + qs)) == ExtractText(Parts(ps + qs))
  {
    assert [p][1..] == [];
    assert TextsOf([p]) == [];
    calc {
      TextsOf(ps + [p] + qs);
      { TextsOfAppend(ps + [p], qs); }
      TextsOf(ps + [p]) + TextsOf(qs);
      { TextsOfAppend(ps, [p]); }
      TextsOf(ps) + TextsOf(qs);
      { TextsOfAppend(ps, qs); }
      TextsOf(ps + qs);
    }
  }

  /** A text part is read from its `text` when that is non-empty, else from
      a string `content`, else it reads as the empty string. */
  lemma ExtractSingleTextPart(p: Part)
    requires IsTextPart(p)
    ensures Filled(p.text) ==> ExtractText(Parts([p])) == Trim(p.text.value)
    ensures !Filled(p.text) && p.content.Some? ==> ExtractText(Parts([p])) == Trim(p.content.value)
    ensures !Filled(p.text) && p.content.None? ==> ExtractText(Parts([p])) == ""
  {
    assert TextsOf([p]) == [PartText(p)];
  }

  /** Text parts are joined with newlines before the trim. */
  lemma ExtractTwoTextParts(p: Part, q: Part)
    requires IsTextPart(p) && IsTextPart(q)
    ensures ExtractText(Parts([p, q])) == Trim(PartText(p) + "\n" + PartText(q))
  {
    assert [p, q][1..] == [q];
    assert [q][1..] == [];
    assert TextsOf([q]) == [PartText(q)];
    assert TextsOf([p, q]) == [PartText(p), PartText(q)];
    var xs := [PartText(p), PartText(q)];
    assert xs[1..] == [PartText(q)];
    assert Join(xs[1..], "\n") == PartText(q);
    assert Join(xs, "\n") == PartText(p) + "\n" + PartText(q);
  }

  /** An object with a non-empty `text` ignores its nested `content`. */
  lemma ExtractTextFieldWins(t: string, c: Content, d: Content)
    requires t != ""
    ensures ExtractText(Record(Some(t), c)) == ExtractText(Record(Some(t), d)) == Trim(t)
  {
  }

  /** An object without a usable `text` reads as its nested `content`. */
  lemma ExtractDelegatesToInner(t: Option<string>, c: Content)
    requires !Filled(t)
    ensures ExtractText(Record(t, c)) == ExtractText(c)
  {
  }

  /** Wrapping content in any number of text-less objects changes nothing. */
  function Wrap(c: Content, depth: nat): Content
    decreases depth
  {
    if depth == 0 then c else Record(None, Wrap(c, depth - 1))
  }

  lemma {:induction false} ExtractSeesThroughWrapping(c: Content, depth: nat)
    ensures ExtractText(Wrap(c, depth)) == ExtractText(c)
    decreases depth
  {
    if depth > 0 {
      ExtractSeesThroughWrapping(c, depth - 1);
    }
  }
}
