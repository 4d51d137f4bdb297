/** HTML escaping and the `{{name}}` templates of the block and warning pages. */
module Html {
  import opened Wrappers
  import opened PlainObjects

  /** The five characters that mean something in HTML text and attributes. */
  predicate Special(c: char) {
    c == '&' || c == '<' || c == '>' || c == '"' || c == '\''
  }

  function Entity(c: char): string {
    if c == '&' then "&amp;"
    else if c == '<' then "&lt;"
    else if c == '>' then "&gt;"
    else if c == '"' then "&quot;"
    else if c == '\'' then "&#39;"
    else [c]
  }

  function EscapeHtml(value: string): string {
    if value == "" then "" else Entity(value[0]) + EscapeHtml(value[1..])
  }

  /** The entity at the start of `s`: the character it stands for and its length. */
  function LeadingEntity(s: string): (r: (char, nat))
    requires s != ""
    ensures 1 <= r.1 <= |s|
  {
    if "&amp;" <= s then ('&', 5)
    else if "&lt;" <= s then ('<', 4)
    else if "&gt;" <= s then ('>', 4)
    else if "&quot;" <= s then ('"', 6)
    else if "&#39;" <= s then ('\'', 5)
    else (s[0], 1)
  }

  /** What a browser reads: one pass, each of the five entities back to its character. */
  function Decode(s: string): string
    decreases |s|
  {
    if s == "" then ""
    else
      var (c, length) := LeadingEntity(s);
      [c] + Decode(s[length..])
  }

  lemma EntityIsRead(c: char, rest: string)
    ensures LeadingEntity(Entity(c) + rest) == (c, |Entity(c)|)
  {
    var s := Entity(c) + rest;
    assert s[0] == Entity(c)[0];
    if Special(c) {
      assert s[1] == Entity(c)[1] && s[2] == Entity(c)[2];
      assert s[..|Entity(c)|] == Entity(c);
    }
  }

  /** A browser shows exactly the value that was escaped, whatever the value is. */
  lemma {:induction false} DecodeUndoesEscape(value: string)
    ensures Decode(EscapeHtml(value)) == value
  {
    if value == "" {
    } else {
      var rest := EscapeHtml(value[1..]);
      EntityIsRead(value[0], rest);
      assert (Entity(value[0]) + rest)[|Entity(value[0])|..] == rest;
      DecodeUndoesEscape(value[1..]);
    }
  }

  /** Characters that open or close tags and attribute values. */
  predicate IsMarkup(c: char) {
    c == '<' || c == '>' || c == '"' || c == '\''
  }

  /** The markup characters of `s`, in order. */
  function Markup(s: string): string {
    if s == "" then ""
    else (if IsMarkup(s[0]) then [s[0]] else "") + Markup(s[1..])
  }

  lemma {:induction false} MarkupOfJoined(a: string, b: string)
    ensures Markup(a + b) == Markup(a) + Markup(b)
  {
    if a == "" {
      assert a + b == b;
    } else {
      var head := if IsMarkup(a[0]) then [a[0]] else "";
      MarkupOfJoined(a[1..], b);
      assert (a + b)[1..] == a[1..] + b;
      assert Markup(a + b) == head + (Markup(a[1..]) + Markup(b));
      assert Markup(a) == head + Markup(a[1..]);
    }
  }

  lemma NoMarkupInEntity(c: char)
    ensures Markup(Entity(c)) == ""
  {
    var e := Entity(c);
    assert forall k :: 0 <= k < |e| ==> !IsMarkup(e[k]);
    NoMarkupWithout(e);
  }

  lemma {:induction false} NoMarkupWithout(s: string)
    requires forall k :: 0 <= k < |s| ==> !IsMarkup(s[k])
    ensures Markup(s) == ""
  {
    if s == "" {
    } else {
      NoMarkupWithout(s[1..]);
    }
  }

  lemma {:induction false} EscapedHasNoMarkup(value: string)
    ensures Markup(EscapeHtml(value)) == ""
  {
    if value == "" {
    } else {
      EscapedHasNoMarkup(value[1..]);
      NoMarkupInEntity(value[0]);
      MarkupOfJoined(Entity(value[0]), EscapeHtml(value[1..]));
    }
  }

  // ----- templates -----

  predicate IsWordChar(c: char) {
    'a' <= c <= 'z' || 'A' <= c <= 'Z' || '0' <= c <= '9' || c == '_'
  }

  /** The number of word characters `s` starts with. */
  function WordLength(s: string): (n: nat)
    ensures n <= |s|
    ensures forall k :: 0 <= k < n ==> IsWordChar(s[k])
  {
    if s != "" && IsWordChar(s[0]) then 1 + WordLength(s[1..]) else 0
  }

  /** The length of the word in the marker at the start of `s`, or 0 if there is no marker. */
  function MarkerWord(s: string): (n: nat)
    ensures n > 0 ==> n + 4 <= |s| && s[..n + 4] == "{{" + s[2..n + 2] + "}}"
    ensures forall k :: 2 <= k < n + 2 && n > 0 ==> IsWordChar(s[k])
  {
    if !("{{" <= s) then 0
    else
      var n := WordLength(s[2..]);
      if "}}" <= s[n + 2..] then
        assert n > 0 ==> s[..n + 4] == "{{" + s[2..n + 2] + "}}";
        assert forall k :: 2 <= k < n + 2 ==> s[k] == s[2..][k - 2];
        n
      else 0
  }

  type Variables = map<string, string>

  datatype RenderError = NotAText(key: string)

  /** Looking up an inherited name that was not given finds something that is not a text, and escaping it throws. */
  predicate Throws(variables: Variables, key: string) {
    key !in variables && IsInherited(key)
  }

  function ValueOf(variables: Variables, key: string): string {
    if key in variables then EscapeHtml(variables[key]) else ""
  }

  function Prefixed(text: string, r: Result<string, RenderError>): Result<string, RenderError> {
    if r.Ok? then Ok(text + r.value) else r
  }

  /** The global replace: the leftmost marker is replaced, and the search goes on behind it in the template. */
  function RenderTemplate(template: string, variables: Variables): Result<string, RenderError>
    decreases |template|
  {
    if template == "" then Ok("")
    else
      var n := MarkerWord(template);
      if n > 0 then
        var key := template[2..n + 2];
        if Throws(variables, key) then Err(NotAText(key))
        else Prefixed(ValueOf(variables, key), RenderTemplate(template[n + 4..], variables))
      else Prefixed([template[0]], RenderTemplate(template[1..], variables))
  }

  // ----- the structure of a template, independent of any values -----

  datatype Piece = Literal(c: char) | Marker(key: string)

  function Source(piece: Piece): string {
    match piece
    case Literal(c) => [c]
    case Marker(key) => "{{" + key + "}}"
  }

  function SourceOf(pieces: seq<Piece>): string {
    if pieces == [] then "" else Source(pieces[0]) + SourceOf(pieces[1..])
  }

  predicate IsWord(key: string) {
    key != "" && forall k :: 0 <= k < |key| ==> IsWordChar(key[k])
  }

  /** Markers are named by words, and no literal is the start of a marker that was overlooked. */
  predicate Parsed(pieces: seq<Piece>) {
    pieces == [] || (
      && (if pieces[0].Marker? then IsWord(pieces[0].key) else MarkerWord(SourceOf(pieces)) == 0)
      && Parsed(pieces[1..]))
  }

  function Pieces(template: string): seq<Piece>
    decreases |template|
  {
    if template == "" then []
    else
      var n := MarkerWord(template);
      if n > 0 then [Marker(template[2..n + 2])] + Pieces(template[n + 4..])
      else [Literal(template[0])] + Pieces(template[1..])
  }

  function Filled(piece: Piece, variables: Variables): string {
    match piece
    case Literal(c) => [c]
    case Marker(key) => ValueOf(variables, key)
  }

  function FilledAll(pieces: seq<Piece>, variables: Variables): string {
    if pieces == [] then "" else Filled(pieces[0], variables) + FilledAll(pieces[1..], variables)
  }

  lemma {:induction false} WordIsMeasured(key: string, rest: string)
    requires forall k :: 0 <= k < |key| ==> IsWordChar(key[k])
    requires rest == "" || !IsWordChar(rest[0])
    ensures WordLength(key + rest) == |key|
  {
    if key != "" {
      assert (key + rest)[1..] == key[1..] + rest;
      WordIsMeasured(key[1..], rest);
    } else {
      assert key + rest == rest;
    }
  }

  /** A word between double braces at the start of a text is found, whatever follows. */
  lemma MarkerIsFound(key: string, rest: string)
    requires IsWord(key)
    ensures MarkerWord("{{" + key + "}}" + rest) == |key|
  {
    var s := "{{" + key + "}}" + rest;
    assert s[..2] == "{{";
    assert s[2..] == key + ("}}" + rest);
    WordIsMeasured(key, "}}" + rest);
    assert s[|key| + 2..] == "}}" + rest;
    assert ("}}" + rest)[..2] == "}}";
  }

  /** The first piece, and those behind it. */
  lemma PiecesOneStep(template: string, n: nat)
    requires template != "" && n == MarkerWord(template)
    ensures n > 0 ==> Pieces(template) == [Marker(template[2..n + 2])] + Pieces(template[n + 4..])
    ensures n == 0 ==> Pieces(template) == [Literal(template[0])] + Pieces(template[1..])
  {
  }

  lemma SourceOfOneMore(piece: Piece, pieces: seq<Piece>)
    ensures SourceOf([piece] + pieces) == Source(piece) + SourceOf(pieces)
  {
    assert ([piece] + pieces)[1..] == pieces;
  }

  lemma MarkerSource(template: string, n: nat)
    requires n > 0 && n == MarkerWord(template)
    ensures template == Source(Marker(template[2..n + 2])) + template[n + 4..]
  {
    assert template[..n + 4] == "{{" + template[2..n + 2] + "}}";
  }

  lemma {:induction false} PiecesSpellTheTemplate(template: string)
    ensures SourceOf(Pieces(template)) == template
    decreases |template|
  {
    if template == "" {
    } else {
      var n := MarkerWord(template);
      PiecesOneStep(template, n);
      if n > 0 {
        PiecesSpellTheTemplate(template[n + 4..]);
        SourceOfOneMore(Marker(template[2..n + 2]), Pieces(template[n + 4..]));
        MarkerSource(template, n);
      } else {
        PiecesSpellTheTemplate(template[1..]);
        SourceOfOneMore(Literal(template[0]), Pieces(template[1..]));
        assert template == [template[0]] + template[1..];
      }
    }
  }

  lemma {:induction false} PiecesAreParsed(template: string)
    ensures Parsed(Pieces(template))
    decreases |template|
  {
    if template == "" {
    } else {
      var n := MarkerWord(template);
      if n > 0 {
        PiecesAreParsed(template[n + 4..]);
        var key := template[2..n + 2];
        forall k | 0 <= k < |key| ensures IsWordChar(key[k]) {
          assert key[k] == template[k + 2];
        }
      } else {
        PiecesAreParsed(template[1..]);
        PiecesSpellTheTemplate(template);
      }
    }
  }

  /** The split of a template into literals and markers is the only possible one. */
  lemma {:induction false} PiecesAreUnique(pieces: seq<Piece>)
    requires Parsed(pieces)
    ensures Pieces(SourceOf(pieces)) == pieces
  {
    if pieces == [] {
    } else {
      var rest := SourceOf(pieces[1..]);
      PiecesAreUnique(pieces[1..]);
      if pieces[0].Marker? {
        MarkerOnTop(pieces[0].key, rest);
      } else {
        assert SourceOf(pieces)[1..] == rest;
      }
      assert pieces == [pieces[0]] + pieces[1..];
    }
  }

  lemma MarkerOnTop(key: string, rest: string)
    requires IsWord(key)
    ensures Pieces("{{" + key + "}}" + rest) == [Marker(key)] + Pieces(rest)
  {
    MarkerIsFound(key, rest);
    MarkerParts(key, rest);
  }

  lemma MarkerParts(key: string, rest: string)
    ensures var s := "{{" + key + "}}" + rest;
            s != "" && s[2..|key| + 2] == key && s[|key| + 4..] == rest
  {
  }

  /** The first marker that cannot be filled, if there is one. */
  function FirstThrowing(pieces: seq<Piece>, variables: Variables): Option<string> {
    if pieces == [] then None
    else if pieces[0].Marker? && Throws(variables, pieces[0].key) then Some(pieces[0].key)
    else FirstThrowing(pieces[1..], variables)
  }

  lemma {:induction false} NoneThrows(pieces: seq<Piece>, variables: Variables)
    ensures FirstThrowing(pieces, variables).None? <==>
            forall i :: 0 <= i < |pieces| && pieces[i].Marker? ==> !Throws(variables, pieces[i].key)
  {
    if pieces == [] {
    } else {
      NoneThrows(pieces[1..], variables);
      assert forall i :: 0 < i < |pieces| ==> pieces[i] == pieces[1..][i - 1];
    }
  }

  /**
   * The page is the template's own pieces in order, each marker filled with its escaped value once;
   * a marker inside a value is never expanded, because the pieces do not depend on the values. Rendering throws
   * exactly if some marker has an inherited name that was not given, and then at the first such marker.
   */
  lemma {:induction false} RenderFillsPieces(template: string, variables: Variables)
    ensures RenderTemplate(template, variables) ==
            var throwing := FirstThrowing(Pieces(template), variables);
            if throwing.Some? then Err(NotAText(throwing.value)) else Ok(FilledAll(Pieces(template), variables))
    decreases |template|
  {
    if template == "" {
    } else {
      var n := MarkerWord(template);
      var pieces := Pieces(template);
      if n > 0 {
        assert pieces[1..] == Pieces(template[n + 4..]);
        RenderFillsPieces(template[n + 4..], variables);
      } else {
        assert pieces[1..] == Pieces(template[1..]);
        RenderFillsPieces(template[1..], variables);
      }
    }
  }

  /** A page comes out exactly if every marker's name is given or not inherited. */
  lemma PageComesOut(template: string, variables: Variables)
    ensures RenderTemplate(template, variables).Ok? <==>
            var pieces := Pieces(template);
            forall i :: 0 <= i < |pieces| && pieces[i].Marker? ==> pieces[i].key in variables || !IsInherited(pieces[i].key)
  {
    RenderFillsPieces(template, variables);
    NoneThrows(Pieces(template), variables);
  }

  lemma {:induction false} MarkersHaveNoMarkup(template: string, n: nat)
    requires n > 0 && n == MarkerWord(template)
    ensures Markup(template[..n + 4]) == ""
  {
    var s := template[..n + 4];
    forall k | 0 <= k < |s| ensures !IsMarkup(s[k]) {
      assert s == "{{" + template[2..n + 2] + "}}";
    }
    NoMarkupWithout(s);
  }

  /** No value can add, remove or move a tag or a quote: the markup of the page is the markup of the template. */
  lemma {:induction false} PageMarkupIsTemplateMarkup(template: string, variables: Variables)
    ensures RenderTemplate(template, variables).Ok? ==> Markup(RenderTemplate(template, variables).value) == Markup(template)
    decreases |template|
  {
    if template == "" {
    } else if RenderTemplate(template, variables).Ok? {
      var n := MarkerWord(template);
      if n > 0 {
        MarkerMarkup(template, variables, n);
        PageMarkupIsTemplateMarkup(template[n + 4..], variables);
      } else {
        var page := RenderTemplate(template, variables).value;
        assert page[1..] == RenderTemplate(template[1..], variables).value;
        PageMarkupIsTemplateMarkup(template[1..], variables);
      }
    }
  }

  /** One step of the rendering. */
  lemma RenderOneMarker(template: string, n: nat, key: string, rest: string, variables: Variables)
    requires n > 0 && n == MarkerWord(template) && key == template[2..n + 2] && rest == template[n + 4..]
    ensures RenderTemplate(template, variables) ==
            if Throws(variables, key) then Err(NotAText(key))
            else Prefixed(ValueOf(variables, key), RenderTemplate(rest, variables))
  {
  }

  lemma ValueHasNoMarkup(variables: Variables, key: string)
    ensures Markup(ValueOf(variables, key)) == ""
  {
    if key in variables {
      EscapedHasNoMarkup(variables[key]);
    }
  }

  lemma PrefixedMarkup(value: string, tail: Result<string, RenderError>)
    requires Markup(value) == "" && tail.Ok?
    ensures Prefixed(value, tail).Ok? && Markup(Prefixed(value, tail).value) == Markup(tail.value)
  {
    MarkupOfJoined(value, tail.value);
  }

  lemma MarkerMarkup(template: string, variables: Variables, n: nat)
    requires n > 0 && n == MarkerWord(template) && RenderTemplate(template, variables).Ok?
    ensures RenderTemplate(template[n + 4..], variables).Ok?
    ensures Markup(RenderTemplate(template, variables).value) == Markup(RenderTemplate(template[n + 4..], variables).value)
    ensures Markup(template) == Markup(template[n + 4..])
  {
    var key, rest := template[2..n + 2], template[n + 4..];
    RenderOneMarker(template, n, key, rest, variables);
    ValueHasNoMarkup(variables, key);
    PrefixedMarkup(ValueOf(variables, key), RenderTemplate(rest, variables));
    MarkersHaveNoMarkup(template, n);
    assert template == template[..n + 4] + rest;
    MarkupOfJoined(template[..n + 4], rest);
  }

  lemma EmptyPrefix(r: Result<string, RenderError>)
    ensures Prefixed("", r) == r
  {
    assert r.Ok? ==> "" + r.value == r.value;
  }

  lemma MarkerRenders(key: string, rest: string, variables: Variables)
    requires IsWord(key)
    ensures RenderTemplate("{{" + key + "}}" + rest, variables) ==
            if Throws(variables, key) then Err(NotAText(key))
            else Prefixed(ValueOf(variables, key), RenderTemplate(rest, variables))
  {
    MarkerIsFound(key, rest);
    MarkerParts(key, rest);
    RenderOneMarker("{{" + key + "}}" + rest, |key|, key, rest, variables);
  }

  /** What a reader sees of a marker is exactly the value that was given, whatever it contains, or nothing. */
  lemma MarkerShowsItsValue(key: string, rest: string, variables: Variables)
    requires IsWord(key)
    ensures var page, tail := RenderTemplate("{{" + key + "}}" + rest, variables), RenderTemplate(rest, variables);
            if key in variables then exists shown :: Decode(shown) == variables[key] && page == Prefixed(shown, tail)
            else if IsInherited(key) then page == Err(NotAText(key))
            else page == tail
  {
    MarkerRenders(key, rest, variables);
    if key in variables {
      DecodeUndoesEscape(variables[key]);
    } else {
      EmptyPrefix(RenderTemplate(rest, variables));
    }
  }
}
