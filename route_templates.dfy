/**
 * The URL that `CreatedAtResponse` puts in the `Location` header, as a
 * specification: a parsed route template (segments of parts, each part with
 * an optional literal text and an optional parameter name), the route values
 * as a map, the pieces the builder collects, and the URL those pieces make
 * once joined with "/".
 */
module RouteTemplates {
  import opened DotNet

  /** One part of a parsed template segment: a literal (`Text`) or a
      parameter (`Name`); either may be null. */
  datatype TemplatePart = TemplatePart(text: Option<string>, name: Option<string>)

  /** A path segment (between two slashes) and its parts, in order. */
  datatype TemplateSegment = TemplateSegment(parts: seq<TemplatePart>)

  type RouteTemplate = seq<TemplateSegment>

  /** Route values by parameter name. */
  type RouteValues = map<string, string>

  /** What one template part contributes to the URL, tagged by its origin. */
  datatype Piece = Literal(text: string) | Value(name: string, value: string)
  {
    function Text(): string
    {
      match this
      case Literal(t) => t
      case Value(_, v) => v
    }
  }

  /** A part whose literal text is neither null nor white space. */
  predicate IsLiteral(part: TemplatePart)
  {
    !IsNullOrWhiteSpace(part.text)
  }

  /** A part naming a parameter for which a route value is supplied. */
  predicate IsFoundParameter(part: TemplatePart, values: RouteValues)
  {
    !IsNullOrWhiteSpace(part.name) && part.name.value in values
  }

  /** Every part of the template, segment after segment. */
  function Parts(template: RouteTemplate): seq<TemplatePart>
  {
    if template == [] then []
    else Parts(template[..|template| - 1]) + template[|template| - 1].parts
  }

  /** The pieces one part contributes: its text if it is a literal, then the
      route value of its parameter if that value is supplied. */
  function PartPieces(part: TemplatePart, values: RouteValues): seq<Piece>
  {
    (if IsLiteral(part) then [Literal(part.text.value)] else [])
    + (if IsFoundParameter(part, values) then [Value(part.name.value, values[part.name.value])] else [])
  }

  /** The pieces of a run of parts, in order. */
  function PiecesOf(parts: seq<TemplatePart>, values: RouteValues): seq<Piece>
  {
    if parts == [] then []
    else PiecesOf(parts[..|parts| - 1], values) + PartPieces(parts[|parts| - 1], values)
  }

  function Texts(pieces: seq<Piece>): seq<string>
  {
    seq(|pieces|, i requires 0 <= i < |pieces| => pieces[i].Text())
  }

  /** The URL pieces: an empty first piece (so that the join starts with a
      slash), then "api", then the pieces of the template. */
  function UrlPieces(template: RouteTemplate, values: RouteValues): seq<string>
  {
    ["", "api"] + Texts(PiecesOf(Parts(template), values))
  }

  /** The `Location` URL: the pieces joined with "/". */
  function LocationUrl(template: RouteTemplate, values: RouteValues): string
  {
    Join("/", UrlPieces(template, values))
  }

  // Reference definitions, read off the template alone.

  /** The non-blank literal texts of the parts, in order. */
  function Literals(parts: seq<TemplatePart>): seq<string>
  {
    if parts == [] then []
    else
      var last := parts[|parts| - 1];
      Literals(parts[..|parts| - 1]) + (if IsLiteral(last) then [last.text.value] else [])
  }

  /** The supplied values of the parts' parameters, in order. */
  function FoundValues(parts: seq<TemplatePart>, values: RouteValues): seq<string>
  {
    if parts == [] then []
    else
      var last := parts[|parts| - 1];
      FoundValues(parts[..|parts| - 1], values)
      + (if IsFoundParameter(last, values) then [values[last.name.value]] else [])
  }

  /** The texts of the literal pieces, in order. */
  function LiteralTexts(pieces: seq<Piece>): seq<string>
  {
    if pieces == [] then []
    else
      var last := pieces[|pieces| - 1];
      LiteralTexts(pieces[..|pieces| - 1]) + (if last.Literal? then [last.text] else [])
  }

  /** The values of the value pieces, in order. */
  function ValueTexts(pieces: seq<Piece>): seq<string>
  {
    if pieces == [] then []
    else
      var last := pieces[|pieces| - 1];
      ValueTexts(pieces[..|pieces| - 1]) + (if last.Value? then [last.value] else [])
  }

  /** A literal piece is never blank; a value piece is the route value
      supplied under its name. */
  predicate WellFormedPiece(p: Piece, values: RouteValues)
  {
    match p
    case Literal(t) => !IsNullOrWhiteSpace(Some(t))
    case Value(n, v) => n in values && values[n] == v
  }

  // Lemmas

  lemma TextsAppend(a: seq<Piece>, b: seq<Piece>)
    ensures Texts(a + b) == Texts(a) + Texts(b)
  {
  }

  lemma {:induction false} FilterAppend(a: seq<Piece>, b: seq<Piece>)
    ensures LiteralTexts(a + b) == LiteralTexts(a) + LiteralTexts(b)
    ensures ValueTexts(a + b) == ValueTexts(a) + ValueTexts(b)
    decreases |b|
  {
    if b == [] {
      assert a + b == a;
    } else {
      var b' := b[..|b| - 1];
      assert (a + b)[..|a + b| - 1] == a + b';
      FilterAppend(a, b');
    }
  }

  lemma PartsAppend(template: RouteTemplate, i: nat)
    requires i < |template|
    ensures Parts(template[..i + 1]) == Parts(template[..i]) + template[i].parts
  {
    assert template[..i + 1][..i] == template[..i];
  }

  lemma PiecesAppend(parts: seq<TemplatePart>, part: TemplatePart, values: RouteValues)
    ensures PiecesOf(parts + [part], values) == PiecesOf(parts, values) + PartPieces(part, values)
  {
    assert (parts + [part])[..|parts|] == parts;
  }

  /** One more part of a segment adds its non-blank literal text, then its
      supplied parameter value, to the texts collected so far (after any
      fixed `prefix`). */
  lemma PartStep(prefix: seq<string>, before: seq<TemplatePart>, parts: seq<TemplatePart>, j: nat, values: RouteValues)
    requires j < |parts|
    ensures var part := parts[j];
      prefix + Texts(PiecesOf(before + parts[..j + 1], values))
      == prefix + Texts(PiecesOf(before + parts[..j], values))
         + (if IsLiteral(part) then [part.text.value] else [])
         + (if IsFoundParameter(part, values) then [values[part.name.value]] else [])
  {
    assert parts[..j + 1] == parts[..j] + [parts[j]];
    assert before + parts[..j + 1] == (before + parts[..j]) + [parts[j]];
    PiecesAppend(before + parts[..j], parts[j], values);
    TextsAppend(PiecesOf(before + parts[..j], values), PartPieces(parts[j], values));
  }

  /** The literal pieces of the URL are exactly the non-blank literal texts of
      the template, in template order, whatever the route values; the value
      pieces are exactly the supplied values of the named parameters, in
      order; nothing else is contributed. */
  lemma {:induction false} PiecesSplitByOrigin(parts: seq<TemplatePart>, values: RouteValues)
    ensures LiteralTexts(PiecesOf(parts, values)) == Literals(parts)
    ensures ValueTexts(PiecesOf(parts, values)) == FoundValues(parts, values)
    ensures |PiecesOf(parts, values)| == |Literals(parts)| + |FoundValues(parts, values)|
  {
    if parts != [] {
      var init, last := parts[..|parts| - 1], parts[|parts| - 1];
      PiecesSplitByOrigin(init, values);
      FilterAppend(PiecesOf(init, values), PartPieces(last, values));
      var lit := if IsLiteral(last) then [Literal(last.text.value)] else [];
      var val := if IsFoundParameter(last, values) then [Value(last.name.value, values[last.name.value])] else [];
      FilterAppend(lit, val);
      assert LiteralTexts(val) == [] by { if val != [] { assert val[..0] == []; } }
      assert ValueTexts(lit) == [] by { if lit != [] { assert lit[..0] == []; } }
      assert LiteralTexts(lit) == (if IsLiteral(last) then [last.text.value] else []) by {
        if lit != [] { assert lit[..0] == []; }
      }
      assert ValueTexts(val) == (if IsFoundParameter(last, values) then [values[last.name.value]] else []) by {
        if val != [] { assert val[..0] == []; }
      }
    }
  }

  /** Every piece is well formed: blank literal text contributes nothing, and a
      parameter whose name has no route value contributes no piece at all
      (so no empty segment appears for it). */
  lemma {:induction false} PiecesWellFormed(parts: seq<TemplatePart>, values: RouteValues)
    ensures forall k :: 0 <= k < |PiecesOf(parts, values)| ==> WellFormedPiece(PiecesOf(parts, values)[k], values)
  {
    if parts != [] {
      var init, last := parts[..|parts| - 1], parts[|parts| - 1];
      PiecesWellFormed(init, values);
      var ps := PiecesOf(parts, values);
      assert ps == PiecesOf(init, values) + PartPieces(last, values);
      forall k | 0 <= k < |ps| ensures WellFormedPiece(ps[k], values) {
        if k >= |PiecesOf(init, values)| {
          assert ps[k] in PartPieces(last, values);
        }
      }
    }
  }

  /** When none of the parameters has a route value, the template pieces are
      the literal texts alone. */
  lemma {:induction false} NoValuesOnlyLiterals(parts: seq<TemplatePart>, values: RouteValues)
    requires forall k :: 0 <= k < |parts| ==> !IsFoundParameter(parts[k], values)
    ensures Texts(PiecesOf(parts, values)) == Literals(parts)
  {
    if parts != [] {
      var init, last := parts[..|parts| - 1], parts[|parts| - 1];
      NoValuesOnlyLiterals(init, values);
      TextsAppend(PiecesOf(init, values), PartPieces(last, values));
    }
  }

  /** The URL has two pieces ("" and "api") plus one per non-blank literal
      plus one per supplied parameter value. */
  lemma UrlPieceCount(template: RouteTemplate, values: RouteValues)
    ensures |UrlPieces(template, values)|
         == 2 + |Literals(Parts(template))| + |FoundValues(Parts(template), values)|
  {
    PiecesSplitByOrigin(Parts(template), values);
  }

  /** The URL always starts with "/api"; anything after it follows a
      further slash. */
  lemma LocationStartsWithApi(template: RouteTemplate, values: RouteValues)
    ensures var rest := Texts(PiecesOf(Parts(template), values));
      LocationUrl(template, values)
      == "/api" + (if rest == [] then "" else "/" + Join("/", rest))
  {
    var rest := Texts(PiecesOf(Parts(template), values));
    var ps := UrlPieces(template, values);
    assert ps[1..] == ["api"] + rest;
    assert (["api"] + rest)[1..] == rest;
    assert Join("/", ps) == "" + "/" + Join("/", ["api"] + rest);
    if rest == [] {
      assert Join("/", ["api"] + rest) == "api";
    } else {
      assert Join("/", ["api"] + rest) == "api" + "/" + Join("/", rest);
    }
  }
}
