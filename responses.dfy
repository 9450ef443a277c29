/**
 * The response builders: a fixed status per builder, the text/plain header
 * of the text response, the `Location` header and optional body of the
 * created response, and the problem-details body of the validation response.
 * A JSON body is kept as the payload that would be serialised.
 */
module Responses {
  import opened DotNet
  import opened RouteTemplates

  const OK: int := 200
  const Created: int := 201
  const NoContent: int := 204
  const BadRequest: int := 400
  const NotFound: int := 404

  const TextPlain := "text/plain; charset=utf-8"

  /** The title a validation problem carries unless another is supplied. */
  const DefaultValidationTitle := "One or more validation errors occurred."

  datatype Header = Header(name: string, value: string)

  /** The problem-details document of a validation failure. */
  datatype ProblemDetails = ProblemDetails(
    title: string,
    status: Option<int>,
    detail: Option<string>,
    instance: Option<string>,
    problemType: Option<string>,
    errors: map<string, seq<string>>)

  datatype Body<+P> =
    | NoBody
    | TextBody(content: string)
    | JsonBody(payload: P)
    | ProblemBody(problem: ProblemDetails)
  {
    predicate HasBody() { !NoBody? }
  }

  datatype Response<+P> = Response(status: int, headers: seq<Header>, body: Body<P>)

  /** The empty 204 response. */
  function NoContentResponse<P>(): (r: Response<P>)
    ensures r.status == 204 && r.headers == [] && !r.body.HasBody()
  {
    Response(NoContent, [], NoBody)
  }

  /** A 200 response whose body is the given text, marked as plain text. */
  function OkResponse<P>(content: string): (r: Response<P>)
    ensures r.status == 200
    ensures r.headers == [Header("Content-Type", "text/plain; charset=utf-8")]
    ensures r.body.TextBody? && r.body.content == content
  {
    Response(OK, [Header("Content-Type", TextPlain)], TextBody(content))
  }

  /** A 200 response whose body is the payload serialised as JSON. */
  function OkObjectResponse<P>(data: P): (r: Response<P>)
    ensures r.status == 200 && r.headers == []
    ensures r.body.JsonBody? && r.body.payload == data
  {
    Response(OK, [], JsonBody(data))
  }

  /** The empty 404 response. */
  function NotFoundResponse<P>(): (r: Response<P>)
    ensures r.status == 404 && r.headers == [] && !r.body.HasBody()
  {
    Response(NotFound, [], NoBody)
  }

  /** The 201 response for a newly created resource. The pieces of the URL are
      collected part by part over the template's segments, then joined with
      "/"; the payload becomes the body only when there is one. */
  method CreatedAtResponse<P>(template: RouteTemplate, values: RouteValues, data: Option<P>)
    returns (r: Response<P>)
    ensures r.status == 201
    ensures r.headers == [Header("Location", LocationUrl(template, values))]
    ensures r.body.HasBody() <==> data.Some?
    ensures data.Some? ==> r.body == JsonBody(data.value)
  {
    var urlBits: seq<string> := [];
    urlBits := urlBits + [""];
    urlBits := urlBits + ["api"];

    for i := 0 to |template|
      invariant urlBits == ["", "api"] + Texts(PiecesOf(Parts(template[..i]), values))
    {
      var segment := template[i];
      ghost var before := Parts(template[..i]);
      assert before + segment.parts[..0] == before;
      for j := 0 to |segment.parts|
        invariant urlBits == ["", "api"] + Texts(PiecesOf(before + segment.parts[..j], values))
      {
        var part := segment.parts[j];
        ghost var collected := urlBits;
        ghost var literal := if IsLiteral(part) then [part.text.value] else [];
        ghost var found := if IsFoundParameter(part, values) then [values[part.name.value]] else [];
        if IsLiteral(part) {
          urlBits := urlBits + [part.text.value];
        }
        assert urlBits == collected + literal;
        ghost var withLiteral := urlBits;
        if IsFoundParameter(part, values) {
          urlBits := urlBits + [values[part.name.value]];
        }
        assert urlBits == withLiteral + found;
        PartStep(["", "api"], before, segment.parts, j, values);
      }
      assert segment.parts[..|segment.parts|] == segment.parts;
      PartsAppend(template, i);
    }
    assert template[..|template|] == template;

    var url := Join("/", urlBits);
    r := Response(Created, [Header("Location", url)], NoBody);
    if data.Some? {
      r := r.(body := JsonBody(data.value));
    }
  }

  /** The 400 response carrying a validation problem: detail, instance, type
      and status are copied from the arguments; the default title is replaced
      only by a supplied title that is not blank. */
  function ValidationResponse<P>(
    errors: map<string, seq<string>>,
    detail: Option<string>,
    instance: Option<string>,
    statusCode: Option<int>,
    title: Option<string>,
    problemType: Option<string>): (r: Response<P>)
    ensures r.status == 400 && r.headers == [] && r.body.ProblemBody?
    ensures var p := r.body.problem;
      && p.errors == errors && p.detail == detail && p.instance == instance
      && p.status == statusCode && p.problemType == problemType
    ensures IsNullOrWhiteSpace(title) ==> r.body.problem.title == "One or more validation errors occurred."
    ensures !IsNullOrWhiteSpace(title) ==> r.body.problem.title == title.value
    ensures !IsNullOrWhiteSpace(Some(r.body.problem.title))
  {
    assert !IsWhiteSpace(DefaultValidationTitle[0]);
    var problem := ProblemDetails(DefaultValidationTitle, statusCode, detail, instance, problemType, errors);
    var problem := if !IsNullOrWhiteSpace(title) then problem.(title := title.value) else problem;
    Response(BadRequest, [], ProblemBody(problem))
  }
}
