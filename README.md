# Todo API: response builder and route handlers

A Dafny model of the Todo HTTP API, a serverless function app backed by a
document-store repository. It covers two pieces:

- **The response builder** (`src/HttpRequestDataExtensions.cs`). Each builder
  gives a fixed status code:
  - no-content gives 204 and not-found gives 404;
  - the text response gives 200 with a `text/plain; charset=utf-8` header;
  - the object response gives 200 with a JSON body;
  - the validation response gives 400 with a problem-details body;
  - the created response gives 201 with a `Location` header.

  The `Location` URL is built from the target route's parsed template. The
  pieces are an empty piece, then `api`, then for each template part its
  non-blank literal text and the route value of its parameter (when one is
  supplied). The pieces are then joined with `/`.
- **The route handlers** (class `Functions` in `src/Program.cs`). They list,
  find, create, replace, mark complete or incomplete, and delete todos. The
  store is a `map` from document id to `Todo` held in a field of the class.
  Each handler is a method that returns the response and updates the map.

Files:

- `dotnet.dfy` (module `DotNet`): nullable values as `Option`, and
  `char.IsWhiteSpace` with the exact .NET character set.
  - It also has `string.IsNullOrWhiteSpace` and `string.Join`.
  - It adds a `Split` that undoes `Join`.
- `route_templates.dfy` (module `RouteTemplates`): templates as segments of
  parts, route values as `map<string, string>`, and the URL pieces as a
  specification. It also holds the lemmas about them.
- `responses.dfy` (module `Responses`): the `Response` datatype and the
  builders. `CreatedAtResponse` is a method with the same nested loops over
  segments and parts as the C# method.
- `todo_api.dfy` (module `TodoApi`): the `Todo` record, validation, the
  store transitions, the find route's template, and the class `Functions`.

Two details of the code are worth stating plainly:

- A parameter with no supplied route value adds no piece at all, so no empty
  segment appears (`PiecesWellFormed`).
- The handlers pass no status code, so the problem's `status` is null
  (`None`); the response is created with status 400.

## Model

| member | source | states |
|---|---|---|
| `DotNet.Join` | src/HttpRequestDataExtensions.cs:99 | Joining nothing gives the empty string; otherwise the joined string starts with its first piece |
| `DotNet.SplitJoin` | src/HttpRequestDataExtensions.cs:99 | If no piece contains the one-character separator, splitting the joined string at that separator gives the pieces back |
| `RouteTemplates.PartStep` | src/HttpRequestDataExtensions.cs:84-95 | Each part adds its text when that text is not null or white space, then the route value of its parameter when the name is a key of the route values, in that order |
| `RouteTemplates.PiecesSplitByOrigin` | src/HttpRequestDataExtensions.cs:82-97 | The literal pieces are exactly the template's non-blank literal texts, in template order, whatever the route values; the value pieces are exactly the supplied parameter values, in order; the piece count is the sum of the two |
| `RouteTemplates.PiecesWellFormed` | src/HttpRequestDataExtensions.cs:86-95 | Every literal piece is non-blank; every value piece is the route value under a name that is a key of the route values, so a missing parameter adds no (empty) piece |
| `RouteTemplates.NoValuesOnlyLiterals` | src/HttpRequestDataExtensions.cs:91-95 | When no parameter has a supplied value, the template contributes only its non-blank literal texts |
| `RouteTemplates.UrlPieceCount` | src/HttpRequestDataExtensions.cs:77-99 | The URL has 2 + (non-blank literals) + (found parameters) pieces |
| `RouteTemplates.LocationStartsWithApi` | src/HttpRequestDataExtensions.cs:77-99 | The Location URL is "/api", followed by "/" and the joined template pieces when there are any |
| `Responses.NoContentResponse` | src/HttpRequestDataExtensions.cs:15 | Status 204, no headers, no body |
| `Responses.OkResponse` | src/HttpRequestDataExtensions.cs:23-29 | Status 200, a `Content-Type: text/plain; charset=utf-8` header, the text as body |
| `Responses.OkObjectResponse` | src/HttpRequestDataExtensions.cs:38-43 | Status 200 with the payload as JSON body |
| `Responses.NotFoundResponse` | src/HttpRequestDataExtensions.cs:50 | Status 404, no headers, no body |
| `Responses.CreatedAtResponse` | src/HttpRequestDataExtensions.cs:61-109 | Status 201; the only header is `Location` with the URL of the template and route values; a body exactly when a payload is given, and that body is the payload |
| `Responses.ValidationResponse` | src/HttpRequestDataExtensions.cs:122-146 | Status 400 with a problem body. Errors, detail, instance, type and status are copied from the arguments. The title is the supplied one when it is not blank, otherwise the default. The title is never blank |
| `TodoApi.ValidationErrors` | src/Program.cs:152-153 | A body has no validation errors exactly when its title is present and not white space; otherwise the only error is one message under `Title` |
| `TodoApi.Where` | src/Program.cs:39 | A query returns exactly the stored todos that satisfy the predicate |
| `TodoApi.Inserted` | src/Program.cs:74 | Create adds the todo under its own id and keeps every other entry; the id-keying invariant is preserved |
| `TodoApi.Replaced` | src/Program.cs:94-97 | Put keeps the keys and the stored id, takes title and completion from the input, and keeps every other entry |
| `TodoApi.WithCompletion` | src/Program.cs:105-108 | A mark keeps the keys, the id and the title, sets the completion flag, and keeps every other entry |
| `TodoApi.Removed` | src/Program.cs:131-133 | Delete removes exactly that key and keeps every other entry |
| `TodoApi.FindByIdLocation` | src/Program.cs:75 | The Location of a created todo, built from the find route `todos/{id:guid}` and `{id = x}`, is "/api/todos/" + x |
| `TodoApi.CreatedLocationResolves` | src/Program.cs:75 | Split at its slashes, the Location text of a created todo is "", "api", "todos" and the todo's id |
| `TodoApi.PostThenFind` | src/Program.cs:42-76 | A valid create of a new id answers 201 whose Location splits into "", "api", "todos" and the id; a find of that id then answers 200 with the posted todo |
| `TodoApi.ListingsPartition` | src/Program.cs:52-62 | The complete and incomplete listings are disjoint, and together they are the full listing |
| `TodoApi.MarkIdempotent` | src/Program.cs:102-113 | Marking a todo twice gives the same store as marking it once |
| `TodoApi.Functions.constructor` | src/Program.cs:19-22 | The handlers hold the given repository, every document stored under its own id |
| `TodoApi.Functions.Root` | src/Program.cs:24-28 | GET /text answers 200 with the text "Hello World!" and the header `Content-Type: text/plain; charset=utf-8` |
| `TodoApi.Functions.HelloJson` | src/Program.cs:30-34 | GET /hello answers 200 with the JSON object `{ Hello = "World" }` |
| `TodoApi.Functions.Todos` | src/Program.cs:36-40 | Answers 200 with exactly the stored todos; the store is not in its frame, so it is unchanged |
| `TodoApi.Functions.TodosFindById` | src/Program.cs:42-50 | Answers 200 with the stored todo when the id is a key, else the not-found response (404, no headers, no body); the store is unchanged |
| `TodoApi.Functions.TodosComplete` | src/Program.cs:52-56 | Answers 200 with exactly the stored todos that are complete; the store is unchanged |
| `TodoApi.Functions.TodosInComplete` | src/Program.cs:58-62 | Answers 200 with exactly the stored todos that are not complete; the store is unchanged |
| `TodoApi.Functions.TodosPost` | src/Program.cs:64-76 | A body without a title answers the validation response and changes nothing. An id already stored makes the create throw, with no change. Otherwise the todo is added under its id and the answer is 201 with Location "/api/todos/" + id and the todo as body |
| `TodoApi.Functions.TodosPut` | src/Program.cs:78-100 | Validation comes first: an invalid body answers 400 with no change, even for an absent id. A valid body with an absent id answers 404 with no change. Otherwise only title and completion of that todo change, and the answer is 204 |
| `TodoApi.Functions.TodosMarkComplete` | src/Program.cs:102-113 | For a present id only its completion flag becomes true, and the answer is 204; for an absent id the answer is 404 with no change |
| `TodoApi.Functions.TodosMarkIncomplete` | src/Program.cs:115-126 | For a present id only its completion flag becomes false, and the answer is 204; for an absent id the answer is 404 with no change |
| `TodoApi.Functions.TodosDelete` | src/Program.cs:128-138 | For a present id exactly that key is removed, and the answer is 204; for an absent id the answer is 404 with no change. Afterwards the id is not a key, so a find answers 404 |
| `TodoApi.Functions.TodosDeleteAll` | src/Program.cs:140-145 | Always throws "not implemented yet"; the store is not in its frame, so it is unchanged |

## Left out

- Host construction, dependency injection and `RunAsync` (src/Program.cs:3-13) are runtime plumbing.
- The lookup of the target function by reflection, its trigger's route, and `TemplateParser.Parse` are framework calls. `CreatedAtResponse` takes the parsed template instead, and `TodoApi.FindByIdTemplate` is the parse of `todos/{id:guid}`. The `:guid` constraint is checked by the framework before the handler runs, so it is not modelled.
- `RouteValueDictionary` compares keys without regard to case. The model looks keys up exactly. The only key used (`id`) is written the same way in the route and the handler.
- JSON serialisation and deserialisation are library I/O. A JSON body is kept as the payload it would serialise. The model takes writing a JSON body to leave the response's status as created (201 for `CreatedAtResponse`, 400 for `ValidationResponse`, src/HttpRequestDataExtensions.cs:105,144). The `Content-Type` header that the serialiser adds is not modelled.
- A request body that deserialises to null is not modelled; every handler is given a `Todo`.
- `MinimalValidation.TryValidate` and `[Required]` are a library. `HasTitle` gives the rule for a required string: not null and not white space only. The wording of the error message is the library's default, written here as one fixed string.
- The repository's persistence, query translation and id generation are a library. The store is a map and ids are given with the body.
- Ids are assumed to be canonical lower-case GUID strings, as new documents get them. The handlers turn the route's parsed `Guid` into that form before each lookup (src/Program.cs:45,88,105,118,131); that normalisation is not modelled. A body id in another form (upper case, or not a GUID at all) would, in the code, give a Location that misses the `{id:guid}` route or the stored document; the model does not capture that.
- `TodoApi.Functions.TodosPost`: a create under an id the store already holds is modelled as the document store's conflict exception, which escapes the handler. That behaviour belongs to the repository library, not to this repository's code.
- `TodoApi.Functions.Todos`, `TodoApi.Functions.TodosComplete`, `TodoApi.Functions.TodosInComplete`: the listing is returned as a set. The order in which the store yields documents is not modelled. No two stored todos are equal, because each sits under its own id.
- Other exceptions from the store, and the 500 response the host makes of them, are not modelled.
- Async/await and runtime parallelism are not modelled; the model is sequential.
