/**
 * The route handlers of the Todo API over a document store. The store is a
 * map from document id to Todo; every handler is one request against it,
 * answered with one of the response builders (or an exception that
 * propagates to the host).
 */
module TodoApi {
  import opened DotNet
  import opened RouteTemplates
  import opened Responses

  /** A document id: the canonical (lower-case) string form of a GUID, as
      the route's GUID is turned into a string and as new documents get
      their ids. */
  type Id = string

  /** A todo document: its id, its (possibly null) title, and whether it is
      complete. */
  datatype Todo = Todo(id: Id, title: Option<string>, isComplete: bool)

  /** What a JSON body carries. */
  datatype Payload =
    | Greeting(hello: string)
    | OneTodo(todo: Todo)
    | TodoList(todos: set<Todo>)

  /** An exception that escapes a handler to the host. */
  datatype Fault =
    | NotImplemented(message: string)
    | Conflict(id: Id)

  /** How a handler that can throw ends. */
  datatype Outcome =
    | Responded(response: Response<Payload>)
    | Threw(fault: Fault)

  type Store = map<Id, Todo>

  /** Every document is stored under its own id. */
  predicate KeyedById(db: Store)
  {
    forall id :: id in db ==> db[id].id == id
  }

  // Validation of a request body

  /** The `[Required]` rule on `Title`: present and not white space only. */
  predicate HasTitle(todo: Todo)
  {
    !IsNullOrWhiteSpace(todo.title)
  }

  /** The validation errors of a body, by member name. */
  function ValidationErrors(todo: Todo): (errors: map<string, seq<string>>)
    ensures errors == map[] <==> HasTitle(todo)
    ensures !HasTitle(todo) ==> errors.Keys == {"Title"} && |errors["Title"]| == 1
  {
    if HasTitle(todo) then map[]
    else
      var errors := map["Title" := ["The Title field is required."]];
      assert "Title" in errors.Keys;
      errors
  }

  // The store, as seen by one handler

  /** The documents that satisfy a query predicate. */
  function Where(db: Store, keep: Todo -> bool): (r: set<Todo>)
    ensures forall t :: t in r <==> t in db.Values && keep(t)
  {
    set id | id in db && keep(db[id]) :: db[id]
  }

  predicate Any(t: Todo) { true }
  predicate IsDone(t: Todo) { t.isComplete }
  predicate IsOpen(t: Todo) { !t.isComplete }

  /** The store after a create: the todo under its own id, nothing else
      touched. */
  function Inserted(db: Store, todo: Todo): (r: Store)
    ensures r.Keys == db.Keys + {todo.id} && r[todo.id] == todo
    ensures forall id :: id in db && id != todo.id ==> r[id] == db[id]
    ensures KeyedById(db) ==> KeyedById(r)
  {
    db[todo.id := todo]
  }

  /** The store after a replace: title and completion taken from the input,
      id kept, every other document untouched. */
  function Replaced(db: Store, id: Id, input: Todo): (r: Store)
    requires id in db
    ensures r.Keys == db.Keys
    ensures r[id].id == db[id].id && r[id].title == input.title && r[id].isComplete == input.isComplete
    ensures forall k :: k in db && k != id ==> r[k] == db[k]
    ensures KeyedById(db) ==> KeyedById(r)
  {
    db[id := db[id].(title := input.title, isComplete := input.isComplete)]
  }

  /** The store after a mark: only the completion flag of one document
      changes. */
  function WithCompletion(db: Store, id: Id, done: bool): (r: Store)
    requires id in db
    ensures r.Keys == db.Keys
    ensures r[id].id == db[id].id && r[id].title == db[id].title && r[id].isComplete == done
    ensures forall k :: k in db && k != id ==> r[k] == db[k]
    ensures KeyedById(db) ==> KeyedById(r)
  {
    db[id := db[id].(isComplete := done)]
  }

  /** The store after a delete: one key fewer, nothing else touched. */
  function Removed(db: Store, id: Id): (r: Store)
    ensures r.Keys == db.Keys - {id}
    ensures forall k :: k in r ==> r[k] == db[k]
    ensures KeyedById(db) ==> KeyedById(r)
  {
    db - {id}
  }

  // Routes

  /** The parsed route of the find handler, `todos/{id:guid}`: a literal
      segment, then a segment holding the `id` parameter. */
  const FindByIdTemplate: RouteTemplate :=
    [ TemplateSegment([TemplatePart(Some("todos"), None)]),
      TemplateSegment([TemplatePart(None, Some("id"))]) ]

  /** The Location of a created todo is `/api/todos/<id>`. */
  lemma FindByIdLocation(id: Id)
    ensures LocationUrl(FindByIdTemplate, map["id" := id]) == "/api/todos/" + id
  {
    var values := map["id" := id];
    var todos, param := TemplatePart(Some("todos"), None), TemplatePart(None, Some("id"));
    assert !IsWhiteSpace("todos"[0]);
    assert !IsWhiteSpace("id"[0]);
    assert Parts(FindByIdTemplate[..1]) == [todos] by {
      assert FindByIdTemplate[..1][..0] == [];
    }
    assert Parts(FindByIdTemplate) == [todos, param] by {
      assert FindByIdTemplate[..1] == FindByIdTemplate[..|FindByIdTemplate| - 1];
    }
    assert PiecesOf([todos], values) == [Literal("todos")] by {
      assert [todos][..0] == [];
    }
    assert PiecesOf([todos, param], values) == [Literal("todos"), Value("id", id)] by {
      assert [todos, param][..1] == [todos];
    }
    assert Texts([Literal("todos"), Value("id", id)]) == ["todos", id];
    LocationStartsWithApi(FindByIdTemplate, values);
    assert Join("/", ["todos", id]) == "todos" + "/" + id by {
      assert ["todos", id][1..] == [id];
    }
  }

  /** The text of the Location of a created todo, split at its slashes, is
      the find route's path with the todo's id as its last segment. */
  lemma CreatedLocationResolves(todo: Todo)
    requires '/' !in todo.id
    ensures Split(LocationUrl(FindByIdTemplate, map["id" := todo.id]), '/') == ["", "api", "todos", todo.id]
  {
    FindByIdLocation(todo.id);
    var pieces := ["", "api", "todos", todo.id];
    assert Join("/", pieces[2..]) == "todos" + "/" + todo.id by {
      assert pieces[2..][1..] == [todo.id];
    }
    assert Join("/", pieces[1..]) == "api" + "/" + ("todos" + "/" + todo.id) by {
      assert pieces[1..][1..] == pieces[2..];
    }
    assert Join("/", pieces) == "/api/todos/" + todo.id;
    assert "/" == ['/'];
    SplitJoin(pieces, '/');
  }

  /** The two filtered listings partition the full listing. */
  lemma ListingsPartition(db: Store)
    ensures Where(db, IsDone) + Where(db, IsOpen) == Where(db, Any)
    ensures Where(db, IsDone) * Where(db, IsOpen) == {}
  {
  }

  /** Marking twice is marking once. */
  lemma MarkIdempotent(db: Store, id: Id, done: bool)
    requires id in db
    ensures WithCompletion(WithCompletion(db, id, done), id, done) == WithCompletion(db, id, done)
  {
  }

  /** The handlers, holding the document store they share. */
  class Functions {
    var db: Store

    ghost predicate Valid()
      reads this
    {
      KeyedById(db)
    }

    constructor (repository: Store)
      requires KeyedById(repository)
      ensures Valid() && db == repository
    {
      db := repository;
    }

    /** GET /text */
    method Root() returns (r: Response<Payload>)
      ensures r.status == 200 && r.body == TextBody("Hello World!")
      ensures r.headers == [Header("Content-Type", "text/plain; charset=utf-8")]
    {
      r := OkResponse("Hello World!");
    }

    /** GET /hello */
    method HelloJson() returns (r: Response<Payload>)
      ensures r.status == 200 && r.body == JsonBody(Greeting("World"))
    {
      r := OkObjectResponse(Greeting("World"));
    }

    /** GET /todos: every stored todo. */
    method Todos() returns (r: Response<Payload>)
      requires Valid()
      ensures r.status == 200 && r.body.JsonBody? && r.body.payload.TodoList?
      ensures forall t :: t in r.body.payload.todos <==> t in db.Values
    {
      r := OkObjectResponse(TodoList(Where(db, Any)));
    }

    /** GET /todos/{id}: the stored todo, or 404. */
    method TodosFindById(id: Id) returns (r: Response<Payload>)
      ensures id in db ==> r.status == 200 && r.body == JsonBody(OneTodo(db[id]))
      ensures id !in db ==> r == NotFoundResponse()
    {
      if id in db {
        var todo := db[id];
        r := OkObjectResponse(OneTodo(todo));
        return;
      }
      r := NotFoundResponse();
    }

    /** GET /todos/complete: exactly the complete todos. */
    method TodosComplete() returns (r: Response<Payload>)
      requires Valid()
      ensures r.status == 200 && r.body.JsonBody? && r.body.payload.TodoList?
      ensures forall t :: t in r.body.payload.todos <==> t in db.Values && t.isComplete
    {
      r := OkObjectResponse(TodoList(Where(db, IsDone)));
    }

    /** GET /todos/incomplete: exactly the incomplete todos. */
    method TodosInComplete() returns (r: Response<Payload>)
      requires Valid()
      ensures r.status == 200 && r.body.JsonBody? && r.body.payload.TodoList?
      ensures forall t :: t in r.body.payload.todos <==> t in db.Values && !t.isComplete
    {
      r := OkObjectResponse(TodoList(Where(db, IsOpen)));
    }

    /** POST /todos: validate, then create; 201 with the Location of the find
        route. The store refuses a second document with an id it already
        holds, and that exception escapes the handler. */
    method TodosPost(todo: Todo) returns (o: Outcome)
      requires Valid()
      modifies this
      ensures Valid()
      ensures !HasTitle(todo) ==>
        && db == old(db)
        && o == Responded(ValidationResponse(ValidationErrors(todo), None, None, None, None, None))
      ensures HasTitle(todo) && todo.id in old(db) ==>
        db == old(db) && o == Threw(Conflict(todo.id))
      ensures HasTitle(todo) && todo.id !in old(db) ==>
        && db == Inserted(old(db), todo)
        && o.Responded? && o.response.status == 201
        && o.response.headers == [Header("Location", "/api/todos/" + todo.id)]
        && o.response.body == JsonBody(OneTodo(todo))
    {
      var errors := ValidationErrors(todo);
      if errors != map[] {
        o := Responded(ValidationResponse(errors, None, None, None, None, None));
        return;
      }
      if todo.id in db {
        o := Threw(Conflict(todo.id));
        return;
      }
      db := db[todo.id := todo];
      var r := CreatedAtResponse(FindByIdTemplate, map["id" := todo.id], Some(OneTodo(todo)));
      FindByIdLocation(todo.id);
      o := Responded(r);
    }

    /** PUT /todos/{id}: validate first, then look up; replace title and
        completion of the stored todo. */
    method TodosPut(id: Id, input: Todo) returns (r: Response<Payload>)
      requires Valid()
      modifies this
      ensures Valid()
      ensures !HasTitle(input) ==>
        db == old(db) && r == ValidationResponse(ValidationErrors(input), None, None, None, None, None)
      ensures HasTitle(input) && id !in old(db) ==> db == old(db) && r == NotFoundResponse()
      ensures HasTitle(input) && id in old(db) ==>
        db == Replaced(old(db), id, input) && r == NoContentResponse()
    {
      var errors := ValidationErrors(input);
      if errors != map[] {
        r := ValidationResponse(errors, None, None, None, None, None);
        return;
      }
      if id !in db {
        r := NotFoundResponse();
        return;
      }
      var todo := db[id];
      todo := todo.(title := input.title);
      todo := todo.(isComplete := input.isComplete);
      db := db[todo.id := todo];
      r := NoContentResponse();
    }

    /** PUT /todos/{id}/mark-complete */
    method TodosMarkComplete(id: Id) returns (r: Response<Payload>)
      requires Valid()
      modifies this
      ensures Valid()
      ensures id in old(db) ==> db == WithCompletion(old(db), id, true) && r == NoContentResponse()
      ensures id !in old(db) ==> db == old(db) && r == NotFoundResponse()
    {
      if id in db {
        var todo := db[id];
        todo := todo.(isComplete := true);
        db := db[todo.id := todo];
        r := NoContentResponse();
        return;
      }
      r := NotFoundResponse();
    }

    /** PUT /todos/{id}/mark-incomplete */
    method TodosMarkIncomplete(id: Id) returns (r: Response<Payload>)
      requires Valid()
      modifies this
      ensures Valid()
      ensures id in old(db) ==> db == WithCompletion(old(db), id, false) && r == NoContentResponse()
      ensures id !in old(db) ==> db == old(db) && r == NotFoundResponse()
    {
      if id in db {
        var todo := db[id];
        todo := todo.(isComplete := false);
        db := db[todo.id := todo];
        r := NoContentResponse();
        return;
      }
      r := NotFoundResponse();
    }

    /** DELETE /todos/{id} */
    method TodosDelete(id: Id) returns (r: Response<Payload>)
      requires Valid()
      modifies this
      ensures Valid()
      ensures id in old(db) ==> db == Removed(old(db), id) && r == NoContentResponse()
      ensures id !in old(db) ==> db == old(db) && r == NotFoundResponse()
      ensures id !in db
    {
      if id in db {
        var todo := db[id];
        db := db - {todo.id};
        r := NoContentResponse();
        return;
      }
      r := NotFoundResponse();
    }

    /** DELETE /todos/delete-all: not implemented; always throws, and (having
        no frame) cannot touch the store. */
    method TodosDeleteAll() returns (o: Outcome)
      ensures o.Threw? && o.fault == NotImplemented("not implemented yet")
    {
      o := Threw(NotImplemented("not implemented yet"));
    }
  }

  /** A create followed by a find of the id in its Location: the find answers
      200 with the very todo that was posted. */
  method PostThenFind(f: Functions, todo: Todo) returns (created: Outcome, found: Response<Payload>)
    requires f.Valid() && HasTitle(todo) && todo.id !in f.db && '/' !in todo.id
    modifies f
    ensures f.Valid() && f.db == Inserted(old(f.db), todo)
    ensures created.Responded? && created.response.status == 201
    ensures created.response.headers == [Header("Location", LocationUrl(FindByIdTemplate, map["id" := todo.id]))]
    ensures Split(created.response.headers[0].value, '/') == ["", "api", "todos", todo.id]
    ensures found.status == 200 && found.body == JsonBody(OneTodo(todo))
  {
    created := f.TodosPost(todo);
    FindByIdLocation(todo.id);
    CreatedLocationResolves(todo);
    found := f.TodosFindById(todo.id);
  }
}
