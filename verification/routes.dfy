/**
 * The five route handlers, each a pure function from its inputs (configuration, URL segment,
 * form body, and the reply the backend gave) to an `Exchange`: the one backend request the
 * handler issues, if any, and the HTTP response it sends.
 */
module Routes {
  import opened Wrappers
  import opened JsValues
  import opened UpdateExpression
  import opened Backend
  import opened Papers

  /** What a view is rendered with: the paper list of `index`, the paper of `update`. */
  datatype ViewData = PaperList(papers: seq<Item>) | PaperForm(paper: Item)

  /** `res.status(code).send(message)`, `res.redirect(location)` or `res.render(view, data)`. */
  datatype Response =
    | Status(code: int, message: string)
    | Redirect(location: string)
    | Render(view: string, data: ViewData)

  datatype Exchange = Exchange(request: Option<Request>, response: Response)

  const Home: string := "/"
  const ListFailed: string := "Internal Server Error: Could not fetch papers."
  const FieldsRequired: string := "Bad request: All fields are required."
  const AddFailed: string := "Internal Server Error: Could not add paper."
  const InvalidPaperId: string := "Invalid Paper ID"
  const PaperNotFound: string := "Paper not found."
  const FetchFailed: string := "Internal Server Error: Could not fetch paper details."
  const InvalidCourseId: string := "Invalid Course ID in URL."
  const UpdateFailed: string := "Internal Server Error: Could not update course."
  const DeleteFailed: string := "Internal Server Error: Could not delete paper."

  /** `GET /`: scan the table and list what came back; a missing `Items` lists nothing. */
  function ListPapers(cfg: Config, reply: Reply): (x: Exchange)
    ensures x.request == Some(Scan(cfg.tableName))
    ensures reply.Rejected? <==> x.response == Status(500, ListFailed)
    ensures reply.Resolved? ==> x.response.Render? && x.response.view == "index" && x.response.data.PaperList?
    ensures reply.Resolved? && reply.items.None? ==> x.response.data.papers == []
    ensures reply.Resolved? && reply.items.Some? ==> x.response.data.papers == reply.items.value
  {
    var response :=
      match reply
      case Rejected => Status(500, ListFailed)
      case Resolved(items, _) => Render("index", PaperList(items.GetOr([])));
    Exchange(Some(Scan(cfg.tableName)), response)
  }

  /** `POST /add`: reject a form missing any of the six fields, otherwise put the coerced paper. */
  function AddPaper(cfg: Config, body: Form, reply: Reply): (x: Exchange)
    ensures x.request.None? <==> exists f :: f in PaperFields && !Truthy(Field(body, f))
    ensures x.request.None? ==> x.response == Status(400, FieldsRequired)
    ensures x.request.Some? ==>
      && x.request.value.Put?
      && x.request.value.table == cfg.tableName
      && ReadPaper(x.request.value.item) == PaperFromForm(body)
      && x.request.value.item.Keys == set f | f in PaperFields
    ensures x.request.Some? ==> (x.response == Redirect(Home) <==> reply.Resolved?)
    ensures x.request.Some? && reply.Rejected? ==> x.response == Status(500, AddFailed)
  {
    match PaperFromForm(body)
    case None => Exchange(None, Status(400, FieldsRequired))
    case Some(p) =>
      ReadPaperItem(p);
      Exchange(Some(Put(cfg.tableName, PaperItem(p))),
               if reply.Rejected? then Status(500, AddFailed) else Redirect(Home))
  }

  /** `GET /update/:paper_id`: a non-numeric id is answered 500 without a backend call; otherwise
      the paper is fetched by `paper_id` and rendered, or 404 when the reply has no `Item`. */
  function ShowUpdateForm(cfg: Config, paperIdParam: string, reply: Reply): (x: Exchange)
    ensures x.request.None? <==> IsNaN(ToNumber(paperIdParam))
    ensures x.request.None? ==> x.response == Status(500, InvalidPaperId)
    ensures x.request.Some? ==> x.request.value == Get(cfg.tableName, Key("paper_id", ToNumber(paperIdParam)))
    ensures x.request.Some? ==>
      match reply
      case Rejected => x.response == Status(500, FetchFailed)
      case Resolved(_, None) => x.response == Status(404, PaperNotFound)
      case Resolved(_, Some(item)) => x.response == Render("update", PaperForm(item))
  {
    var id := ToNumber(paperIdParam);
    if IsNaN(id) then
      Exchange(None, Status(500, InvalidPaperId))
    else
      var response :=
        match reply
        case Rejected => Status(500, FetchFailed)
        case Resolved(_, None) => Status(404, PaperNotFound)
        case Resolved(_, Some(item)) => Render("update", PaperForm(item));
      Exchange(Some(Get(cfg.tableName, Key("paper_id", id))), response)
  }

  /** `POST /update/:id`: a non-numeric id is answered 400; a form with no truthy candidate field
      redirects home; otherwise the built instruction is sent, keyed on the attribute `id`. */
  function UpdateCourse(cfg: Config, idParam: string, body: Form, reply: Reply): (x: Exchange)
    ensures IsNaN(ToNumber(idParam)) ==> x == Exchange(None, Status(400, InvalidCourseId))
    ensures !IsNaN(ToNumber(idParam)) && BuildUpdate(body).None? ==> x == Exchange(None, Redirect(Home))
    ensures x.request.Some? <==> !IsNaN(ToNumber(idParam)) && exists c :: c in Candidates && Truthy(Field(body, c.field))
    ensures x.request.Some? ==>
      && x.request.value.Update?
      && x.request.value.table == cfg.tableName
      && x.request.value.key == Key("id", ToNumber(idParam))
      && Some(x.request.value.instruction) == BuildUpdate(body)
      && ParseSet(x.request.value.instruction.expression) == Some(Clauses(Qualifying(body, Candidates)))
    ensures x.request.Some? ==> (x.response == Redirect(Home) <==> reply.Resolved?)
    ensures x.request.Some? && reply.Rejected? ==> x.response == Status(500, UpdateFailed)
  {
    var id := ToNumber(idParam);
    if IsNaN(id) then
      Exchange(None, Status(400, InvalidCourseId))
    else
      match BuildUpdate(body)
      case None => Exchange(None, Redirect(Home))
      case Some(instruction) =>
        Exchange(Some(Update(cfg.tableName, Key("id", id), instruction)),
                 if reply.Rejected? then Status(500, UpdateFailed) else Redirect(Home))
  }

  /** `POST /delete`: a missing or empty `paper_id` redirects home without a backend call;
      otherwise the paper keyed by `Number(paper_id)` is deleted. */
  function DeletePaper(cfg: Config, body: Form, reply: Reply): (x: Exchange)
    ensures x.request.None? <==> !Truthy(Field(body, "paper_id"))
    ensures x.request.None? ==> x.response == Redirect(Home)
    ensures x.request.Some? ==> x.request.value == Delete(cfg.tableName, Key("paper_id", ToNumber(body["paper_id"])))
    ensures x.request.Some? ==> (x.response == Redirect(Home) <==> reply.Resolved?)
    ensures x.request.Some? && reply.Rejected? ==> x.response == Status(500, DeleteFailed)
  {
    var paperId := Field(body, "paper_id");
    if !Truthy(paperId) then
      Exchange(None, Redirect(Home))
    else
      Exchange(Some(Delete(cfg.tableName, Key("paper_id", ToNumber(paperId.value)))),
               if reply.Rejected? then Status(500, DeleteFailed) else Redirect(Home))
  }

  /** The routes the application serves, with what each handler reads from the request. */
  datatype Route =
    | ListRoute
    | AddRoute(body: Form)
    | ShowUpdateRoute(paperIdParam: string)
    | UpdateRoute(idParam: string, body: Form)
    | DeleteRoute(body: Form)

  function Handle(cfg: Config, route: Route, reply: Reply): Exchange {
    match route
    case ListRoute => ListPapers(cfg, reply)
    case AddRoute(body) => AddPaper(cfg, body, reply)
    case ShowUpdateRoute(paperIdParam) => ShowUpdateForm(cfg, paperIdParam, reply)
    case UpdateRoute(idParam, body) => UpdateCourse(cfg, idParam, body, reply)
    case DeleteRoute(body) => DeletePaper(cfg, body, reply)
  }

  // ----- Properties across the handlers -----

  /** Whatever the route, a backend call that fails is answered with status 500. */
  lemma BackendFailureIsServerError(cfg: Config, route: Route)
    ensures Handle(cfg, route, Rejected).request.Some? ==>
      Handle(cfg, route, Rejected).response.Status? && Handle(cfg, route, Rejected).response.code == 500
  {
  }

  /** The request a handler issues is decided before the backend answers, and when it issues
      none its response cannot depend on a reply. */
  lemma RequestPrecedesReply(cfg: Config, route: Route, reply1: Reply, reply2: Reply)
    ensures Handle(cfg, route, reply1).request == Handle(cfg, route, reply2).request
    ensures Handle(cfg, route, reply1).request.None? ==> Handle(cfg, route, reply1) == Handle(cfg, route, reply2)
  {
  }

  /** A write (create, update or delete) that the backend accepts ends with a redirect home. */
  lemma AcceptedWritesRedirectHome(cfg: Config, route: Route, items: Option<seq<Item>>, item: Option<Item>)
    requires route.AddRoute? || route.UpdateRoute? || route.DeleteRoute?
    requires Handle(cfg, route, Resolved(items, item)).request.Some?
    ensures Handle(cfg, route, Resolved(items, item)).response == Redirect(Home)
  {
  }

  /** Every request goes to the configured table. */
  lemma RequestsUseConfiguredTable(cfg: Config, route: Route, reply: Reply)
    ensures Handle(cfg, route, reply).request.Some? ==> Handle(cfg, route, reply).request.value.table == cfg.tableName
  {
  }

  // ----- Inconsistencies of the handlers as written -----

  /** The edit form fetches by the attribute `paper_id`, but the update it submits to writes
      to the attribute `id`: for the same id the two requests address different keys. */
  lemma EditAndUpdateAddressDifferentKeys(cfg: Config, id: string, body: Form, reply1: Reply, reply2: Reply)
    requires ShowUpdateForm(cfg, id, reply1).request.Some?
    requires UpdateCourse(cfg, id, body, reply2).request.Some?
    ensures ShowUpdateForm(cfg, id, reply1).request.value.key.attribute == "paper_id"
    ensures UpdateCourse(cfg, id, body, reply2).request.value.key.attribute == "id"
    ensures ShowUpdateForm(cfg, id, reply1).request.value.key != UpdateCourse(cfg, id, body, reply2).request.value.key
  {
  }

  /** A non-numeric id is a server error (500) on the edit form but a client error (400) on update. */
  lemma InvalidIdStatusesDiffer(cfg: Config, id: string, body: Form, reply: Reply)
    requires IsNaN(ToNumber(id))
    ensures ShowUpdateForm(cfg, id, reply).response.code == 500
    ensures UpdateCourse(cfg, id, body, reply).response.code == 400
  {
  }

  /** Create never checks the coerced id: a complete form with a non-numeric `paper_id` is put
      with a NaN key. */
  lemma AddAcceptsNaNId(cfg: Config, body: Form, reply: Reply)
    requires forall f :: f in PaperFields ==> Truthy(Field(body, f))
    requires "paper_id" in body && IsNaN(ToNumber(body["paper_id"]))
    ensures AddPaper(cfg, body, reply).request.Some?
    ensures AddPaper(cfg, body, reply).request.value.item["paper_id"] == Number(NaN)
  {
    ReadPaperItem(PaperFromForm(body).value);
  }

  /** Form values are strings, and the string "0" is truthy: a page count of zero is accepted
      and stored as the number 0. */
  lemma AddAcceptsZeroPages(cfg: Config, body: Form, reply: Reply)
    requires forall f :: f in PaperFields && f != "page_number" ==> Truthy(Field(body, f))
    requires "page_number" in body && body["page_number"] == "0"
    ensures AddPaper(cfg, body, reply).request.Some?
    ensures AddPaper(cfg, body, reply).request.value.item["page_number"] == Number(Num(0))
  {
    assert PaperFromForm(body).Some? by {
      assert PaperFields[0] == "paper_id" && PaperFields[1] == "paper_name" && PaperFields[2] == "authors";
      assert PaperFields[3] == "isbn" && PaperFields[5] == "publish_year";
      AllFieldsTruthy(body);
    }
    assert PaperFromForm(body).value.pageNumber == Num(0) by {
      DecimalRoundTrip(0);
    }
  }

  /** A `paper_id` of blanks is truthy, and `Number` makes it 0: deletion goes to key 0. */
  lemma BlankDeleteTargetsZero(cfg: Config, body: Form, reply: Reply)
    requires "paper_id" in body && body["paper_id"] != []
    requires forall i :: 0 <= i < |body["paper_id"]| ==> body["paper_id"][i] == ' '
    ensures DeletePaper(cfg, body, reply).request == Some(Delete(cfg.tableName, Key("paper_id", Num(0))))
  {
    TrimStartOfBlank(body["paper_id"]);
  }
}
