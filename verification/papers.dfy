/**
 * The paper record: its six attributes, how the create handler builds it from a form, and how it
 * is laid out as a stored item.
 */
module Papers {
  import opened Wrappers
  import opened JsValues
  import opened Backend

  /** A paper as the create handler writes it. The three numeric attributes hold whatever
      `Number(...)` made of the form text, NaN included. */
  datatype Paper = Paper(
    paperId: JsNumber,
    paperName: string,
    authors: string,
    isbn: string,
    pageNumber: JsNumber,
    publishYear: JsNumber)

  /** The form fields the create handler requires, in the order it tests them. */
  const PaperFields: seq<string> := ["paper_id", "paper_name", "authors", "isbn", "page_number", "publish_year"]

  /** The item written for a paper: the numeric attributes as numbers, the rest as strings. */
  function PaperItem(p: Paper): Item {
    map[
      "paper_id" := Number(p.paperId),
      "paper_name" := Str(p.paperName),
      "authors" := Str(p.authors),
      "isbn" := Str(p.isbn),
      "page_number" := Number(p.pageNumber),
      "publish_year" := Number(p.publishYear)
    ]
  }

  /** Reads a paper back from a stored item; None when an attribute is missing or of the wrong kind. */
  function ReadPaper(item: Item): Option<Paper> {
    if && "paper_id" in item && item["paper_id"].Number?
       && "paper_name" in item && item["paper_name"].Str?
       && "authors" in item && item["authors"].Str?
       && "isbn" in item && item["isbn"].Str?
       && "page_number" in item && item["page_number"].Number?
       && "publish_year" in item && item["publish_year"].Number?
    then Some(Paper(item["paper_id"].n, item["paper_name"].s, item["authors"].s, item["isbn"].s,
                    item["page_number"].n, item["publish_year"].n))
    else None
  }

  /** The stored layout loses nothing: reading the item of a paper gives the paper back, and the
      item holds exactly the six paper attributes. */
  lemma ReadPaperItem(p: Paper)
    ensures ReadPaper(PaperItem(p)) == Some(p)
    ensures PaperItem(p).Keys == set f | f in PaperFields
  {
  }

  /** Validation and coercion of the `/add` form: every one of the six fields must be truthy;
      the id, page count and year go through `Number`, the other three are copied verbatim. */
  function PaperFromForm(body: Form): (r: Option<Paper>)
    ensures r.Some? <==> forall f :: f in PaperFields ==> Truthy(Field(body, f))
    ensures r.Some? ==> && "paper_id" in body && "paper_name" in body && "authors" in body
                        && "isbn" in body && "page_number" in body && "publish_year" in body
                        && r.value.paperId == ToNumber(body["paper_id"])
                        && r.value.paperName == body["paper_name"]
                        && r.value.authors == body["authors"]
                        && r.value.isbn == body["isbn"]
                        && r.value.pageNumber == ToNumber(body["page_number"])
                        && r.value.publishYear == ToNumber(body["publish_year"])
  {
    var paperId := Field(body, "paper_id");
    var paperName := Field(body, "paper_name");
    var authors := Field(body, "authors");
    var isbn := Field(body, "isbn");
    var pageNumber := Field(body, "page_number");
    var publishYear := Field(body, "publish_year");
    AllFieldsTruthy(body);
    if !Truthy(paperId) || !Truthy(paperName) || !Truthy(authors) || !Truthy(isbn)
       || !Truthy(pageNumber) || !Truthy(publishYear)
    then None
    else Some(Paper(ToNumber(paperId.value), paperName.value, authors.value, isbn.value,
                    ToNumber(pageNumber.value), ToNumber(publishYear.value)))
  }

  lemma AllFieldsTruthy(body: Form)
    ensures (forall f :: f in PaperFields ==> Truthy(Field(body, f))) <==>
      && Truthy(Field(body, "paper_id")) && Truthy(Field(body, "paper_name"))
      && Truthy(Field(body, "authors")) && Truthy(Field(body, "isbn"))
      && Truthy(Field(body, "page_number")) && Truthy(Field(body, "publish_year"))
  {
    assert PaperFields[0] == "paper_id" && PaperFields[1] == "paper_name" && PaperFields[2] == "authors";
    assert PaperFields[3] == "isbn" && PaperFields[4] == "page_number" && PaperFields[5] == "publish_year";
  }
}
