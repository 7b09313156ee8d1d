# Paper records service: route decision logic

A Dafny model of the request-decision logic of a small records service that keeps "paper"
records in a DynamoDB table behind five Express routes (`index.js`). Each route handler is
modelled as a pure function from its inputs to an `Exchange`: the single backend request the
handler issues, if any, and the HTTP response it sends (a status with a message, a redirect, or
a rendered view). The backend is not modelled; its reply is an input.

- `wrappers.dfy` (`Wrappers`): `Option`, for form fields and reply properties that may be absent.
- `js_values.dfy` (`JsValues`): the form body as a map of strings, JavaScript truthiness of a
  field, and `Number(...)` on a string (white space trimmed, empty string is 0, signed decimal
  integers, everything else NaN), with `Decimal`, the plain decimal rendering of an integer, which it inverts.
- `text.dfy` (`Text`): `Array.prototype.join` and a splitter that undoes it.
- `update_expression.dfy` (`UpdateExpression`): the partial-update expression builder of
  `POST /update/:id`. Its fields (`name`, `course_type`, `semester`, `department`) and their
  placeholder tags (`n`, `ct`, `s`, `d`) are the `Candidates` table; `Qualifying` (truthy
  candidates in candidate order) and the tables `NameTable` and `ValueTable` written for them are
  the independent references the builder is proved against.
- `backend.dfy` (`Backend`): the requests (scan, get, put, update, delete), keys, items and the
  reply of a backend call (rejected, or resolved with optional `Items` and `Item`).
- `papers.dfy` (`Papers`): the paper record, the validation and coercion of the `/add` form, and
  the stored item layout with a reader that inverts it.
- `routes.dfy` (`Routes`): the five handlers, a dispatcher over the routes, and lemmas across
  handlers, including ones that exhibit the inconsistencies of the code as written.

The code is modelled as written, including where it is inconsistent:
- `POST /update/:id` edits course fields and keys its update on the attribute `id`, while the edit
  form it belongs to fetches by `paper_id` (`Routes.EditAndUpdateAddressDifferentKeys`).
- A non-numeric id is a 500 on `GET /update/:paper_id` (index.js:93-95) and a 400 on
  `POST /update/:id` (index.js:127-129) (`Routes.InvalidIdStatusesDiffer`).
- `/add` never checks whether `Number(paper_id)` is NaN (`Routes.AddAcceptsNaNId`).

Further consequences of the code as written:
- A `page_number` or `publish_year` of "0" is a non-empty string, so it is truthy, passes the
  check at index.js:60 and is stored as the number 0 (`Routes.AddAcceptsZeroPages`).
- A field made only of blanks is truthy and `Number` turns it into 0, so `/delete` with such a
  `paper_id` deletes key 0 rather than doing nothing (`Routes.BlankDeleteTargetsZero`).

## Model

| member | source | states |
|---|---|---|
| JsValues.DecimalRoundTrip | index.js:67 | the model's `Number` applied to the decimal rendering of any integer gives that integer back, so every integer key written in decimal is read back unchanged |
| JsValues.ToNumberIgnoresPadding | index.js:91 | white space around a URL id or form value does not change the number `Number` makes of it |
| JsValues.TrimStart | index.js:91 | leading white space only is removed, leaving a suffix that does not start with white space |
| JsValues.TrimEnd | index.js:91 | trailing white space only is removed, leaving a prefix that does not end with white space |
| Text.SplitJoin | index.js:167 | splitting `parts.join(sep)` at `sep` recovers the parts whenever no part contains the separator's first character |
| UpdateExpression.QualifyingMembers | index.js:139-158 | the fields selected are exactly the candidates whose form value is truthy |
| UpdateExpression.Collect | index.js:136-158 | after the four tests, `updateParts` holds one clause per truthy candidate in candidate order, and the two placeholder objects are the ones written for exactly those candidates, in that order |
| UpdateExpression.TablesSnoc | index.js:139-143 | one more truthy field appends its clause and writes its two placeholders on top of the entries already made |
| UpdateExpression.TableKeys | index.js:133-157 | the keys of `expressionAttributeNames` and `expressionAttributeValues` are exactly the name and value placeholders of the selected fields |
| UpdateExpression.NameEntries | index.js:142-157 | when tags are distinct, every selected field's name placeholder maps to its attribute name; no later write overwrites an earlier one |
| UpdateExpression.ValueEntries | index.js:141-156 | when tags are distinct, every selected field's value placeholder maps to the value submitted for that field |
| UpdateExpression.QualifyingWellFormed | index.js:139-158 | the selected fields keep the distinct, comma-free tags of the candidates, so the entries above never collide |
| UpdateExpression.BuildUpdate | index.js:132-167 | no instruction exactly when no candidate field is truthy; otherwise the expression reads back (after "SET ", split at ", ") as the clauses of the truthy fields in candidate order, and the names and values tables contain exactly their placeholders with the real attribute names and the submitted values |
| UpdateExpression.QualifyingInCandidateOrder | index.js:139-158 | clauses appear in the fixed order name, course_type, semester, department |
| UpdateExpression.BuildUpdateDependsOnlyOnCandidates | index.js:125-158 | two form bodies that agree on the four fields give the same instruction, whatever else they contain and in whatever order they were sent |
| UpdateExpression.PlaceholderTablesDisjoint | index.js:133-157 | attribute-name placeholders and value placeholders never collide |
| UpdateExpression.BuildUpdateExpression | index.js:161-167 | a non-empty instruction is "SET " followed by the clauses joined with ", " |
| UpdateExpression.BuildUpdateNameOnly | index.js:139-143 | a form with only `name` gives "SET #n = :n" with `#n` mapped to `name` and `:n` to the value |
| UpdateExpression.BuildUpdateAllFields | index.js:139-167 | a form with all four fields gives an expression whose clauses after "SET " are `#n = :n`, `#ct = :ct`, `#s = :s`, `#d = :d`, in that order |
| Papers.ReadPaperItem | index.js:66-73 | the stored item holds exactly the six paper attributes and reading it back gives the paper unchanged |
| Papers.PaperFromForm | index.js:57-73 | a paper is produced exactly when all six fields are truthy; id, page count and year are `Number` of the form text, name, authors and ISBN are copied verbatim |
| Papers.AllFieldsTruthy | index.js:60 | "every required field is truthy" is the six-way check of the handler |
| Routes.ListPapers | index.js:35-47 | always one scan; a rejected scan is a 500; a resolved one renders `index` with its `Items`, or with an empty list when `Items` is absent |
| Routes.AddPaper | index.js:55-84 | no put and a 400 exactly when some required field is falsy; otherwise one put on the configured table whose item has exactly the six paper attributes and reads back as the validated, coerced paper, then a redirect home, or a 500 if the put is rejected |
| Routes.ShowUpdateForm | index.js:90-115 | no backend call and a 500 exactly when the id is NaN; otherwise a get keyed `paper_id`, then 500 on rejection, 404 when the reply has no `Item`, and the `update` view with that item otherwise |
| Routes.UpdateCourse | index.js:123-193 | 400 without a call for a NaN id; a redirect without a call when no field is truthy; otherwise one update keyed `{id: Number(id)}` carrying the builder's instruction, then a redirect home, or 500 if rejected |
| Routes.DeletePaper | index.js:200-223 | no call and a redirect exactly when `paper_id` is missing or empty; otherwise one delete keyed `{paper_id: Number(paper_id)}`, then a redirect home, or 500 if rejected |
| Routes.BackendFailureIsServerError | index.js:40-223 | on every route, a backend call that fails is answered with status 500 |
| Routes.RequestPrecedesReply | index.js:35-223 | the request a handler issues does not depend on the backend's reply, and a handler that issues none answers the same whatever the reply |
| Routes.AcceptedWritesRedirectHome | index.js:76-219 | an accepted put, update or delete ends in a redirect to `/` |
| Routes.RequestsUseConfiguredTable | index.js:16-212 | every request addresses the configured table |
| Routes.EditAndUpdateAddressDifferentKeys | index.js:97-173 | for the same id, the edit form's get keys on `paper_id` and the update keys on `id`, so they address different keys |
| Routes.InvalidIdStatusesDiffer | index.js:93-128 | a non-numeric id is a 500 on the edit form and a 400 on the update |
| Routes.AddAcceptsNaNId | index.js:60-67 | a complete form with a non-numeric `paper_id` is put with a NaN `paper_id` |
| Routes.AddAcceptsZeroPages | index.js:60-71 | a page count of "0" passes validation and is stored as the number 0 |
| Routes.BlankDeleteTargetsZero | index.js:204-212 | a `paper_id` of blanks passes the check and deletes key 0 |

## Left out

- Express setup, middleware, static files, the view engine and `app.listen` (index.js:19-28, 227-229): framework plumbing with no decisions in it.
- AWS credentials, region, dotenv and the DocumentClient (index.js:1-16): backend calls are `Request` values and their outcomes `Reply` inputs; the table's own behaviour (a put then a get returning the item, idempotent delete, last writer wins between concurrent requests) is not modelled, so no create-then-read round trip through the store is stated.
- JsValues.ToNumber: only integer literals are modelled; decimal fractions, exponents, hexadecimal, octal and binary prefixes and "Infinity" become NaN here whereas JavaScript gives a number, `-0` is 0, and only the listed white-space characters are trimmed (not every Unicode space separator: U+1680, U+2000 to U+200A, U+202F, U+205F and U+3000 are not). Digit strings become their exact integer, whereas JavaScript `Number` rounds integers beyond 2^53 to the nearest double (so "9007199254740993" becomes 9007199254740992) and gives `Infinity` for digit strings beyond about 1.8e308.
- JsValues.Decimal: it is the plain digit rendering, not JavaScript `String(n)`, which switches to exponent form from 1e21; the app never renders numbers itself, so only the inverse property is used.
- Nested objects and arrays that `express.urlencoded({ extended: true })` builds from bracketed or repeated field names: form values are strings only.
- Attribute values read from the table other than strings and numbers: items are passed to the views unchanged, so their contents do not matter to the handlers.
- Logging and `console` output, the `ReturnValues` option and the commented-out `ConditionExpression` and its 404 (index.js:177-179, 189-191).
- Failures inside `res.render` or `res.redirect`, and the view templates themselves.
