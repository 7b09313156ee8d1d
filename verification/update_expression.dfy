/**
 * The partial-update expression builder of `POST /update/:id`: for every candidate form field
 * that is truthy, in a fixed order, it emits a clause `#x = :x` and records the placeholder
 * `#x` for the attribute name and `:x` for the new value in two separate tables; the clauses
 * are joined with ", " after "SET ". When no field qualifies there is no expression at all.
 */
module UpdateExpression {
  import opened Wrappers
  import opened JsValues
  import opened Text

  /** A field the builder may set: the form field, which is also the attribute name, and the
      tag its two placeholders are made from. */
  datatype Candidate = Candidate(field: string, tag: string)

  /** The candidates, in the order the handler tests them. */
  const Candidates: seq<Candidate> := [
    Candidate("name", "n"),
    Candidate("course_type", "ct"),
    Candidate("semester", "s"),
    Candidate("department", "d")
  ]

  const SetPrefix: string := "SET "
  const ClauseSeparator: string := ", "

  function NamePlaceholder(c: Candidate): string {
    "#" + c.tag
  }

  function ValuePlaceholder(c: Candidate): string {
    ":" + c.tag
  }

  function Clause(c: Candidate): string {
    NamePlaceholder(c) + " = " + ValuePlaceholder(c)
  }

  function Clauses(cs: seq<Candidate>): (r: seq<string>)
    ensures |r| == |cs|
  {
    if cs == [] then [] else [Clause(cs[0])] + Clauses(cs[1..])
  }

  /** Candidate tags are pairwise distinct and contain no comma, so placeholders never collide
      and clauses never contain the separator. */
  predicate WellFormed(cs: seq<Candidate>) {
    && (forall i, j :: 0 <= i < j < |cs| ==> cs[i].tag != cs[j].tag)
    && (forall i :: 0 <= i < |cs| ==> ',' !in cs[i].tag)
  }

  /** The candidates whose form field is truthy, in candidate order: the reference against
      which the builder is checked. */
  function Qualifying(body: Form, cs: seq<Candidate>): seq<Candidate> {
    if cs == [] then []
    else (if Truthy(Field(body, cs[0].field)) then [cs[0]] else []) + Qualifying(body, cs[1..])
  }

  /** What the handler has accumulated so far: `updateParts`, `expressionAttributeNames`,
      `expressionAttributeValues`. */
  datatype Pending = Pending(parts: seq<string>, names: map<string, string>, values: map<string, string>)

  /** The attribute-name placeholders of the candidates `q`. */
  function NameKeys(q: seq<Candidate>): set<string> {
    set c | c in q :: NamePlaceholder(c)
  }

  /** The value placeholders of the candidates `q`. */
  function ValueKeys(q: seq<Candidate>): set<string> {
    set c | c in q :: ValuePlaceholder(c)
  }

  /** The attribute-name table the handler builds for the candidates `q`, written in order. */
  function NameTable(q: seq<Candidate>): map<string, string>
    decreases |q|
  {
    if q == [] then map[]
    else NameTable(q[..|q| - 1])[NamePlaceholder(q[|q| - 1]) := q[|q| - 1].field]
  }

  /** The value table the handler builds for the candidates `q`, written in order. */
  function ValueTable(body: Form, q: seq<Candidate>): map<string, string>
    decreases |q|
  {
    if q == [] then map[]
    else ValueTable(body, q[..|q| - 1])[ValuePlaceholder(q[|q| - 1]) := Field(body, q[|q| - 1].field).GetOr("")]
  }

  /** The state after testing the candidates `cs` one after another, as the handler's sequence
      of `if` statements does: the clauses and both tables of exactly the qualifying candidates. */
  function Collect(body: Form, cs: seq<Candidate>): (p: Pending)
    ensures p.parts == Clauses(Qualifying(body, cs))
    ensures p.names == NameTable(Qualifying(body, cs))
    ensures p.values == ValueTable(body, Qualifying(body, cs))
    decreases |cs|
  {
    if cs == [] then Pending([], map[], map[])
    else
      var init := cs[..|cs| - 1];
      var c := cs[|cs| - 1];
      var prev := Collect(body, init);
      assert cs == init + [c];
      QualifyingSnoc(body, init, c);
      var v := Field(body, c.field);
      if Truthy(v) then
        TablesSnoc(body, Qualifying(body, init), c);
        Pending(prev.parts + [Clause(c)], prev.names[NamePlaceholder(c) := c.field], prev.values[ValuePlaceholder(c) := v.value])
      else
        assert Qualifying(body, init) + [] == Qualifying(body, init);
        prev
  }

  /** One more candidate appends its clause and writes its two placeholders. */
  lemma TablesSnoc(body: Form, q: seq<Candidate>, c: Candidate)
    ensures Clauses(q + [c]) == Clauses(q) + [Clause(c)]
    ensures NameTable(q + [c]) == NameTable(q)[NamePlaceholder(c) := c.field]
    ensures ValueTable(body, q + [c]) == ValueTable(body, q)[ValuePlaceholder(c) := Field(body, c.field).GetOr("")]
  {
    assert (q + [c])[..|q|] == q;
    ClausesAppend(q, [c]);
  }

  /** The keys of the two tables are exactly the placeholders of `q`. */
  lemma {:induction false} TableKeys(body: Form, q: seq<Candidate>)
    ensures NameTable(q).Keys == NameKeys(q)
    ensures ValueTable(body, q).Keys == ValueKeys(q)
    decreases |q|
  {
    if q != [] {
      var init := q[..|q| - 1];
      var last := q[|q| - 1];
      assert q == init + [last];
      TableKeys(body, init);
      KeysSnoc(init, last);
    }
  }

  /** With distinct tags, the name table maps each name placeholder of `q` to its candidate's
      attribute name: no later write overwrites an earlier one. */
  lemma {:induction false} NameEntries(q: seq<Candidate>)
    requires WellFormed(q)
    ensures forall c {:trigger c in q} :: c in q ==>
      NamePlaceholder(c) in NameTable(q) && NameTable(q)[NamePlaceholder(c)] == c.field
    decreases |q|
  {
    if q != [] {
      var init := q[..|q| - 1];
      var last := q[|q| - 1];
      assert q == init + [last];
      assert WellFormed(init);
      NameEntries(init);
      PlaceholdersDistinct(q);
      TablesSnoc(map[], init, last);
      forall c | c in q
        ensures NamePlaceholder(c) in NameTable(q) && NameTable(q)[NamePlaceholder(c)] == c.field
      {
        if c != last {
          assert c in init;
        }
      }
    }
  }

  /** With distinct tags and every candidate present in the form, the value table maps each
      value placeholder of `q` to the value submitted for its field. */
  lemma {:induction false} ValueEntries(body: Form, q: seq<Candidate>)
    requires WellFormed(q)
    requires forall c :: c in q ==> Field(body, c.field).Some?
    ensures forall c {:trigger c in q} :: c in q ==>
      ValuePlaceholder(c) in ValueTable(body, q) && Field(body, c.field) == Some(ValueTable(body, q)[ValuePlaceholder(c)])
    decreases |q|
  {
    if q != [] {
      var init := q[..|q| - 1];
      var last := q[|q| - 1];
      assert q == init + [last];
      assert WellFormed(init);
      ValueEntries(body, init);
      PlaceholdersDistinct(q);
      TablesSnoc(body, init, last);
      forall c | c in q
        ensures ValuePlaceholder(c) in ValueTable(body, q) && Field(body, c.field) == Some(ValueTable(body, q)[ValuePlaceholder(c)])
      {
        if c != last {
          assert c in init;
        }
      }
    }
  }

  lemma KeysSnoc(q: seq<Candidate>, c: Candidate)
    ensures NameKeys(q + [c]) == NameKeys(q) + {NamePlaceholder(c)}
    ensures ValueKeys(q + [c]) == ValueKeys(q) + {ValuePlaceholder(c)}
  {
    assert forall d :: d in q + [c] <==> d in q || d == c;
  }

  /** The arguments of the backend's update call that come from the form. */
  datatype UpdateInstruction = UpdateInstruction(expression: string, names: map<string, string>, values: map<string, string>)

  /** Reads an update expression back into its clauses; None when it lacks the "SET " prefix. */
  function ParseSet(expression: string): Option<seq<string>> {
    if |expression| >= |SetPrefix| && expression[..|SetPrefix|] == SetPrefix
    then Some(Split(expression[|SetPrefix|..], ClauseSeparator))
    else None
  }

  /** The builder: None when no candidate field is truthy (the handler then redirects without
      calling the backend), otherwise the expression with its two placeholder tables. */
  function BuildUpdate(body: Form): (r: Option<UpdateInstruction>)
    ensures r.None? <==> forall c :: c in Candidates ==> !Truthy(Field(body, c.field))
    ensures r.Some? ==> ParseSet(r.value.expression) == Some(Clauses(Qualifying(body, Candidates)))
    ensures r.Some? ==> r.value.names.Keys == NameKeys(Qualifying(body, Candidates))
    ensures r.Some? ==> r.value.values.Keys == ValueKeys(Qualifying(body, Candidates))
    ensures r.Some? ==> forall c {:trigger c in Qualifying(body, Candidates)} :: c in Qualifying(body, Candidates) ==>
      r.value.names[NamePlaceholder(c)] == c.field && Field(body, c.field) == Some(r.value.values[ValuePlaceholder(c)])
  {
    QualifyingMembers(body, Candidates);
    var p := Collect(body, Candidates);
    if |p.parts| == 0 then
      None
    else
      var q := Qualifying(body, Candidates);
      QualifyingTables(body);
      var expression := SetPrefix + Join(p.parts, ClauseSeparator);
      ClausesSeparable(q);
      SplitJoin(p.parts, ClauseSeparator);
      assert expression[|SetPrefix|..] == Join(p.parts, ClauseSeparator);
      Some(UpdateInstruction(expression, p.names, p.values))
  }

  /** The tables built for the qualifying candidates hold exactly their placeholders, mapped
      to the attribute names and to the submitted values. */
  lemma QualifyingTables(body: Form)
    ensures WellFormed(Qualifying(body, Candidates))
    ensures NameTable(Qualifying(body, Candidates)).Keys == NameKeys(Qualifying(body, Candidates))
    ensures ValueTable(body, Qualifying(body, Candidates)).Keys == ValueKeys(Qualifying(body, Candidates))
    ensures forall c {:trigger c in Qualifying(body, Candidates)} :: c in Qualifying(body, Candidates) ==>
      && NameTable(Qualifying(body, Candidates))[NamePlaceholder(c)] == c.field
      && Field(body, c.field) == Some(ValueTable(body, Qualifying(body, Candidates))[ValuePlaceholder(c)])
  {
    var q := Qualifying(body, Candidates);
    CandidatesWellFormed();
    QualifyingWellFormed(body, Candidates);
    QualifyingMembers(body, Candidates);
    TableKeys(body, q);
    NameEntries(q);
    ValueEntries(body, q);
  }

  /** The tables of a non-empty instruction are the reference tables of the qualifying candidates. */
  lemma BuildUpdateTables(body: Form)
    requires BuildUpdate(body).Some?
    ensures BuildUpdate(body).value.names == NameTable(Qualifying(body, Candidates))
    ensures BuildUpdate(body).value.values == ValueTable(body, Qualifying(body, Candidates))
  {
  }

  // ----- Lemmas -----

  /** The qualifying candidates are exactly the candidates whose form field is truthy. */
  lemma {:induction false} QualifyingMembers(body: Form, cs: seq<Candidate>)
    ensures forall c :: c in Qualifying(body, cs) <==> c in cs && Truthy(Field(body, c.field))
  {
    if cs != [] {
      QualifyingMembers(body, cs[1..]);
      assert forall c :: c in cs <==> c == cs[0] || c in cs[1..];
    }
  }

  /** Selecting candidates keeps their tags distinct and comma-free. */
  lemma {:induction false} QualifyingWellFormed(body: Form, cs: seq<Candidate>)
    requires WellFormed(cs)
    ensures WellFormed(Qualifying(body, cs))
  {
    if cs != [] {
      var tail := Qualifying(body, cs[1..]);
      assert WellFormed(cs[1..]);
      QualifyingWellFormed(body, cs[1..]);
      QualifyingMembers(body, cs[1..]);
      if Truthy(Field(body, cs[0].field)) {
        var q := [cs[0]] + tail;
        assert Qualifying(body, cs) == q;
        forall i, j | 0 <= i < j < |q|
          ensures q[i].tag != q[j].tag
        {
          assert q[j] == tail[j - 1];
          if i == 0 {
            var k := IndexOf(cs[1..], q[j]);
            assert cs[k + 1] == q[j];
          } else {
            assert q[i] == tail[i - 1];
          }
        }
        forall i | 0 <= i < |q|
          ensures ',' !in q[i].tag
        {
          if i > 0 {
            assert q[i] == tail[i - 1];
          }
        }
      } else {
        assert Qualifying(body, cs) == tail;
      }
    }
  }

  lemma CandidatesWellFormed()
    ensures WellFormed(Candidates)
  {
  }

  lemma {:induction false} QualifyingSnoc(body: Form, cs: seq<Candidate>, c: Candidate)
    ensures Qualifying(body, cs + [c]) == Qualifying(body, cs) + (if Truthy(Field(body, c.field)) then [c] else [])
  {
    if cs == [] {
      assert [c][1..] == [];
    } else {
      assert (cs + [c])[0] == cs[0];
      assert (cs + [c])[1..] == cs[1..] + [c];
      QualifyingSnoc(body, cs[1..], c);
    }
  }

  lemma {:induction false} ClausesAppend(a: seq<Candidate>, b: seq<Candidate>)
    ensures Clauses(a + b) == Clauses(a) + Clauses(b)
  {
    if a == [] {
      assert a + b == b;
    } else {
      assert (a + b)[1..] == a[1..] + b;
      ClausesAppend(a[1..], b);
    }
  }

  lemma PlaceholdersDistinct(cs: seq<Candidate>)
    requires WellFormed(cs) && cs != []
    ensures forall c :: c in cs[..|cs| - 1] ==>
      NamePlaceholder(c) != NamePlaceholder(cs[|cs| - 1]) && ValuePlaceholder(c) != ValuePlaceholder(cs[|cs| - 1])
  {
    var last := cs[|cs| - 1];
    forall c | c in cs[..|cs| - 1]
      ensures NamePlaceholder(c) != NamePlaceholder(last) && ValuePlaceholder(c) != ValuePlaceholder(last)
    {
      var i :| 0 <= i < |cs| - 1 && cs[i] == c;
      assert c.tag != last.tag;
      assert NamePlaceholder(c)[1..] == c.tag;
      assert NamePlaceholder(last)[1..] == last.tag;
      assert ValuePlaceholder(c)[1..] == c.tag;
      assert ValuePlaceholder(last)[1..] == last.tag;
    }
  }

  lemma {:induction false} ClausesSeparable(cs: seq<Candidate>)
    requires forall c :: c in cs ==> ',' !in c.tag
    ensures SeparableBy(Clauses(cs), ClauseSeparator)
  {
    if cs != [] {
      var c := cs[0];
      assert Clause(c) == "#" + c.tag + " = :" + c.tag;
      assert ',' !in Clause(c);
      ClausesSeparable(cs[1..]);
    }
  }

  // ----- Properties of the builder -----

  /** Position of a candidate in the fixed candidate order. */
  function IndexOf(cs: seq<Candidate>, c: Candidate): (i: nat)
    requires c in cs
    ensures i < |cs| && cs[i] == c
  {
    if cs[0] == c then 0 else 1 + IndexOf(cs[1..], c)
  }

  /** The emitted clauses follow the candidate order, never the order of the form body:
      earlier clauses come from earlier candidates. */
  lemma {:induction false} QualifyingInCandidateOrder(body: Form, cs: seq<Candidate>)
    requires WellFormed(cs)
    ensures InCandidateOrder(cs, Qualifying(body, cs))
  {
    QualifyingMembers(body, cs);
    if cs != [] {
      var tail := Qualifying(body, cs[1..]);
      assert WellFormed(cs[1..]);
      QualifyingInCandidateOrder(body, cs[1..]);
      if Truthy(Field(body, cs[0].field)) {
        assert Qualifying(body, cs) == [cs[0]] + tail;
        OrderCons(cs, tail);
      } else {
        assert Qualifying(body, cs) == tail;
        OrderSkip(cs, tail);
      }
    }
  }

  /** Selecting the first candidate in front of an ordered selection of the rest keeps the order. */
  lemma OrderCons(cs: seq<Candidate>, tail: seq<Candidate>)
    requires WellFormed(cs) && cs != []
    requires InCandidateOrder(cs[1..], tail)
    ensures InCandidateOrder(cs, [cs[0]] + tail)
  {
    var q := [cs[0]] + tail;
    forall k | 0 < k < |q|
      ensures q[k] in cs
    {
      assert q[k] == tail[k - 1];
      IndexOfTail(cs, q[k]);
    }
    forall i, j | 0 <= i < j < |q|
      ensures IndexOf(cs, q[i]) < IndexOf(cs, q[j])
    {
      assert q[j] == tail[j - 1];
      IndexOfTail(cs, q[j]);
      if i > 0 {
        assert q[i] == tail[i - 1];
        IndexOfTail(cs, q[i]);
      }
    }
  }

  /** Skipping the first candidate keeps an ordered selection of the rest ordered. */
  lemma OrderSkip(cs: seq<Candidate>, tail: seq<Candidate>)
    requires WellFormed(cs) && cs != []
    requires InCandidateOrder(cs[1..], tail)
    ensures InCandidateOrder(cs, tail)
  {
    forall k | 0 <= k < |tail|
      ensures tail[k] in cs
    {
      IndexOfTail(cs, tail[k]);
    }
    forall i, j | 0 <= i < j < |tail|
      ensures IndexOf(cs, tail[i]) < IndexOf(cs, tail[j])
    {
      IndexOfTail(cs, tail[i]);
      IndexOfTail(cs, tail[j]);
    }
  }

  /** Every element of `q` is a candidate of `cs`, and `q` lists them in the order of `cs`. */
  ghost predicate InCandidateOrder(cs: seq<Candidate>, q: seq<Candidate>) {
    && (forall c :: c in q ==> c in cs)
    && forall i, j :: 0 <= i < j < |q| ==> IndexOf(cs, q[i]) < IndexOf(cs, q[j])
  }

  lemma IndexOfTail(cs: seq<Candidate>, d: Candidate)
    requires WellFormed(cs) && cs != [] && d in cs[1..]
    ensures d in cs && d != cs[0] && IndexOf(cs, d) == 1 + IndexOf(cs[1..], d)
  {
    var k := IndexOf(cs[1..], d);
    assert cs[k + 1] == d;
    assert cs[0].tag != cs[k + 1].tag;
  }

  /** The builder looks at nothing but the four candidate fields: two bodies that agree on them
      (whatever else they hold, in whatever order it was sent) give the same instruction. */
  lemma BuildUpdateDependsOnlyOnCandidates(body1: Form, body2: Form)
    requires forall c :: c in Candidates ==> Field(body1, c.field) == Field(body2, c.field)
    ensures BuildUpdate(body1) == BuildUpdate(body2)
  {
    CollectDependsOnlyOn(body1, body2, Candidates);
  }

  lemma {:induction false} CollectDependsOnlyOn(body1: Form, body2: Form, cs: seq<Candidate>)
    requires forall c :: c in cs ==> Field(body1, c.field) == Field(body2, c.field)
    ensures Collect(body1, cs) == Collect(body2, cs)
    decreases |cs|
  {
    if cs != [] {
      var init := cs[..|cs| - 1];
      assert forall c :: c in init ==> c in cs;
      CollectDependsOnlyOn(body1, body2, init);
      assert cs[|cs| - 1] in cs;
    }
  }

  /** Attribute-name placeholders start with '#', value placeholders with ':', so the two
      tables never share a key. */
  lemma PlaceholderTablesDisjoint(body: Form)
    requires BuildUpdate(body).Some?
    ensures BuildUpdate(body).value.names.Keys !! BuildUpdate(body).value.values.Keys
  {
    PlaceholderSetsDisjoint(Qualifying(body, Candidates));
  }

  lemma PlaceholderSetsDisjoint(q: seq<Candidate>)
    ensures NameKeys(q) !! ValueKeys(q)
  {
    var names := NameKeys(q);
    var values := ValueKeys(q);
    forall k | k in names
      ensures k !in values
    {
      var c :| c in q && k == NamePlaceholder(c);
      assert k[0] == '#';
      forall d | d in q
        ensures k != ValuePlaceholder(d)
      {
        assert ValuePlaceholder(d)[0] == ':';
      }
    }
  }

  /** The expression is "SET " followed by the clauses of the qualifying candidates joined with ", ". */
  lemma BuildUpdateExpression(body: Form)
    requires BuildUpdate(body).Some?
    ensures BuildUpdate(body).value.expression == SetPrefix + Join(Clauses(Qualifying(body, Candidates)), ClauseSeparator)
  {
    CandidatesWellFormed();
  }

  /** The clause text of each candidate. */
  lemma CandidateClauses()
    ensures Clause(Candidates[0]) == "#n = :n" && Clause(Candidates[1]) == "#ct = :ct"
    ensures Clause(Candidates[2]) == "#s = :s" && Clause(Candidates[3]) == "#d = :d"
  {
  }

  /** A form holding only `name`: one clause, one entry in each table. */
  lemma BuildUpdateNameOnly(x: string)
    requires x != ""
    ensures BuildUpdate(map["name" := x]) ==
      Some(UpdateInstruction("SET #n = :n", map["#n" := "name"], map[":n" := x]))
  {
    var body := map["name" := x];
    NameOnlyQualifying(x);
    assert Candidates[0] in Candidates;
    OnlyFirstExpression(body);
    OnlyFirstTables(body, x);
  }

  lemma OnlyFirstExpression(body: Form)
    requires Qualifying(body, Candidates) == [Candidates[0]]
    requires BuildUpdate(body).Some?
    ensures BuildUpdate(body).value.expression == "SET #n = :n"
  {
    var e := BuildUpdate(body).value.expression;
    assert e == SetPrefix + Join(Clauses([Candidates[0]]), ClauseSeparator) by {
      BuildUpdateExpression(body);
    }
    NameOnlyExpression(e);
  }

  lemma OnlyFirstTables(body: Form, x: string)
    requires Qualifying(body, Candidates) == [Candidates[0]]
    requires Field(body, "name") == Some(x)
    requires BuildUpdate(body).Some?
    ensures BuildUpdate(body).value.names == map["#n" := "name"]
    ensures BuildUpdate(body).value.values == map[":n" := x]
  {
    BuildUpdateTables(body);
    var c := Candidates[0];
    assert [c][..0] == [];
    assert NamePlaceholder(c) == "#n" && ValuePlaceholder(c) == ":n";
  }

  lemma NameOnlyExpression(e: string)
    requires e == SetPrefix + Join(Clauses([Candidates[0]]), ClauseSeparator)
    ensures e == "SET #n = :n"
  {
    CandidateClauses();
  }

  lemma NameOnlyQualifying(x: string)
    requires x != ""
    ensures Qualifying(map["name" := x], Candidates) == [Candidates[0]]
  {
    var body := map["name" := x];
    var cs := Candidates;
    assert cs[3..][1..] == [];
    assert Qualifying(body, cs[3..]) == [];
    assert cs[2..][1..] == cs[3..];
    assert Qualifying(body, cs[2..]) == [];
    assert cs[1..][1..] == cs[2..];
    assert Qualifying(body, cs[1..]) == [];
  }

  /** A form with every candidate field: all four clauses, in candidate order. */
  lemma BuildUpdateAllFields(body: Form)
    requires forall c :: c in Candidates ==> Truthy(Field(body, c.field))
    ensures BuildUpdate(body).Some?
    ensures ParseSet(BuildUpdate(body).value.expression) == Some(["#n = :n", "#ct = :ct", "#s = :s", "#d = :d"])
  {
    AllFieldsQualify(body);
    AllClauses();
  }

  lemma AllClauses()
    ensures Clauses(Candidates) == ["#n = :n", "#ct = :ct", "#s = :s", "#d = :d"]
  {
    var cs := Candidates;
    assert Clauses(cs[3..]) == ["#d = :d"] by {
      CandidateClauses();
      assert cs[3..][1..] == [];
    }
    assert Clauses(cs[2..]) == ["#s = :s", "#d = :d"] by {
      CandidateClauses();
      assert cs[2..][1..] == cs[3..];
    }
    assert Clauses(cs[1..]) == ["#ct = :ct", "#s = :s", "#d = :d"] by {
      CandidateClauses();
      assert cs[1..][1..] == cs[2..];
    }
    CandidateClauses();
  }

  lemma AllFieldsQualify(body: Form)
    requires forall c :: c in Candidates ==> Truthy(Field(body, c.field))
    ensures Qualifying(body, Candidates) == Candidates
  {
    var cs := Candidates;
    assert cs[3..][1..] == [];
    assert Qualifying(body, cs[3..]) == cs[3..];
    assert cs[2..][1..] == cs[3..];
    assert Qualifying(body, cs[2..]) == cs[2..];
    assert cs[1..][1..] == cs[2..];
    assert Qualifying(body, cs[1..]) == cs[1..];
  }
}
