/** models/job.js: the Job data-access class. Each operation assembles a
    parameterised statement, hands it to the database and turns "no row came
    back" into NotFound. */
module Job {
  import opened Errors
  import opened Decimal
  import opened JsValue
  import opened Sql
  import opened Db

  /** `No job: ${id}` */
  function NotFoundMessage(id: int): string {
    "No job: " + IntToString(id)
  }

  /** `res.rows[0]`: undefined when the statement returned no row. */
  function FirstRow(rows: seq<Value>): Value {
    if |rows| > 0 then rows[0] else Undefined
  }

  // ---------------------------------------------------------------- create

  /** `[data.title, data.salary, data.equity, data.companyHandle]` */
  function InsertParams(data: seq<Prop>): seq<Value> {
    [GetProp(data, "title"), GetProp(data, "salary"), GetProp(data, "equity"), GetProp(data, "companyHandle")]
  }

  /** Inserts one job and returns the stored row, its generated id included
      and company_handle renamed to companyHandle. Whatever the database
      refuses propagates as its own error. */
  method Create(db: Database, data: seq<Prop>) returns (r: Result<Value>)
    requires db.Valid()
    modifies db`jobs, db`nextId
    ensures db.Valid() && db.companies == old(db.companies)
    ensures r.Ok? <==> InsertableRow(InsertParams(data), db.companies).Some?
    ensures r.Err? ==> r.error.DatabaseError? && db.jobs == old(db.jobs)
    ensures r.Ok? ==>
              var row := InsertableRow(InsertParams(data), db.companies).value;
              var id := old(db.nextId);
              && id !in old(db.jobs)
              && db.jobs == old(db.jobs)[id := row]
              && r.value == JobObject(id, row, "companyHandle")
    ensures r.Ok? ==> r.value.Obj? && CreatedJobEchoes(data, r.value.props)
  {
    var result := db.InsertJob(InsertParams(data));
    if result.Err? {
      return Err(result.error);
    }
    var job := FirstRow(result.value);
    r := Ok(job);
    CreatedJobEchoesData(data, db.companies, old(db.nextId));
  }

  /** The returned job carries the fields of the created one under their
      own names, each with the value the caller sent (undefined fields come
      back as null), plus the generated id. */
  predicate CreatedJobEchoes(data: seq<Prop>, job: seq<Prop>) {
    && Keys(job) == ["id", "title", "salary", "equity", "companyHandle"]
    && GetProp(job, "id").Int?
    && GetProp(job, "title") == GetProp(data, "title")
    && GetProp(job, "companyHandle") == GetProp(data, "companyHandle")
    && (GetProp(data, "salary") != Undefined ==> GetProp(job, "salary") == GetProp(data, "salary"))
    && (GetProp(data, "equity") != Undefined ==> GetProp(job, "equity") == GetProp(data, "equity"))
  }

  lemma CreatedJobEchoesData(data: seq<Prop>, companies: map<string, Company>, id: int)
    requires InsertableRow(InsertParams(data), companies).Some?
    ensures CreatedJobEchoes(data, JobObject(id, InsertableRow(InsertParams(data), companies).value, "companyHandle").props)
  {
    JobObjectFields(id, InsertableRow(InsertParams(data), companies).value, "companyHandle");
  }

  // --------------------------------------------------------------- findAll

  /** The destructured argument `{ minSalary, hasEquity, title } = {}`;
      a filter that was not given is undefined. */
  datatype SearchFilters = SearchFilters(minSalary: Value, hasEquity: Value, title: Value)

  const NoFilters := SearchFilters(Undefined, Undefined, Undefined)

  const SelectJobs: string :=
    "SELECT j.id, j.title, j.salary, j.equity, j.company_handle AS \"companyHandle\", "
    + "c.name AS \"companyName\" FROM jobs AS j LEFT JOIN companies AS c ON c.handle = j.company_handle"

  /** The value bound for a title search: `%${title}%`. */
  function TitlePattern(title: Value): string {
    "%" + TemplateString(title) + "%"
  }

  /** The WHERE conditions a search uses, in the order minSalary, hasEquity,
      title; a condition's placeholder is the number of values bound so far. */
  function Conditions(f: SearchFilters): seq<Cond> {
    SalaryConditions(f) + EquityConditions(f) + TitleConditions(f)
  }

  function SalaryConditions(f: SearchFilters): seq<Cond> {
    if f.minSalary != Undefined then [SalaryAtLeast(1)] else []
  }

  function EquityConditions(f: SearchFilters): seq<Cond> {
    if f.hasEquity == Bool(true) then [EquityPositive] else []
  }

  function TitleConditions(f: SearchFilters): seq<Cond> {
    if f.title != Undefined then [TitleLike(|SalaryConditions(f)| + 1)] else []
  }

  /** The values a search binds, in placeholder order. */
  function Bindings(f: SearchFilters): seq<Value> {
    SalaryBindings(f) + TitleBindings(f)
  }

  function SalaryBindings(f: SearchFilters): seq<Value> {
    if f.minSalary != Undefined then [f.minSalary] else []
  }

  function TitleBindings(f: SearchFilters): seq<Value> {
    if f.title != Undefined then [Str(TitlePattern(f.title))] else []
  }

  function CondTexts(conds: seq<Cond>): seq<string> {
    seq(|conds|, i requires 0 <= i < |conds| => CondText(conds[i]))
  }

  /** The statement text for a list of WHERE conditions. */
  function SearchQuery(conds: seq<Cond>): string {
    var filtered := if |conds| > 0 then SelectJobs + " WHERE " + Join(CondTexts(conds), " AND ") else SelectJobs;
    filtered + " ORDER BY title"
  }

  /** Builds the search statement and its bound values. */
  method FindAll(filters: SearchFilters) returns (mainQuery: string, filterVal: seq<Value>)
    ensures mainQuery == SearchQuery(Conditions(filters)) && filterVal == Bindings(filters)
  {
    mainQuery := SelectJobs;
    var whereClause: seq<string> := [];
    filterVal := [];
    ghost var conds: seq<Cond> := [];

    if filters.minSalary != Undefined {
      filterVal := filterVal + [filters.minSalary];
      CondTextsSnoc(conds, SalaryAtLeast(|filterVal|));
      conds := conds + [SalaryAtLeast(|filterVal|)];
      whereClause := whereClause + ["salary >= $" + NatToString(|filterVal|)];
    }
    assert conds == SalaryConditions(filters) && whereClause == CondTexts(conds);
    assert filterVal == SalaryBindings(filters);

    if filters.hasEquity == Bool(true) {
      CondTextsSnoc(conds, EquityPositive);
      conds := conds + [EquityPositive];
      whereClause := whereClause + ["equity > 0"];
    }
    assert conds == SalaryConditions(filters) + EquityConditions(filters) && whereClause == CondTexts(conds);

    if filters.title != Undefined {
      filterVal := filterVal + [Str(TitlePattern(filters.title))];
      CondTextsSnoc(conds, TitleLike(|filterVal|));
      conds := conds + [TitleLike(|filterVal|)];
      whereClause := whereClause + ["title ILIKE $" + NatToString(|filterVal|)];
    }
    assert conds == Conditions(filters) && whereClause == CondTexts(conds);
    assert filterVal == SalaryBindings(filters) + TitleBindings(filters);

    if |whereClause| > 0 {
      mainQuery := mainQuery + " WHERE " + Join(whereClause, " AND ");
    }
    mainQuery := mainQuery + " ORDER BY title";
  }

  /** Without filters a search has no WHERE clause and binds nothing. */
  lemma SearchWithoutFilters()
    ensures Conditions(NoFilters) == [] && Bindings(NoFilters) == []
    ensures SearchQuery(Conditions(NoFilters)) == SelectJobs + " ORDER BY title"
  {
  }

  lemma CondTextsSnoc(conds: seq<Cond>, c: Cond)
    ensures CondTexts(conds + [c]) == CondTexts(conds) + [CondText(c)]
  {
  }

  function CondParams(conds: seq<Cond>): seq<nat> {
    if conds == [] then []
    else (if conds[0].EquityPositive? then [] else [conds[0].param]) + CondParams(conds[1..])
  }

  /** The placeholders of a search run $1.. $n in order, one per bound
      value, with no gap, so the database accepts the bindings; `equity > 0`
      binds nothing. */
  lemma SearchPlaceholdersFollowBindings(f: SearchFilters)
    ensures CondParams(Conditions(f)) == Numbered(|Bindings(f)|)
    ensures ParamsMatch(CondParams(Conditions(f)), |Bindings(f)|)
    ensures |Bindings(f)| <= |Conditions(f)| <= 3 && |Bindings(f)| <= 2
  {
    var salary, equity, title := SalaryConditions(f), EquityConditions(f), TitleConditions(f);
    var s := CondParams(salary);
    var t := CondParams(title);
    assert s == [] || s == [1] by {
      assert CondParams([]) == [];
      CondParamsSingle(SalaryAtLeast(1));
    }
    assert t == [] || t == [|s| + 1] by {
      assert CondParams([]) == [];
      CondParamsSingle(TitleLike(|salary| + 1));
    }
    assert CondParams(Conditions(f)) == s + t by {
      assert CondParams(equity) == [] by {
        assert CondParams([]) == [];
        CondParamsSingle(EquityPositive);
      }
      CondParamsAppend(salary, equity);
      CondParamsAppend(salary + equity, title);
    }
    assert |Bindings(f)| == |s| + |t|;
    NumberedAfter(s, t);
    NumberedParamsMatch(|s| + |t|);
  }

  /** [] or [1], followed by [] or [that length + 1], counts from 1. */
  lemma NumberedAfter(s: seq<nat>, t: seq<nat>)
    requires s == [] || s == [1]
    requires t == [] || t == [|s| + 1]
    ensures s + t == Numbered(|s| + |t|)
  {
  }

  /** 1, 2, ..., n */
  function Numbered(n: nat): seq<nat> {
    seq(n, i requires 0 <= i < n => i + 1)
  }

  lemma NumberedParamsMatch(n: nat)
    ensures ParamsMatch(Numbered(n), n)
  {
    forall j | 1 <= j <= n ensures j in Numbered(n) {
      assert Numbered(n)[j - 1] == j;
    }
  }

  lemma CondParamsSingle(c: Cond)
    ensures CondParams([c]) == if c.EquityPositive? then [] else [c.param]
  {
    assert [c][1..] == [];
  }

  /** Each condition of a search reads the value of its own filter:
      `salary >= $k` the minimum salary, `title ILIKE $k` the title pattern. */
  lemma SearchConditionsBindFilters(f: SearchFilters)
    ensures var vals := Bindings(f);
            forall c :: c in Conditions(f) ==>
              match c
              case SalaryAtLeast(k) => 1 <= k <= |vals| && vals[k - 1] == f.minSalary
              case TitleLike(k) => 1 <= k <= |vals| && vals[k - 1] == Str(TitlePattern(f.title))
              case EquityPositive => f.hasEquity == Bool(true)
  {
    var salary, equity, title := SalaryConditions(f), EquityConditions(f), TitleConditions(f);
    var vals := Bindings(f);
    assert forall c :: c in Conditions(f) <==> c in salary || c in equity || c in title;
    if f.title != Undefined {
      assert vals[|salary|] == Str(TitlePattern(f.title));
    }
  }

  lemma {:induction false} CondParamsAppend(a: seq<Cond>, b: seq<Cond>)
    ensures CondParams(a + b) == CondParams(a) + CondParams(b)
  {
    if a == [] {
      assert a + b == b;
    } else {
      assert (a + b)[0] == a[0] && (a + b)[1..] == a[1..] + b;
      CondParamsAppend(a[1..], b);
    }
  }

  /** What a search asks for, stated without SQL: salary at least minSalary,
      equity above zero when hasEquity is exactly true, title containing the
      title text. */
  predicate Matches(f: SearchFilters, row: JobRow) {
    && (f.minSalary.Int? ==> row.salary.Some? && row.salary.value >= f.minSalary.i)
    && (f.hasEquity == Bool(true) ==> row.equity.Some? && DecimalPositive(row.equity.value))
    && (f.title != Undefined ==> Contains(row.title, TemplateString(f.title)))
  }

  /** A row passes every WHERE condition of the search exactly when it
      matches the filters; with no filter every row passes. */
  lemma SearchSelectsMatchingRows(f: SearchFilters, row: JobRow)
    requires f.minSalary == Undefined || f.minSalary.Int?
    requires NoWildcards(TemplateString(f.title))
    ensures (forall c :: c in Conditions(f) ==> CondHolds(c, Bindings(f), row)) <==> Matches(f, row)
  {
    var salary, equity, title := SalaryConditions(f), EquityConditions(f), TitleConditions(f);
    var vals := Bindings(f);
    assert forall c :: c in Conditions(f) <==> c in salary || c in equity || c in title;
    var t := TemplateString(f.title);
    LikeContains(t, row.title);
    if f.minSalary != Undefined {
      assert vals[0] == f.minSalary && SalaryAtLeast(1) in salary;
    }
    if f.hasEquity == Bool(true) {
      assert EquityPositive in equity;
    }
    if f.title != Undefined {
      assert vals[|salary|] == Str("%" + t + "%") && TitleLike(|salary| + 1) in title;
    }
    assert (forall c :: c in salary ==> CondHolds(c, vals, row))
           <==> (f.minSalary.Int? ==> row.salary.Some? && row.salary.value >= f.minSalary.i);
    assert (forall c :: c in equity ==> CondHolds(c, vals, row))
           <==> (f.hasEquity == Bool(true) ==> row.equity.Some? && DecimalPositive(row.equity.value));
    assert (forall c :: c in title ==> CondHolds(c, vals, row))
           <==> (f.title != Undefined ==> Contains(row.title, t));
  }

  // ------------------------------------------------------------------- get

  /** Fetches one job and replaces its companyHandle with the company row. */
  method Get(db: Database, id: int) returns (r: Result<Value>)
    requires db.Valid()
    ensures r.Err? <==> id !in db.jobs
    ensures r.Err? ==> r.error == NotFound(NotFoundMessage(id))
    ensures r.Ok? ==>
              var row := db.jobs[id];
              r.value == Obj(JobWithCompany(id, row, CompanyObject(db.companies[row.companyHandle])))
    ensures r.Ok? ==> "companyHandle" !in Keys(r.value.props) && "company" in Keys(r.value.props)
  {
    var jobRes := db.SelectJob(id);
    var job := FirstRow(jobRes);

    if !Truthy(job) {
      return Err(NotFound(NotFoundMessage(id)));
    }

    var companiesRes := db.SelectCompany(GetProp(job.props, "companyHandle"));

    var props := DeleteProp(job.props, "companyHandle");
    props := SetProp(props, "company", FirstRow(companiesRes));
    r := Ok(Obj(props));

    JobObjectFields(id, db.jobs[id], "companyHandle");
    ReshapeReplacesCompanyHandle(id, db.jobs[id], FirstRow(companiesRes));
  }

  /** The object get returns: the job's own fields, then its company. */
  function JobWithCompany(id: int, row: JobRow, company: Value): seq<Prop> {
    JobFields(id, row) + [Prop("company", company)]
  }

  /** `delete job.companyHandle; job.company = company` turns the fetched
      row into the job with its company: the handle is gone and the company
      is the last field. */
  lemma ReshapeReplacesCompanyHandle(id: int, row: JobRow, company: Value)
    ensures var reshaped := SetProp(DeleteProp(JobObject(id, row, "companyHandle").props, "companyHandle"), "company", company);
            && reshaped == JobWithCompany(id, row, company)
            && Keys(reshaped) == ["id", "title", "salary", "equity", "company"]
  {
    var kept := JobFields(id, row);
    JobFieldsKeys(id, row);
    ReplaceLastProp(kept, Prop("companyHandle", Str(row.companyHandle)), "company", company);
    KeysAppend(kept, Prop("company", company));
  }

  // ---------------------------------------------------------------- update

  /** `sqlForPartialUpdate(data, {})`, the id placeholder `'$' + (values.length + 1)`
      and the parameters `[...values, id]`. */
  function UpdateStatement(id: int, data: seq<Prop>): Result<UpdateCall> {
    var built := SqlForPartialUpdate(data, []);
    if built.Err? then Err(built.error)
    else
      var idIndex := "$" + NatToString(|built.value.values| + 1);
      Ok(UpdateCall(UpdateQuery(built.value.setCols, idIndex), built.value.values + [Int(id)]))
  }

  /** A statement with the values bound to its placeholders. */
  datatype UpdateCall = UpdateCall(query: UpdateQuery, params: seq<Value>)

  predicate KeysQuoteFree(data: seq<Prop>) {
    forall i :: 0 <= i < |data| ==> NoQuote(data[i].key)
  }

  /** The update statement for n fields reads back as: field i assigned
      from $(i+1), the id placeholder $(n+1), and the bound values are the
      fields' values in order followed by the id. */
  lemma UpdateStatementDecodes(id: int, data: seq<Prop>)
    requires |data| > 0 && DistinctKeys(data) && KeysQuoteFree(data)
    ensures UpdateStatement(id, data).Ok?
    ensures var call := UpdateStatement(id, data).value;
            var assigns := ParseSetClause(call.query.setCols);
            && assigns.Some? && |assigns.value| == |data|
            && ParseIdIndex(call.query.idIndex) == Some(|data| + 1)
            && call.params == Values(data) + [Int(id)]
            && forall i :: 0 <= i < |data| ==> assigns.value[i] == Assignment(data[i].key, i + 1)
  {
    forall i | 0 <= i < |data| ensures Column([], data[i].key) == data[i].key {
    }
    SetClauseDecodes(data, []);
    ParseIdIndexOf(|data| + 1);
  }

  /** The id placeholder comes after the SET placeholders and binds the id:
      no SET placeholder equals it, every placeholder names a bound value
      and every bound value is named, and each SET placeholder binds the
      value sent for its own field. */
  lemma UpdateIdPlaceholderFollowsSetValues(id: int, data: seq<Prop>)
    requires |data| > 0 && DistinctKeys(data) && KeysQuoteFree(data)
    ensures UpdateStatement(id, data).Ok? && ParseSetClause(UpdateStatement(id, data).value.query.setCols).Some?
    ensures var call := UpdateStatement(id, data).value;
            var assigns := ParseSetClause(call.query.setCols).value;
            && ParseIdIndex(call.query.idIndex) == Some(|data| + 1)
            && |assigns| == |data| && |call.params| == |data| + 1
            && call.params[|data|] == Int(id)
            && (forall a :: a in assigns ==> a.placeholder != |data| + 1)
            && ParamsMatch(Placeholders(assigns) + [|data| + 1], |call.params|)
            && forall i :: 0 <= i < |data| ==>
                 && assigns[i] == Assignment(data[i].key, i + 1)
                 && call.params[assigns[i].placeholder - 1] == data[i].val
  {
    UpdateStatementDecodes(id, data);
    var call := UpdateStatement(id, data).value;
    var assigns := ParseSetClause(call.query.setCols).value;
    PlaceholdersInOrder(assigns, |call.params|);
    forall i | 0 <= i < |data| ensures call.params[i] == data[i].val {
      assert call.params[i] == Values(data)[i];
    }
  }

  /** Placeholders $1.. $n followed by $(n+1) use each of n+1 values once. */
  lemma PlaceholdersInOrder(assigns: seq<Assignment>, count: nat)
    requires count == |assigns| + 1
    requires forall i :: 0 <= i < |assigns| ==> assigns[i].placeholder == i + 1
    ensures forall a :: a in assigns ==> a.placeholder != count
    ensures ParamsMatch(Placeholders(assigns) + [count], count)
  {
    var used := Placeholders(assigns) + [count];
    forall j | 1 <= j <= count ensures j in used {
      assert used[j - 1] == j;
    }
  }

  /** Every field sent fits the column of the same name. */
  predicate AllFit(data: seq<Prop>) {
    forall i :: 0 <= i < |data| ==> Fits(data[i].key, data[i].val)
  }

  /** A partial update of a row, stated field by field: each of title,
      salary and equity takes the value sent for it, if one was sent, and
      keeps its value otherwise; the company never changes. */
  function Patch(row: JobRow, data: seq<Prop>): JobRow {
    JobRow(
      if "title" in Keys(data) && GetProp(data, "title").Str? then GetProp(data, "title").s else row.title,
      if "salary" in Keys(data) && AsNullableInt(GetProp(data, "salary")).Some?
      then AsNullableInt(GetProp(data, "salary")).value else row.salary,
      if "equity" in Keys(data) && AsNullableText(GetProp(data, "equity")).Some?
      then AsNullableText(GetProp(data, "equity")).value else row.equity,
      row.companyHandle)
  }

  lemma PatchCons(row: JobRow, data: seq<Prop>)
    requires |data| > 0 && DistinctKeys(data) && Fits(data[0].key, data[0].val)
    ensures Patch(SetColumn(row, data[0].key, data[0].val), data[1..]) == Patch(row, data)
  {
    var d := data[0];
    assert Keys(data) == [d.key] + Keys(data[1..]);
    assert d.key !in Keys(data[1..]) by {
      forall i | 0 <= i < |data[1..]| ensures Keys(data[1..])[i] != d.key {
        assert data[1..][i] == data[i + 1];
      }
    }
  }

  /** Applying the decoded assignments in order is the field-by-field patch. */
  lemma {:induction false} ApplyIsPatch(row: JobRow, assigns: seq<Assignment>, params: seq<Value>, data: seq<Prop>)
    requires |assigns| == |data| && DistinctKeys(data)
    requires AssignmentsFit(assigns, params)
    requires forall i :: 0 <= i < |data| ==>
               assigns[i].column == data[i].key && params[assigns[i].placeholder - 1] == data[i].val
    ensures ApplyAssignments(row, assigns, params) == Patch(row, data)
    decreases |data|
  {
    if data == [] {
      assert Keys(data) == [];
    } else {
      var next := SetColumn(row, data[0].key, data[0].val);
      ApplyIsPatch(next, assigns[1..], params, data[1..]);
      PatchCons(row, data);
    }
  }

  /** What the database makes of the update statement: it is refused when a
      field does not fit its column; otherwise the row with that id, if
      there is one, is patched with exactly the fields sent. */
  lemma UpdateStatementPatches(jobs: map<int, JobRow>, id: int, data: seq<Prop>)
    requires |data| > 0 && DistinctKeys(data) && KeysQuoteFree(data)
    ensures UpdateStatement(id, data).Ok?
    ensures var call := UpdateStatement(id, data).value;
            ExecUpdate(jobs, call.query, call.params)
            == if !AllFit(data) then Rejected
               else if id in jobs then Updated(id, Patch(jobs[id], data))
               else NoMatch
  {
    UpdateIdPlaceholderFollowsSetValues(id, data);
    ExecReadBackCall(jobs, id, data, UpdateStatement(id, data).value);
  }

  /** The engine's verdict on any statement whose SET clause reads back as
      field i from $(i+1) and whose id placeholder follows them. */
  lemma ExecReadBackCall(jobs: map<int, JobRow>, id: int, data: seq<Prop>, call: UpdateCall)
    requires |data| > 0 && DistinctKeys(data)
    requires ParseSetClause(call.query.setCols).Some?
    requires ParseIdIndex(call.query.idIndex) == Some(|data| + 1)
    requires var assigns := ParseSetClause(call.query.setCols).value;
             && |assigns| == |data| && |call.params| == |data| + 1
             && call.params[|data|] == Int(id)
             && ParamsMatch(Placeholders(assigns) + [|data| + 1], |call.params|)
             && forall i :: 0 <= i < |data| ==>
                  && assigns[i] == Assignment(data[i].key, i + 1)
                  && call.params[assigns[i].placeholder - 1] == data[i].val
    ensures ExecUpdate(jobs, call.query, call.params)
            == if !AllFit(data) then Rejected
               else if id in jobs then Updated(id, Patch(jobs[id], data))
               else NoMatch
  {
    var assigns := ParseSetClause(call.query.setCols).value;
    assert ExecUpdate(jobs, call.query, call.params) == ExecAssignments(jobs, assigns, |data| + 1, call.params);
    ExecAssignmentsPatch(jobs, id, data, assigns, call.params);
  }

  /** The engine's checks on the decoded assignments of such a statement. */
  lemma ExecAssignmentsPatch(jobs: map<int, JobRow>, id: int, data: seq<Prop>, assigns: seq<Assignment>, params: seq<Value>)
    requires |data| > 0 && DistinctKeys(data)
    requires |assigns| == |data| && |params| == |data| + 1 && params[|data|] == Int(id)
    requires ParamsMatch(Placeholders(assigns) + [|data| + 1], |params|)
    requires forall i :: 0 <= i < |data| ==>
               && assigns[i] == Assignment(data[i].key, i + 1)
               && params[assigns[i].placeholder - 1] == data[i].val
    ensures ExecAssignments(jobs, assigns, |data| + 1, params)
            == if !AllFit(data) then Rejected
               else if id in jobs then Updated(id, Patch(jobs[id], data))
               else NoMatch
  {
    assert AllFit(data) <==> AssignmentsFit(assigns, params) by {
      AllFitIsAssignmentsFit(data, assigns, params);
    }
    if AllFit(data) && id in jobs {
      ApplyIsPatch(jobs[id], assigns, params, data);
    }
  }

  /** The fields fit their columns exactly when the decoded assignments do. */
  lemma AllFitIsAssignmentsFit(data: seq<Prop>, assigns: seq<Assignment>, params: seq<Value>)
    requires |assigns| == |data| && DistinctKeys(data)
    requires forall i :: 0 <= i < |data| ==>
               && assigns[i].column == data[i].key
               && 1 <= assigns[i].placeholder <= |params|
               && params[assigns[i].placeholder - 1] == data[i].val
    ensures AllFit(data) <==> AssignmentsFit(assigns, params)
  {
    if !AllFit(data) {
      var i :| 0 <= i < |data| && !Fits(data[i].key, data[i].val);
      assert !Fits(assigns[i].column, params[assigns[i].placeholder - 1]);
    }
  }

  /** Whatever the SET clause says, the row the statement changes is the
      one whose id was bound last. */
  lemma UpdateTargetsId(jobs: map<int, JobRow>, id: int, data: seq<Prop>)
    requires |data| > 0
    ensures UpdateStatement(id, data).Ok?
    ensures var call := UpdateStatement(id, data).value;
            var outcome := ExecUpdate(jobs, call.query, call.params);
            outcome.Updated? ==> outcome.id == id && id in jobs
  {
    var call := UpdateStatement(id, data).value;
    ParseIdIndexOf(|data| + 1);
    assert call.params[|data|] == Int(id);
  }

  /** Updates the given fields of one job and returns the stored row (its
      company handle under the lower-case key companyhandle). An empty
      update is refused before any statement runs. */
  method Update(db: Database, id: int, data: seq<Prop>) returns (r: Result<Value>)
    requires db.Valid() && DistinctKeys(data)
    modifies db`jobs
    ensures db.Valid() && db.companies == old(db.companies)
    ensures |data| == 0 ==> r == Err(BadRequest("No data")) && db.jobs == old(db.jobs)
    ensures |data| > 0 ==>
              var call := UpdateStatement(id, data).value;
              var outcome := ExecUpdate(old(db.jobs), call.query, call.params);
              && (outcome.Rejected? ==> r.Err? && r.error.DatabaseError? && db.jobs == old(db.jobs))
              && (outcome.NoMatch? ==> r == Err(NotFound(NotFoundMessage(id))) && db.jobs == old(db.jobs))
              && (outcome.Updated? ==>
                    r == Ok(JobObject(id, outcome.row, "companyhandle")) && db.jobs == old(db.jobs)[id := outcome.row])
    ensures |data| > 0 && KeysQuoteFree(data) ==>
              if !AllFit(data) then r.Err? && r.error.DatabaseError? && db.jobs == old(db.jobs)
              else if id in old(db.jobs) then
                && db.jobs == old(db.jobs)[id := Patch(old(db.jobs)[id], data)]
                && r == Ok(JobObject(id, db.jobs[id], "companyhandle"))
              else r == Err(NotFound(NotFoundMessage(id))) && db.jobs == old(db.jobs)
  {
    var built := UpdateStatement(id, data);
    if built.Err? {
      return Err(built.error);
    }
    UpdateTargetsId(db.jobs, id, data);
    if KeysQuoteFree(data) {
      UpdateStatementPatches(db.jobs, id, data);
    }
    r := RunUpdateCall(db, id, built.value);
  }

  /** Runs an update statement and turns "no row came back" into NotFound. */
  method RunUpdateCall(db: Database, id: int, call: UpdateCall) returns (r: Result<Value>)
    requires db.Valid()
    requires var outcome := ExecUpdate(db.jobs, call.query, call.params);
             outcome.Updated? ==> outcome.id == id
    modifies db`jobs
    ensures db.Valid() && db.companies == old(db.companies)
    ensures var outcome := ExecUpdate(old(db.jobs), call.query, call.params);
            && (outcome.Rejected? ==> r.Err? && r.error.DatabaseError? && db.jobs == old(db.jobs))
            && (outcome.NoMatch? ==> r == Err(NotFound(NotFoundMessage(id))) && db.jobs == old(db.jobs))
            && (outcome.Updated? ==>
                  r == Ok(JobObject(id, outcome.row, "companyhandle")) && db.jobs == old(db.jobs)[id := outcome.row])
  {
    ghost var outcome := ExecUpdate(db.jobs, call.query, call.params);
    var res := db.RunUpdate(call.query, call.params);
    if res.Err? {
      assert outcome.Rejected?;
      return Err(res.error);
    }
    var job := FirstRow(res.value);

    if !Truthy(job) {
      assert outcome.NoMatch?;
      return Err(NotFound(NotFoundMessage(id)));
    }

    assert outcome.Updated? && job == JobObject(id, outcome.row, "companyhandle");
    r := Ok(job);
  }

  // ---------------------------------------------------------------- delete

  /** Deletes one job; NotFound when no row was removed. */
  method Delete(db: Database, id: int) returns (r: Result<()>)
    requires db.Valid()
    modifies db`jobs
    ensures db.Valid() && db.companies == old(db.companies)
    ensures db.jobs == old(db.jobs) - {id}
    ensures r.Ok? <==> id in old(db.jobs)
    ensures r.Err? ==> r.error == NotFound(NotFoundMessage(id))
  {
    var res := db.DeleteJob(id);
    var job := FirstRow(res);
    if !Truthy(job) {
      return Err(NotFound(NotFoundMessage(id)));
    }
    return Ok(());
  }

  /** A job that was deleted cannot be fetched any more. */
  method DeleteThenGet(db: Database, id: int) returns (deleted: Result<()>, fetched: Result<Value>)
    requires db.Valid() && id in db.jobs
    modifies db`jobs
    ensures deleted.Ok?
    ensures fetched == Err(NotFound(NotFoundMessage(id)))
  {
    deleted := Delete(db, id);
    fetched := Get(db, id);
  }
}
