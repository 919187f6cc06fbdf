/** The database the job model sends its statements to, seen abstractly:
    the jobs and companies tables, how JavaScript values bind to columns,
    and how the engine evaluates the parts of the statements that the model
    assembles at run time (the SET clause and id placeholder of an update,
    the WHERE conditions of a search). */
module Db {
  import opened Errors
  import opened Decimal
  import opened JsValue
  import opened Sql

  /** A row of table jobs; its id is the key it is stored under. `equity`
      is kept as the text it was bound with and is handed back unchanged. */
  datatype JobRow = JobRow(title: string, salary: Option<int>, equity: Option<string>, companyHandle: string)

  /** A row of table companies, which this model only reads. */
  datatype Company = Company(
    handle: string, name: string, description: string,
    numEmployees: Option<int>, logoUrl: Option<string>)

  function IntOrNull(v: Option<int>): Value {
    match v
    case None => Null
    case Some(i) => Int(i)
  }

  function TextOrNull(v: Option<string>): Value {
    match v
    case None => Null
    case Some(s) => Str(s)
  }

  /** The row object the driver returns for
      `RETURNING id, title, salary, equity, company_handle AS <handleKey>`. */
  function JobObject(id: int, row: JobRow, handleKey: string): Value {
    Obj(JobFields(id, row) + [Prop(handleKey, Str(row.companyHandle))])
  }

  /** The columns every returned job starts with. */
  function JobFields(id: int, row: JobRow): seq<Prop> {
    [Prop("id", Int(id)), Prop("title", Str(row.title)), Prop("salary", IntOrNull(row.salary)),
     Prop("equity", TextOrNull(row.equity))]
  }

  /** The leading columns of a job row: neither the handle alias nor the
      nested company is among them. */
  lemma JobFieldsKeys(id: int, row: JobRow)
    ensures Keys(JobFields(id, row)) == ["id", "title", "salary", "equity"]
    ensures "companyHandle" !in Keys(JobFields(id, row))
    ensures "company" !in Keys(JobFields(id, row))
  {
    var keys := Keys(JobFields(id, row));
    assert keys == ["id", "title", "salary", "equity"];
    assert forall i :: 0 <= i < |keys| ==> |keys[i]| < |"company"| < |"companyHandle"|;
  }

  /** Reading a field of a returned job row gives the column it came from. */
  lemma JobObjectFields(id: int, row: JobRow, handleKey: string)
    requires handleKey !in ["id", "title", "salary", "equity"]
    ensures var o := JobObject(id, row, handleKey).props;
            && Keys(o) == ["id", "title", "salary", "equity", handleKey]
            && GetProp(o, "id") == Int(id)
            && GetProp(o, "title") == Str(row.title)
            && GetProp(o, "salary") == IntOrNull(row.salary)
            && GetProp(o, "equity") == TextOrNull(row.equity)
            && GetProp(o, handleKey) == Str(row.companyHandle)
  {
    var o := JobObject(id, row, handleKey).props;
    assert "salary"[0] != "equity"[0];
    assert DistinctKeys(o);
    GetPropAt(o, 0);
    GetPropAt(o, 1);
    GetPropAt(o, 2);
    GetPropAt(o, 3);
    GetPropAt(o, 4);
  }

  /** The row object for `SELECT handle, name, description,
      num_employees AS "numEmployees", logo_url AS "logoUrl"`. */
  function CompanyObject(c: Company): Value {
    Obj([Prop("handle", Str(c.handle)), Prop("name", Str(c.name)), Prop("description", Str(c.description)),
         Prop("numEmployees", IntOrNull(c.numEmployees)), Prop("logoUrl", TextOrNull(c.logoUrl))])
  }

  // Binding: the driver sends undefined and null as SQL NULL.

  /** A parameter bound to an INTEGER column: Some(None) is NULL, None a type error. */
  function AsNullableInt(v: Value): Option<Option<int>> {
    match v
    case Undefined => Some(None)
    case Null => Some(None)
    case Int(i) => Some(Some(i))
    case _ => None
  }

  /** A parameter bound to the equity column: accepted when it is a string
      or null, and stored as that text without normalising it. */
  function AsNullableText(v: Value): Option<Option<string>> {
    match v
    case Undefined => Some(None)
    case Null => Some(None)
    case Str(s) => Some(Some(s))
    case _ => None
  }

  /** The columns an UPDATE of this model may set, and the values each
      accepts by their JavaScript type: title a string, salary an integer or
      null, equity a string or null. */
  predicate Fits(column: string, v: Value) {
    || (column == "title" && v.Str?)
    || (column == "salary" && AsNullableInt(v).Some?)
    || (column == "equity" && AsNullableText(v).Some?)
  }

  function SetColumn(row: JobRow, column: string, v: Value): (r: JobRow)
    requires Fits(column, v)
    ensures r.companyHandle == row.companyHandle
  {
    if column == "title" then row.(title := v.s)
    else if column == "salary" then row.(salary := AsNullableInt(v).value)
    else row.(equity := AsNullableText(v).value)
  }

  // UPDATE jobs SET <setCols> WHERE id = <idIndex> RETURNING ...

  datatype UpdateQuery = UpdateQuery(setCols: string, idIndex: string)

  /** Reads a placeholder `$<digits>`. */
  function ParseIdIndex(s: string): Option<nat> {
    if |s| == 0 || s[0] != '$' then None
    else
      match ParseNumber(s[1..])
      case Some((k, rest)) => if rest == [] then Some(k) else None
      case None => None
  }

  lemma ParseIdIndexOf(k: nat)
    ensures ParseIdIndex("$" + NatToString(k)) == Some(k)
  {
    ParseNumberOf(k, "");
    assert ("$" + NatToString(k))[1..] == NatToString(k) + "";
  }

  function Placeholders(assigns: seq<Assignment>): seq<nat> {
    seq(|assigns|, i requires 0 <= i < |assigns| => assigns[i].placeholder)
  }

  /** Parameters line up with the placeholders: every placeholder names one
      of the bound values and every bound value is named by some placeholder. */
  predicate ParamsMatch(used: seq<nat>, count: nat) {
    && (forall i :: 0 <= i < |used| ==> 1 <= used[i] <= count)
    && (forall j :: 1 <= j <= count ==> j in used)
  }

  /** The assignments are ones the engine accepts: each column is set once
      and to a value its type admits. */
  predicate AssignmentsFit(assigns: seq<Assignment>, params: seq<Value>) {
    && (forall i :: 0 <= i < |assigns| ==>
          1 <= assigns[i].placeholder <= |params| && Fits(assigns[i].column, params[assigns[i].placeholder - 1]))
    && (forall i, j :: 0 <= i < j < |assigns| ==> assigns[i].column != assigns[j].column)
  }

  function ApplyAssignments(row: JobRow, assigns: seq<Assignment>, params: seq<Value>): (r: JobRow)
    requires AssignmentsFit(assigns, params)
    ensures r.companyHandle == row.companyHandle
    decreases |assigns|
  {
    if assigns == [] then row
    else
      var a := assigns[0];
      ApplyAssignments(SetColumn(row, a.column, params[a.placeholder - 1]), assigns[1..], params)
  }

  datatype UpdateOutcome = Rejected | NoMatch | Updated(id: int, row: JobRow)

  /** How the engine runs the update: it reads the SET clause and the id
      placeholder, checks the bindings, then changes the row with that id,
      if there is one. */
  function ExecUpdate(jobs: map<int, JobRow>, q: UpdateQuery, params: seq<Value>): UpdateOutcome {
    var assigns := ParseSetClause(q.setCols);
    var k := ParseIdIndex(q.idIndex);
    if assigns.None? || k.None? then Rejected
    else ExecAssignments(jobs, assigns.value, k.value, params)
  }

  /** The engine's checks on a statement that reads back: every placeholder
      bound and every binding used, the id an integer, every assignment
      fitting its column. */
  function ExecAssignments(jobs: map<int, JobRow>, assigns: seq<Assignment>, k: nat, params: seq<Value>): UpdateOutcome {
    var used := Placeholders(assigns) + [k];
    if !ParamsMatch(used, |params|) || !(assert used[|used| - 1] == k; params[k - 1].Int?)
       || !AssignmentsFit(assigns, params)
    then Rejected
    else
      var id := params[k - 1].i;
      if id in jobs then Updated(id, ApplyAssignments(jobs[id], assigns, params)) else NoMatch
  }

  // The WHERE conditions of a job search.

  datatype Cond = SalaryAtLeast(param: nat) | EquityPositive | TitleLike(param: nat)

  function CondText(c: Cond): string {
    match c
    case SalaryAtLeast(k) => "salary >= $" + NatToString(k)
    case EquityPositive => "equity > 0"
    case TitleLike(k) => "title ILIKE $" + NatToString(k)
  }

  /** SQL pattern matching: '%' matches any run of characters, '_' any one
      character, every other character itself. The backslash escape is not
      modelled, so patterns are only read for text without one. */
  predicate Like(pattern: string, s: string)
    decreases |pattern| + |s|
  {
    if pattern == [] then s == []
    else if pattern[0] == '%' then Like(pattern[1..], s) || (s != [] && Like(pattern, s[1..]))
    else if pattern[0] == '_' then s != [] && Like(pattern[1..], s[1..])
    else s != [] && s[0] == pattern[0] && Like(pattern[1..], s[1..])
  }

  predicate NoWildcards(t: string) {
    forall i :: 0 <= i < |t| ==> t[i] != '%' && t[i] != '_' && t[i] != '\\'
  }

  /** t occurs in s. */
  predicate Contains(s: string, t: string) {
    exists i :: 0 <= i <= |s| && t <= s[i..]
  }

  lemma {:induction false} LikeAnything(s: string)
    ensures Like("%", s)
  {
    if s != [] {
      LikeAnything(s[1..]);
    }
  }

  /** A wildcard-free text followed by '%' matches exactly the strings it begins. */
  lemma {:induction false} LikePrefix(t: string, s: string)
    requires NoWildcards(t)
    ensures Like(t + "%", s) <==> t <= s
  {
    if t == [] {
      assert t + "%" == "%";
      LikeAnything(s);
    } else {
      assert (t + "%")[0] == t[0] && (t + "%")[1..] == t[1..] + "%";
      if s != [] {
        LikePrefix(t[1..], s[1..]);
        assert t <= s <==> t[0] == s[0] && t[1..] <= s[1..];
      }
    }
  }

  /** A leading '%' lets the rest of the pattern match any suffix. */
  lemma {:induction false} LikeLeadingPercent(q: string, s: string)
    ensures Like("%" + q, s) <==> exists i :: 0 <= i <= |s| && Like(q, s[i..])
  {
    assert ("%" + q)[0] == '%' && ("%" + q)[1..] == q;
    if s == [] {
      assert s[0..] == s;
    } else {
      LikeLeadingPercent(q, s[1..]);
      if Like("%" + q, s) {
        if Like(q, s) {
          assert s[0..] == s;
        } else {
          var i :| 0 <= i <= |s[1..]| && Like(q, s[1..][i..]);
          assert s[1..][i..] == s[i + 1..];
        }
      } else {
        forall i | 0 <= i <= |s| ensures !Like(q, s[i..]) {
          if i == 0 {
            assert s[0..] == s;
          } else {
            assert s[1..][i - 1..] == s[i..];
          }
        }
      }
    }
  }

  /** The search pattern `%t%` matches exactly the titles that contain t,
      when t holds no wildcard character. */
  lemma LikeContains(t: string, s: string)
    requires NoWildcards(t)
    ensures Like("%" + t + "%", s) <==> Contains(s, t)
  {
    assert "%" + t + "%" == "%" + (t + "%");
    LikeLeadingPercent(t + "%", s);
    forall i | 0 <= i <= |s| ensures Like(t + "%", s[i..]) <==> t <= s[i..] {
      LikePrefix(t, s[i..]);
    }
  }

  /** A non-negative decimal text denotes a number above zero exactly when
      one of its digits is not 0. */
  predicate DecimalPositive(e: string) {
    exists i :: 0 <= i < |e| && '1' <= e[i] <= '9'
  }

  /** Whether a row passes one WHERE condition under the bound values
      (a NULL column or parameter makes a comparison fail). */
  predicate CondHolds(c: Cond, params: seq<Value>, row: JobRow) {
    match c
    case SalaryAtLeast(k) =>
      1 <= k <= |params| && params[k - 1].Int? && row.salary.Some? && row.salary.value >= params[k - 1].i
    case EquityPositive =>
      row.equity.Some? && DecimalPositive(row.equity.value)
    case TitleLike(k) =>
      1 <= k <= |params| && params[k - 1].Str? && Like(params[k - 1].s, row.title)
  }

  /** The two tables. Ids come from a serial counter; every job refers to
      an existing company (the foreign key the engine enforces). */
  class Database {
    var jobs: map<int, JobRow>
    var companies: map<string, Company>
    var nextId: int

    ghost predicate Valid()
      reads this
    {
      && (forall id :: id in jobs ==> id < nextId)
      && (forall id :: id in jobs ==> jobs[id].companyHandle in companies)
    }

    constructor (companies: map<string, Company>)
      ensures Valid()
      ensures jobs == map[] && this.companies == companies
    {
      jobs := map[];
      this.companies := companies;
      nextId := 1;
    }

    /** `INSERT INTO jobs (title, salary, equity, company_handle)
        VALUES ($1, $2, $3, $4) RETURNING id, title, salary, equity,
        company_handle AS "companyHandle"`. A NULL title or company handle,
        a value of the wrong type or an unknown company is refused. */
    method InsertJob(params: seq<Value>) returns (r: Result<seq<Value>>)
      requires Valid()
      modifies this`jobs, this`nextId
      ensures Valid()
      ensures r.Ok? <==> InsertableRow(params, companies).Some?
      ensures r.Err? ==> r.error.DatabaseError? && jobs == old(jobs)
      ensures r.Ok? ==>
                var row := InsertableRow(params, companies).value;
                var id := old(nextId);
                && id !in old(jobs)
                && jobs == old(jobs)[id := row]
                && r.value == [JobObject(id, row, "companyHandle")]
    {
      var row := InsertableRow(params, companies);
      if row.None? {
        return Err(DatabaseError("insert rejected"));
      }
      var id := nextId;
      jobs := jobs[id := row.value];
      nextId := nextId + 1;
      r := Ok([JobObject(id, row.value, "companyHandle")]);
    }

    /** `SELECT id, title, salary, equity, company_handle AS "companyHandle"
        FROM jobs WHERE id = $1` */
    method SelectJob(id: int) returns (rows: seq<Value>)
      ensures rows == if id in jobs then [JobObject(id, jobs[id], "companyHandle")] else []
    {
      if id in jobs {
        rows := [JobObject(id, jobs[id], "companyHandle")];
      } else {
        rows := [];
      }
    }

    /** `SELECT handle, name, ... FROM companies WHERE handle = $1` */
    method SelectCompany(handle: Value) returns (rows: seq<Value>)
      ensures rows == if handle.Str? && handle.s in companies then [CompanyObject(companies[handle.s])] else []
    {
      if handle.Str? && handle.s in companies {
        rows := [CompanyObject(companies[handle.s])];
      } else {
        rows := [];
      }
    }

    /** The update statement of `Job.update`. Its RETURNING alias
        `companyHandle` is unquoted, so the engine folds it to lower case. */
    method RunUpdate(q: UpdateQuery, params: seq<Value>) returns (r: Result<seq<Value>>)
      requires Valid()
      modifies this`jobs
      ensures Valid()
      ensures match ExecUpdate(old(jobs), q, params)
              case Rejected => r.Err? && r.error.DatabaseError? && jobs == old(jobs)
              case NoMatch => r == Ok([]) && jobs == old(jobs)
              case Updated(id, row) => r == Ok([JobObject(id, row, "companyhandle")]) && jobs == old(jobs)[id := row]
    {
      match ExecUpdate(jobs, q, params)
      case Rejected =>
        r := Err(DatabaseError("update rejected"));
      case NoMatch =>
        r := Ok([]);
      case Updated(id, row) =>
        jobs := jobs[id := row];
        r := Ok([JobObject(id, row, "companyhandle")]);
    }

    /** `DELETE FROM jobs WHERE id = $1 RETURNING id` */
    method DeleteJob(id: int) returns (rows: seq<Value>)
      requires Valid()
      modifies this`jobs
      ensures Valid()
      ensures jobs == old(jobs) - {id}
      ensures rows == if id in old(jobs) then [Obj([Prop("id", Int(id))])] else []
    {
      rows := if id in jobs then [Obj([Prop("id", Int(id))])] else [];
      jobs := jobs - {id};
    }
  }

  /** The row an insert with these four bound values stores, if the engine accepts it. */
  function InsertableRow(params: seq<Value>, companies: map<string, Company>): Option<JobRow> {
    if |params| == 4 && params[0].Str? && AsNullableInt(params[1]).Some? && AsNullableText(params[2]).Some?
       && params[3].Str? && params[3].s in companies
    then Some(JobRow(params[0].s, AsNullableInt(params[1]).value, AsNullableText(params[2]).value, params[3].s))
    else None
  }
}
