# Job board backend: partial-update SQL builder and the Job data-access class

This project models two parts of a job-board CRUD backend in Dafny:

- **`sqlForPartialUpdate`** (helpers/sql.js). It turns an object of new field values into the SET clause of a parameterised UPDATE (`"col"=$1, "col2"=$2`) and the list of values bound to those placeholders.
- **The `Job` class** (models/job.js). It has five operations:
  - `create` inserts a job;
  - `findAll` builds a search statement from up to three optional filters;
  - `get` fetches one job and nests its company;
  - `update` patches a job through `sqlForPartialUpdate`;
  - `delete` removes a job.

  `get`, `update` and `delete` turn "no row came back" into a NotFound error.

Modules, one per file:

- `Errors`: the error classes the code throws (`BadRequest`, `NotFound`), a `DatabaseError` standing for whatever the driver raises, and `Result`/`Option`.
- `Decimal`: rendering and reading back decimal numerals, as a template literal prints `${idx + 1}`.
- `JsValue`: JavaScript values. An object is an ordered list of own properties, which is what `Object.keys`, `Object.values`, `delete o[k]` and `o[k] = v` observe.
- `Sql`: `sqlForPartialUpdate` itself, plus a reader that parses a SET clause back into (column, placeholder) pairs, the way the database reads it.
- `Db`: the Postgres database, seen abstractly.
  - A class `Database` holds the `jobs` and `companies` tables as maps, an id counter and the foreign key.
  - Each of its methods is the one statement a `Job` operation sends.
  - The parts the model assembles at run time get a meaning: the SET clause with its id placeholder, and the WHERE conditions with `ILIKE` patterns.
- `Job`: the five operations.
  - `findAll` is a method that grows the clause and value lists as the source does. It is proved against the specification functions `Conditions`, `Bindings` and `SearchQuery`.
  - `get`, `update`, `create` and `delete` are methods on a `Database`. Their results and the new table contents are stated exactly.

`update` returns its row with the key `companyhandle` in lower case. The RETURNING alias in models/job.js:104 is unquoted, so Postgres folds it, and models/job.test.js:180 expects the lower-case key. The model keeps this.

## Model

| member | source | states |
|---|---|---|
| Sql.SqlForPartialUpdate | helpers/sql.js:15-26 | fails exactly when the object has no keys, with BadRequest("No data"); otherwise binds one value per key |
| Sql.Column | helpers/sql.js:20 | a key with no entry in the translation table is used as its own column name |
| Sql.SetClauseDecodes | helpers/sql.js:16-24 | read back, the SET clause has one fragment per key in key order; fragment i names the column of key i (`jsToSql[key]` when truthy, else the key) and uses placeholder $(i+1); the value that placeholder binds is the value of key i |
| Sql.ParseJoinedFragments | helpers/sql.js:20-23 | the fragments joined by ", " parse back to exactly the (column, placeholder) list they were rendered from |
| Sql.SetClauseHasNoStraySeparator | helpers/sql.js:23 | the joined clause starts with the first fragment's opening quote and ends with the last placeholder's digit, so there is no leading or trailing separator |
| Sql.SingleKeyHasNoSeparator | helpers/sql.js:20-24 | one key gives the single fragment `"col"=$1` with no comma, and one bound value |
| Sql.DocumentedExample | helpers/sql.test.js:13-16 | `{firstName:'Alyssa', age:23}` with `{firstName:'first_name', age:'age'}` gives `"first_name"=$1, "age"=$2` and `['Alyssa', 23]` |
| Decimal.NatToStringRoundTrip | helpers/sql.js:20 | a rendered placeholder number reads back as that number |
| Decimal.NatToStringInjective | helpers/sql.js:20 | distinct placeholder numbers render as distinct numerals |
| JsValue.GetProp | models/job.js:87 | reading a property the object lacks gives undefined |
| JsValue.GetPropAt | models/job.js:87 | reading a property gives the value stored under that name |
| JsValue.DeleteProp | models/job.js:90 | `delete job.companyHandle` removes that property and keeps every other property |
| JsValue.DeletePropAppended | models/job.js:90 | deleting the property added last gives the earlier object back |
| JsValue.SetProp | models/job.js:91 | assigning a new property appends it; assigning an existing one keeps the key order |
| JsValue.SetPropGet | models/job.js:91 | after `o[k] = v`, `o[k]` is v and every other property reads as before |
| JsValue.ReplaceLastProp | models/job.js:90-91 | deleting the property an object gained last, then assigning a name it lacks, leaves the other properties in place and puts the new one last |
| Db.JobFieldsKeys | models/job.js:66 | a fetched job starts with the keys id, title, salary, equity; neither companyHandle nor company is among them |
| Db.JobObjectFields | models/job.js:17 | the returned row has exactly the keys id, title, salary, equity and the handle alias, each holding its column |
| Db.LikeContains | models/job.js:48-50 | the pattern `%t%` (t without `%`, `_` or backslash) matches a title exactly when t occurs in it |
| Db.Database.InsertJob | models/job.js:11-20 | the insert succeeds exactly when the four bound values fit their columns and name an existing company; the new row gets a fresh id; nothing else changes |
| Db.Database.SelectJob | models/job.js:63-71 | one row for an existing id, none otherwise |
| Db.Database.SelectCompany | models/job.js:77-88 | one row for an existing company handle, none otherwise |
| Db.Database.RunUpdate | models/job.js:101-106 | runs the statement as the engine does: rejected, no row matched, or that one row replaced; the foreign key is preserved |
| Db.Database.DeleteJob | models/job.js:115-123 | removes the row with that id and returns its id if there was one |
| Job.Create | models/job.js:10-23 | a job is stored under a fresh id exactly when the engine accepts the four values; the result is the stored row, whose title, company handle and any salary and equity sent echo the data; a refused insert changes nothing |
| Job.CreatedJobEchoesData | models/job.js:17-22 | the row create returns carries the fields sent under their own names, plus the generated id |
| Job.FindAll | models/job.js:36-57 | the statement is the SELECT followed by ` WHERE ` and the conditions joined by ` AND ` (only when there are any), then ` ORDER BY title`; the values are those of `Bindings` |
| Job.SearchWithoutFilters | models/job.js:53-57 | with no filter there is no condition, nothing is bound, and the statement is the SELECT followed directly by ` ORDER BY title` |
| Job.SearchPlaceholdersFollowBindings | models/job.js:39-51 | the placeholders of a search are $1..$n in order for n bound values, with no gaps; at most 3 conditions and 2 values, and never more values than conditions |
| Job.NumberedParamsMatch | models/job.js:39-51 | placeholders $1..$n use every one of n bound values and nothing else |
| Job.SearchConditionsBindFilters | models/job.js:39-51 | `salary >= $k` reads the minimum salary, `title ILIKE $k` reads `%title%`, and `equity > 0` appears only when hasEquity is exactly true and binds nothing |
| Job.SearchSelectsMatchingRows | models/job.js:39-54 | a row passes every WHERE condition exactly when its salary is at least minSalary, its equity is above zero when hasEquity is true, and its title contains the title text |
| Job.Get | models/job.js:62-94 | NotFound("No job: id") exactly when the id is missing; otherwise the job's id, title, salary and equity followed by `company`, the company's row, and no `companyHandle` |
| Job.ReshapeReplacesCompanyHandle | models/job.js:90-91 | deleting companyHandle and assigning company turns the fetched row into id, title, salary, equity, company |
| Job.UpdateStatementDecodes | models/job.js:97-106 | for n fields the statement reads back as field i from $(i+1) with id placeholder $(n+1), and binds the field values in order followed by the id |
| Job.UpdateIdPlaceholderFollowsSetValues | models/job.js:99-106 | no SET placeholder equals the id placeholder; every placeholder names a bound value and every bound value is named; the id is the last value bound |
| Job.PlaceholdersInOrder | models/job.js:99-106 | placeholders $1..$n followed by $(n+1) use each of n+1 values exactly once |
| Job.ApplyIsPatch | models/job.js:101-104 | applying the decoded assignments in order sets each field sent and keeps every other field |
| Job.ExecAssignmentsPatch | models/job.js:101-106 | given the read-back assignments and values, the engine rejects the statement when a field does not fit its column, otherwise patches the row with that id with exactly the fields sent, or matches nothing |
| Job.ExecReadBackCall | models/job.js:101-106 | a statement whose SET clause and id placeholder read back as above has exactly that outcome |
| Job.UpdateStatementPatches | models/job.js:96-106 | the engine rejects the update when some field does not fit its column; otherwise it patches the row with that id, if there is one, with exactly the fields sent |
| Job.UpdateTargetsId | models/job.js:103-106 | whatever the SET clause holds, the only row the statement can change is the one with the given id |
| Job.Update | models/job.js:96-112 | empty data gives BadRequest("No data") and changes nothing; a refused statement changes nothing; a missing id gives NotFound("No job: id"); otherwise the row is patched with the fields sent and returned |
| Job.RunUpdateCall | models/job.js:106-111 | the statement's outcome becomes a database error, NotFound, or the updated row, and the table changes only in the updated case |
| Job.Delete | models/job.js:114-126 | the row is gone afterwards; the result is success exactly when it existed, NotFound("No job: id") otherwise |
| Job.DeleteThenGet | models/job.js:114-126 | deleting an existing job succeeds, and fetching it afterwards gives NotFound |

## Left out

- The Postgres client is not modelled as such. The fixed statement texts of create, get and delete are represented only by the `Database` method each one calls, together with its bound values.
- The SELECT of findAll is single-spaced; its whitespace is not modelled.
- The UPDATE statement is represented only by the two parts update assembles at run time: the SET clause and the id placeholder. The fixed text around them is not modelled, and the engine reads the two parts separately.
- Executing the findAll SELECT is left to the engine: the LEFT JOIN that adds `companyName` and the ORDER BY title sort. Its WHERE clause is given a meaning in `Job.SearchSelectsMatchingRows`, but the rows findAll returns are not computed.
- Job.SearchSelectsMatchingRows: assumes minSalary is undefined or an integer, and that the title text has no `%`, `_` or backslash. Wildcards inside the title and LIKE's backslash escape are not modelled.
- Job.SearchSelectsMatchingRows: `ILIKE` case folding is not modelled; the title match is case-sensitive.
- The NUMERIC comparison `equity > 0` is modelled as "the decimal text has a non-zero digit", which holds for the non-negative values the table stores.
- Floating-point numbers and NaN are left out. Salaries are integers, and equity travels as text.
- Db.Database.InsertJob: the engine accepts a value by its JavaScript type: a string title and handle, an integer or null salary, a string or null equity. The driver's text coercion of parameters, such as '100' for an INTEGER, is not modelled. Neither is INTEGER's 32-bit range, or NUMERIC's refusal of a non-numeral equity.
- Db.Database.InsertJob: equity is stored and returned as the exact text bound. Postgres's rewriting of a NUMERIC into its standard form, such as `.5` into `0.5`, is not modelled.
- Job.Create: "Ok exactly when the engine accepts the four values" is stated for the engine above. A real database also refuses a non-numeral equity or an out-of-range salary, and accepts numeric strings.
- Job.CreatedJobEchoesData: the equity echoed is the text sent, without the database's NUMERIC normalisation.
- Job.Update: "rejected exactly when some field does not fit" uses the same type-based fit. Neither NUMERIC validation and normalisation of equity nor the driver's text coercion is modelled.
- Sql.SetClauseDecodes: holds only for column names without a double quote. The builder interpolates names unescaped, so a quote in a key changes the statement; body validation upstream keeps such keys out.
- Job.UpdateStatementPatches: stated only for keys without a double quote, for the same reason.
- Job.Update: the field-by-field patch is stated only for keys without a double quote. For other keys only the general outcome holds, in terms of the engine's reading of the statement.
- Sql.Column: `jsToSql[key]` only looks at own properties. Inherited ones such as `constructor` are not modelled.
- Integer-like keys, which JavaScript orders before other keys, are not modelled: keys keep insertion order.
- An update that names any column other than title, salary or equity is refused by the engine in this model. CHECK constraints of the table are not modelled.
- The route layer is left out:
  - Express routing and the error-to-status translation;
  - jsonschema validation of bodies and query strings;
  - the `+q.minSalary` coercion;
  - the authentication middleware.
  The id arrives as an integer, not as the string the route passes.
- Async sequencing and atomicity between the two queries of `get` are left out; the tables are read in one state.
- The text of a database error is not modelled, only that one occurred.
