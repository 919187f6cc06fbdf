/** helpers/sql.js: `sqlForPartialUpdate`, which turns an object of new
    field values into the SET clause of a parameterised UPDATE and the list
    of values bound to its placeholders. */
module Sql {
  import opened Errors
  import opened Decimal
  import opened JsValue

  /** `parts.join(sep)` */
  function Join(parts: seq<string>, sep: string): string {
    if |parts| == 0 then ""
    else if |parts| == 1 then parts[0]
    else parts[0] + sep + Join(parts[1..], sep)
  }

  /** One `"<column>"=$<placeholder>` fragment, before it is rendered. */
  datatype Assignment = Assignment(column: string, placeholder: nat)

  function Fragment(a: Assignment): string {
    "\"" + a.column + "\"=$" + NatToString(a.placeholder)
  }

  function Fragments(assigns: seq<Assignment>): seq<string> {
    seq(|assigns|, i requires 0 <= i < |assigns| => Fragment(assigns[i]))
  }

  /** The column a key is written to: `jsToSql[key] || key`. */
  function Column(jsToSql: seq<Prop>, key: string): (col: string)
    ensures key !in Keys(jsToSql) ==> col == key
  {
    var mapped := GetProp(jsToSql, key);
    if Truthy(mapped) then TemplateString(mapped) else key
  }

  /** `keys.map((colName, idx) => ...)`: key number idx goes to placeholder idx + 1. */
  function Assignments(keys: seq<string>, jsToSql: seq<Prop>): seq<Assignment> {
    seq(|keys|, idx requires 0 <= idx < |keys| => Assignment(Column(jsToSql, keys[idx]), idx + 1))
  }

  datatype SetClause = SetClause(setCols: string, values: seq<Value>)

  /** An empty object is refused with BadRequest("No data"); otherwise the
      fragments are joined by ", " and the values listed in key order. */
  function SqlForPartialUpdate(dataToUpdate: seq<Prop>, jsToSql: seq<Prop>): (r: Result<SetClause>)
    ensures r.Err? <==> |dataToUpdate| == 0
    ensures r.Err? ==> r.error == BadRequest("No data")
    ensures r.Ok? ==> |r.value.values| == |dataToUpdate|
  {
    var keys := Keys(dataToUpdate);
    if |keys| == 0 then Err(BadRequest("No data"))
    else Ok(SetClause(Join(Fragments(Assignments(keys, jsToSql)), ", "), Values(dataToUpdate)))
  }

  // Reading a SET clause back, as the database does.

  predicate NoQuote(s: string) {
    forall i :: 0 <= i < |s| ==> s[i] != '"'
  }

  /** Length of the text before the first double quote of s. */
  function QuoteFreeRun(s: string): (n: nat)
    ensures n <= |s| && NoQuote(s[..n]) && (n < |s| ==> s[n] == '"')
  {
    if s == [] || s[0] == '"' then 0 else 1 + QuoteFreeRun(s[1..])
  }

  lemma QuoteFreeRunOf(col: string, rest: string)
    requires NoQuote(col) && |rest| > 0 && rest[0] == '"'
    ensures QuoteFreeRun(col + rest) == |col|
  {
    var s := col + rest;
    assert forall i :: 0 <= i < |col| ==> s[i] == col[i];
    assert s[|col|] == rest[0];
  }

  /** Reads a numeral off the front of s; gives its value and the text after it. */
  function ParseNumber(s: string): (r: Option<(nat, string)>)
    ensures r.Some? ==> |r.value.1| < |s|
  {
    var d := DigitRun(s);
    if d == 0 then None else Some((DigitsValue(s[..d]), s[d..]))
  }

  /** Reads `"=$<digits>` that closes a fragment whose column is col. */
  function ParsePlaceholder(col: string, s: string): (r: Option<(Assignment, string)>)
    ensures r.Some? ==> |r.value.1| < |s|
  {
    if |s| < 3 || s[0] != '"' || s[1] != '=' || s[2] != '$' then None
    else
      match ParseNumber(s[3..])
      case None => None
      case Some((k, rest)) => Some((Assignment(col, k), rest))
  }

  /** Reads one fragment off the front of s; gives it and the text after it. */
  function ParseFragment(s: string): (r: Option<(Assignment, string)>)
    ensures r.Some? ==> |r.value.1| < |s|
  {
    if |s| == 0 || s[0] != '"' then None
    else
      var n := QuoteFreeRun(s[1..]);
      ParsePlaceholder(s[1..][..n], s[1..][n..])
  }

  /** Reads a whole SET clause: fragments separated by ", ". */
  function ParseSetClause(s: string): Option<seq<Assignment>>
    decreases |s|
  {
    match ParseFragment(s)
    case None => None
    case Some((a, rest)) =>
      if rest == [] then Some([a])
      else if |rest| >= 2 && rest[..2] == ", " then
        match ParseSetClause(rest[2..])
        case None => None
        case Some(more) => Some([a] + more)
      else None
  }

  lemma ParseNumberOf(n: nat, rest: string)
    requires rest == [] || !IsDigit(rest[0])
    ensures ParseNumber(NatToString(n) + rest) == Some((n, rest))
  {
    var digits := NatToString(n);
    DigitRunOf(digits, rest);
    assert (digits + rest)[..|digits|] == digits;
    assert (digits + rest)[|digits|..] == rest;
    NatToStringRoundTrip(n);
  }

  lemma ParsePlaceholderOf(col: string, k: nat, rest: string)
    requires rest == [] || !IsDigit(rest[0])
    ensures ParsePlaceholder(col, "\"=$" + NatToString(k) + rest) == Some((Assignment(col, k), rest))
  {
    var t := "\"=$" + NatToString(k) + rest;
    assert |t| >= 3 && t[0] == '"' && t[1] == '=' && t[2] == '$';
    assert t[3..] == NatToString(k) + rest;
    ParseNumberOf(k, rest);
  }

  lemma ParseFragmentOf(a: Assignment, rest: string)
    requires NoQuote(a.column)
    requires rest == [] || !IsDigit(rest[0])
    ensures ParseFragment(Fragment(a) + rest) == Some((a, rest))
  {
    var t := "\"=$" + NatToString(a.placeholder) + rest;
    var s := Fragment(a) + rest;
    assert s[1..] == a.column + t;
    QuoteFreeRunOf(a.column, t);
    assert (a.column + t)[..|a.column|] == a.column;
    assert (a.column + t)[|a.column|..] == t;
    ParsePlaceholderOf(a.column, a.placeholder, rest);
  }

  lemma ParseSetClauseStep(s: string, a: Assignment, tail: string)
    requires ParseFragment(s) == Some((a, ", " + tail))
    ensures ParseSetClause(s) == match ParseSetClause(tail)
                                 case None => None
                                 case Some(more) => Some([a] + more)
  {
    assert (", " + tail)[2..] == tail;
  }

  lemma JoinStep(parts: seq<string>, sep: string)
    requires |parts| > 1
    ensures Join(parts, sep) == parts[0] + (sep + Join(parts[1..], sep))
  {
  }

  /** Joined fragments with quote-free columns read back as exactly those fragments. */
  lemma {:induction false} ParseJoinedFragments(assigns: seq<Assignment>)
    requires |assigns| > 0
    requires forall i :: 0 <= i < |assigns| ==> NoQuote(assigns[i].column)
    ensures ParseSetClause(Join(Fragments(assigns), ", ")) == Some(assigns)
  {
    if |assigns| == 1 {
      ParseOneJoinedFragment(assigns);
    } else {
      ParseJoinedFragments(assigns[1..]);
      ParseJoinedFragmentsStep(assigns);
    }
  }

  lemma ParseOneJoinedFragment(assigns: seq<Assignment>)
    requires |assigns| == 1 && NoQuote(assigns[0].column)
    ensures ParseSetClause(Join(Fragments(assigns), ", ")) == Some(assigns)
  {
    ParseSingleFragment(assigns[0]);
    assert Fragments(assigns) == [Fragment(assigns[0])];
    assert assigns == [assigns[0]];
  }

  /** If the fragments after the first read back, so do all of them. */
  lemma ParseJoinedFragmentsStep(assigns: seq<Assignment>)
    requires |assigns| > 1 && NoQuote(assigns[0].column)
    requires ParseSetClause(Join(Fragments(assigns[1..]), ", ")) == Some(assigns[1..])
    ensures ParseSetClause(Join(Fragments(assigns), ", ")) == Some(assigns)
  {
    var parts := Fragments(assigns);
    var rest := assigns[1..];
    var tail := Join(Fragments(rest), ", ");
    assert Join(parts, ", ") == Fragment(assigns[0]) + (", " + tail) by {
      FragmentsTail(assigns);
      JoinStep(parts, ", ");
    }
    assert [assigns[0]] + rest == assigns;
    ParseFragmentThenClause(assigns[0], tail, rest, Join(parts, ", "));
  }

  lemma FragmentsTail(assigns: seq<Assignment>)
    requires |assigns| > 0
    ensures Fragments(assigns)[0] == Fragment(assigns[0])
    ensures Fragments(assigns)[1..] == Fragments(assigns[1..])
  {
  }

  lemma ParseSingleFragment(a: Assignment)
    requires NoQuote(a.column)
    ensures ParseSetClause(Fragment(a)) == Some([a])
  {
    ParseFragmentOf(a, "");
    assert Fragment(a) + "" == Fragment(a);
  }

  /** A fragment, a separator and a clause that reads back read back as
      that fragment followed by the clause's fragments. */
  lemma ParseFragmentThenClause(a: Assignment, tail: string, more: seq<Assignment>, s: string)
    requires NoQuote(a.column)
    requires ParseSetClause(tail) == Some(more)
    requires s == Fragment(a) + (", " + tail)
    ensures ParseSetClause(s) == Some([a] + more)
  {
    ParseFragmentOf(a, ", " + tail);
    ParseSetClauseStep(s, a, tail);
  }

  /** The positional invariant of the SET clause: reading `setCols` back
      gives one fragment per key, in key order; fragment i names the column
      of key i (`jsToSql[key]` when truthy, else the key) and uses
      placeholder $(i+1), and `values[i]`, the value that placeholder binds,
      is the value stored under key i. Needs the column names free of double
      quotes, which the builder interpolates unescaped. */
  lemma SetClauseDecodes(dataToUpdate: seq<Prop>, jsToSql: seq<Prop>)
    requires |dataToUpdate| > 0 && DistinctKeys(dataToUpdate)
    requires forall i :: 0 <= i < |dataToUpdate| ==> NoQuote(Column(jsToSql, dataToUpdate[i].key))
    ensures SqlForPartialUpdate(dataToUpdate, jsToSql).Ok?
    ensures var r := SqlForPartialUpdate(dataToUpdate, jsToSql).value;
            var p := ParseSetClause(r.setCols);
            && p.Some? && |p.value| == |dataToUpdate|
            && forall i :: 0 <= i < |dataToUpdate| ==>
                 && p.value[i] == Assignment(Column(jsToSql, dataToUpdate[i].key), i + 1)
                 && r.values[p.value[i].placeholder - 1] == GetProp(dataToUpdate, dataToUpdate[i].key)
  {
    var assigns := Assignments(Keys(dataToUpdate), jsToSql);
    var r := SqlForPartialUpdate(dataToUpdate, jsToSql).value;
    assert |assigns| == |dataToUpdate|;
    assert forall i :: 0 <= i < |assigns| ==> assigns[i] == Assignment(Column(jsToSql, dataToUpdate[i].key), i + 1);
    assert ParseSetClause(r.setCols) == Some(assigns) by {
      assert r.setCols == Join(Fragments(assigns), ", ");
      ParseJoinedFragments(assigns);
    }
    assert r.values == Values(dataToUpdate);
    forall i | 0 <= i < |dataToUpdate|
      ensures GetProp(dataToUpdate, dataToUpdate[i].key) == dataToUpdate[i].val
    {
      GetPropAt(dataToUpdate, i);
    }
  }

  lemma {:induction false} JoinEnds(parts: seq<string>, sep: string)
    requires |parts| > 0
    ensures var j := Join(parts, sep);
            var last := parts[|parts| - 1];
            |j| >= |parts[0]| && |j| >= |last|
            && j[..|parts[0]|] == parts[0] && j[|j| - |last|..] == last
  {
    if |parts| > 1 {
      JoinEnds(parts[1..], sep);
    }
  }

  /** `setCols` has no leading or trailing separator: it opens with the first
      fragment's quote and closes with the last placeholder's final digit. */
  lemma SetClauseHasNoStraySeparator(dataToUpdate: seq<Prop>, jsToSql: seq<Prop>)
    requires |dataToUpdate| > 0
    ensures var s := SqlForPartialUpdate(dataToUpdate, jsToSql).value.setCols;
            |s| > 0 && s[0] == '"' && IsDigit(s[|s| - 1])
  {
    var parts := Fragments(Assignments(Keys(dataToUpdate), jsToSql));
    JoinEnds(parts, ", ");
    var last := parts[|parts| - 1];
    var a := Assignments(Keys(dataToUpdate), jsToSql)[|parts| - 1];
    var digits := NatToString(a.placeholder);
    assert last[|last| - 1] == digits[|digits| - 1];
  }

  /** A single key gives one fragment and no separator at all. */
  lemma SingleKeyHasNoSeparator(dataToUpdate: seq<Prop>, jsToSql: seq<Prop>)
    requires |dataToUpdate| == 1
    ensures SqlForPartialUpdate(dataToUpdate, jsToSql)
            == Ok(SetClause("\"" + Column(jsToSql, dataToUpdate[0].key) + "\"=$1", [dataToUpdate[0].val]))
  {
    var assigns := Assignments(Keys(dataToUpdate), jsToSql);
    assert assigns == [Assignment(Column(jsToSql, dataToUpdate[0].key), 1)];
    assert Fragments(assigns) == [Fragment(assigns[0])];
    assert Values(dataToUpdate) == [dataToUpdate[0].val];
    var col := Column(jsToSql, dataToUpdate[0].key);
    assert NatToString(1) == "1";
    assert "\"" + col + "\"=$" + "1" == "\"" + col + "\"=$1";
  }

  /** The documented example: `{firstName: 'Alyssa', age: 23}` with
      `{firstName: 'first_name', age: 'age'}`. */
  lemma DocumentedExample()
    ensures SqlForPartialUpdate(
              [Prop("firstName", Str("Alyssa")), Prop("age", Int(23))],
              [Prop("firstName", Str("first_name")), Prop("age", Str("age"))])
            == Ok(SetClause("\"first_name\"=$1, \"age\"=$2", [Str("Alyssa"), Int(23)]))
  {
    var data := [Prop("firstName", Str("Alyssa")), Prop("age", Int(23))];
    var jsToSql := [Prop("firstName", Str("first_name")), Prop("age", Str("age"))];
    var assigns := Assignments(Keys(data), jsToSql);
    assert assigns == [Assignment("first_name", 1), Assignment("age", 2)] by {
      assert Keys(data) == ["firstName", "age"];
      assert Column(jsToSql, "firstName") == "first_name";
      assert GetProp(jsToSql, "age") == Str("age");
    }
    assert Fragments(assigns) == ["\"first_name\"=$1", "\"age\"=$2"] by {
      assert NatToString(1) == "1" && NatToString(2) == "2";
      assert Fragment(assigns[0]) == "\"" + "first_name" + "\"=$" + "1" == "\"first_name\"=$1";
      assert Fragment(assigns[1]) == "\"" + "age" + "\"=$" + "2" == "\"age\"=$2";
    }
    assert Join(Fragments(assigns), ", ") == "\"first_name\"=$1" + ", " + "\"age\"=$2"
        == "\"first_name\"=$1, \"age\"=$2";
    assert Values(data) == [Str("Alyssa"), Int(23)];
  }
}
