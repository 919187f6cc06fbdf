/** The JavaScript values the job model handles: query parameters, rows the
    database driver returns and the objects the model reshapes. An object is
    its ordered list of own properties (insertion order, which is what
    `Object.keys`, `Object.values` and `delete` observe). */
module JsValue {
  import opened Decimal

  datatype Value =
    | Undefined
    | Null
    | Bool(b: bool)
    | Int(i: int)
    | Str(s: string)
    | Obj(props: seq<Prop>)

  datatype Prop = Prop(key: string, val: Value)

  /** `Object.keys(o)` */
  function Keys(o: seq<Prop>): seq<string> {
    seq(|o|, i requires 0 <= i < |o| => o[i].key)
  }

  /** `Object.values(o)` */
  function Values(o: seq<Prop>): seq<Value> {
    seq(|o|, i requires 0 <= i < |o| => o[i].val)
  }

  /** An object never has two own properties with the same name. */
  predicate DistinctKeys(o: seq<Prop>) {
    forall i, j :: 0 <= i < j < |o| ==> o[i].key != o[j].key
  }

  /** Property access `o[k]`: undefined when o has no property k. */
  function GetProp(o: seq<Prop>, k: string): (v: Value)
    ensures k !in Keys(o) ==> v == Undefined
  {
    if o == [] then Undefined
    else if o[0].key == k then (assert Keys(o)[0] == k; o[0].val)
    else (assert Keys(o[1..]) == Keys(o)[1..]; GetProp(o[1..], k))
  }

  /** The value a property access finds is the one stored under that name. */
  lemma {:induction false} GetPropAt(o: seq<Prop>, i: nat)
    requires DistinctKeys(o) && i < |o|
    ensures GetProp(o, o[i].key) == o[i].val
  {
    if i > 0 {
      GetPropAt(o[1..], i - 1);
    }
  }

  /** `delete o[k]`: drops property k and keeps the others in order. */
  function DeleteProp(o: seq<Prop>, k: string): (r: seq<Prop>)
    ensures k !in Keys(r)
    ensures forall p :: p in r <==> p in o && p.key != k
  {
    if o == [] then []
    else if o[0].key == k then DeleteProp(o[1..], k)
    else [o[0]] + DeleteProp(o[1..], k)
  }

  /** Deleting the property an object gained last gives the object back. */
  lemma {:induction false} DeletePropAppended(o: seq<Prop>, p: Prop)
    requires p.key !in Keys(o)
    ensures DeleteProp(o + [p], p.key) == o
  {
    if o == [] {
      assert [p][1..] == [];
    } else {
      assert Keys(o)[0] == o[0].key;
      assert Keys(o[1..]) == Keys(o)[1..];
      assert (o + [p])[1..] == o[1..] + [p];
      DeletePropAppended(o[1..], p);
    }
  }

  /** Adding a property adds its name at the end of `Object.keys`. */
  lemma KeysAppend(o: seq<Prop>, p: Prop)
    ensures Keys(o + [p]) == Keys(o) + [p.key]
  {
  }

  /** Deleting the property added last and then assigning a new one
      replaces the last property by the new one. */
  lemma ReplaceLastProp(o: seq<Prop>, p: Prop, k: string, v: Value)
    requires p.key !in Keys(o) && k !in Keys(o)
    ensures SetProp(DeleteProp(o + [p], p.key), k, v) == o + [Prop(k, v)]
  {
    DeletePropAppended(o, p);
  }

  /** `o[k] = v`: overwrites property k where it stands, or appends it. */
  function SetProp(o: seq<Prop>, k: string, v: Value): (r: seq<Prop>)
    ensures k in Keys(o) ==> Keys(r) == Keys(o)
    ensures k !in Keys(o) ==> r == o + [Prop(k, v)]
  {
    if o == [] then [Prop(k, v)]
    else if o[0].key == k then (assert Keys(o)[0] == k; [Prop(k, v)] + o[1..])
    else
      assert Keys(o) == [o[0].key] + Keys(o[1..]);
      var r := [o[0]] + SetProp(o[1..], k, v);
      assert Keys(r) == [o[0].key] + Keys(r[1..]);
      r
  }

  /** After `o[k] = v`, reading k gives v and every other property reads as before. */
  lemma {:induction false} SetPropGet(o: seq<Prop>, k: string, v: Value, j: string)
    ensures GetProp(SetProp(o, k, v), k) == v
    ensures j != k ==> GetProp(SetProp(o, k, v), j) == GetProp(o, j)
  {
    if o != [] && o[0].key != k {
      SetPropGet(o[1..], k, v, j);
      assert SetProp(o, k, v)[1..] == SetProp(o[1..], k, v);
    }
  }

  /** JavaScript truthiness, as `||` and `!` test it. */
  predicate Truthy(v: Value) {
    match v
    case Undefined => false
    case Null => false
    case Bool(b) => b
    case Int(i) => i != 0
    case Str(s) => s != ""
    case Obj(_) => true
  }

  /** `${v}`: the text a template literal interpolates for v. */
  function TemplateString(v: Value): string {
    match v
    case Undefined => "undefined"
    case Null => "null"
    case Bool(b) => if b then "true" else "false"
    case Int(i) => IntToString(i)
    case Str(s) => s
    case Obj(_) => "[object Object]"
  }
}
