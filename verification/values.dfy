/** Parsed JSON values as the configuration loader hands them to the rest of the
    program, with the few Python behaviours the core applies to them:
    truthiness, `str()`, type names, and walking nested objects by key. */
module Values {
  import opened Outcomes
  import opened Text

  /** A parsed JSON document. Objects are keyed by string; the order in which a
      Python dict remembers its keys is not kept (every order-sensitive use in
      the core sorts first). */
  datatype Json =
    | Null
    | Bool(b: bool)
    | Num(n: int)
    | Str(s: string)
    | Arr(items: seq<Json>)
    | Obj(fields: map<string, Json>)

  /** Python truthiness: `None`, `False`, `0` and empty containers are falsy. */
  predicate Truthy(j: Json) {
    match j
    case Null => false
    case Bool(b) => b
    case Num(n) => n != 0
    case Str(s) => s != []
    case Arr(xs) => xs != []
    case Obj(m) => m != map[]
  }

  /** The name `type(value)` reports for a parsed JSON value. */
  function TypeName(j: Json): string {
    match j
    case Null => "NoneType"
    case Bool(_) => "bool"
    case Num(_) => "int"
    case Str(_) => "str"
    case Arr(_) => "list"
    case Obj(_) => "dict"
  }

  /** `str(value)`: a string is itself, anything else is its `repr`. */
  function Stringify(j: Json): (r: string)
    ensures j.Str? ==> r == j.s
    ensures j.Null? ==> r == "None"
    ensures j.Bool? ==> r == (if j.b then "True" else "False")
    ensures j.Num? ==> r == IntStr(j.n)
    ensures j.Num? && j.n >= 0 ==> AllIn(Digits, r) && DigitsValue(r) == j.n && (r[0] == '0' ==> r == "0")
  {
    match j
    case Str(s) => s
    case _ => Repr(j)
  }

  /** `repr(value)`; strings are quoted without escaping and dict entries are
      listed in sorted key order. */
  function Repr(j: Json): string
    decreases j, 1, 0
  {
    match j
    case Null => "None"
    case Bool(b) => if b then "True" else "False"
    case Num(n) => IntStr(n)
    case Str(s) => "'" + s + "'"
    case Arr(xs) => "[" + ReprItems(xs) + "]"
    case Obj(m) => "{" + ReprFields(m, SetToSorted(m.Keys)) + "}"
  }

  function ReprItems(xs: seq<Json>): string
    decreases xs, 0, 0
  {
    if xs == [] then ""
    else if |xs| == 1 then Repr(xs[0])
    else Repr(xs[0]) + ", " + ReprItems(xs[1..])
  }

  function ReprFields(m: map<string, Json>, keys: seq<string>): string
    requires forall k | k in keys :: k in m
    decreases Obj(m), 0, |keys|
  {
    if keys == [] then ""
    else
      var entry := "'" + keys[0] + "': " + Repr(m[keys[0]]);
      if |keys| == 1 then entry else entry + ", " + ReprFields(m, keys[1..])
  }

  /** The value reached from `node` by following `keys` through nested
      objects, one key per level; `None` when some level is not an object or
      lacks the key. */
  function Descend(node: Json, keys: seq<string>): Option<Json>
    decreases |keys|
  {
    if keys == [] then Some(node)
    else
      match node
      case Obj(m) => if keys[0] in m then Descend(m[keys[0]], keys[1..]) else None
      case _ => None
  }

  /** Following `p + q` is following `p`, then `q` from where `p` ended. */
  lemma {:induction false} DescendAppend(node: Json, p: seq<string>, q: seq<string>)
    ensures Descend(node, p + q) ==
            (match Descend(node, p) case Some(n) => Descend(n, q) case None => None)
    decreases |p|
  {
    if p != [] {
      assert (p + q)[1..] == p[1..] + q;
      match node
      case Obj(m) =>
        if p[0] in m { DescendAppend(m[p[0]], p[1..], q); }
      case _ =>
    } else {
      assert p + q == q;
    }
  }

  /** A non-empty path from an object goes through the child its first key
      names. */
  lemma DescendHead(m: map<string, Json>, ks: seq<string>)
    requires ks != []
    ensures Descend(Obj(m), ks) == if ks[0] in m then Descend(m[ks[0]], ks[1..]) else None
  {
  }

  /** Only an object leads anywhere along a non-empty path, and a path that
      reaches an object starts at one. */
  lemma DescendFromObject(node: Json, ks: seq<string>)
    requires Descend(node, ks).Some?
    requires ks != [] || Descend(node, ks).value.Obj?
    ensures node.Obj?
  {
  }

  lemma DescendStep(node: Json, p: seq<string>, m: map<string, Json>, k: string)
    requires Descend(node, p) == Some(Obj(m)) && k in m
    ensures Descend(node, p + [k]) == Some(m[k])
  {
    DescendAppend(node, p, [k]);
  }
}
