/** The decoded JSON value the GraphQL endpoint returns, and the three things
    the program does to such a value with Python's built-in operations:
    subscript it with a key, test it with `not`, and format it in an f-string. */
module Json {
  import opened Decimal

  /** A decoded JSON document: objects become dictionaries, arrays become lists. */
  datatype Json =
    | JNull
    | JBool(b: bool)
    | JInt(n: int)
    | JStr(s: string)
    | JArr(items: seq<Json>)
    | JObj(fields: map<string, Json>)

  /** The exceptions the program can end with. */
  datatype Error =
    | KeyError(key: string)       // subscript of a dictionary that lacks the key
    | TypeError                   // subscript or iteration of a value that does not support it
    | QueryFailed(message: string) // the exception raised for a non-200 HTTP status
    | JsonDecodeError             // a 200 response whose body is not JSON
    | Unrendered                  // an f-string field holding a list or dictionary (see README)

  /** Either a value or the exception that ends the run. */
  datatype Result<+T> = Ok(value: T) | Err(error: Error) {
    predicate IsFailure() {
      Err?
    }

    function PropagateFailure<U>(): Result<U>
      requires Err?
    {
      Err(error)
    }

    function Extract(): T
      requires Ok?
    {
      value
    }
  }

  /** Python's `j[key]` with a string key. */
  function Subscript(j: Json, key: string): (r: Result<Json>)
    ensures r.Ok? <==> j.JObj? && key in j.fields
    ensures r.Ok? ==> r.value == j.fields[key]
    ensures r.Err? ==> r.error == if j.JObj? then KeyError(key) else TypeError
  {
    match j
    case JObj(m) => if key in m then Ok(m[key]) else Err(KeyError(key))
    case _ => Err(TypeError)
  }

  /** `j[path[0]][path[1]]...`: the subscripts applied left to right, stopping at the first that raises. */
  function SubscriptPath(j: Json, path: seq<string>): (r: Result<Json>)
    ensures path == [] ==> r == Ok(j)
    ensures r.Err? ==> r.error == TypeError || (r.error.KeyError? && r.error.key in path)
    decreases |path|
  {
    if path == [] then Ok(j)
    else
      match Subscript(j, path[0])
      case Err(e) => Err(e)
      case Ok(child) => SubscriptPath(child, path[1..])
  }

  /** Python's truth value of a decoded JSON value (`not j` is its negation). */
  predicate Truthy(j: Json)
    ensures !Truthy(j) <==>
      j == JNull || j == JBool(false) || j == JInt(0) || j == JStr("") || j == JArr([]) || j == JObj(map[])
  {
    match j
    case JNull => false
    case JBool(b) => b
    case JInt(n) => n != 0
    case JStr(s) => s != ""
    case JArr(items) => items != []
    case JObj(m) => m != map[]
  }

  /** Python's `str(j)` for the scalars an f-string field can hold. */
  function Str(j: Json): (r: Result<string>)
    ensures r.Ok? <==> !j.JArr? && !j.JObj?
    ensures j.JStr? ==> r == Ok(j.s)
    ensures j.JNull? ==> r == Ok("None")
    ensures j.JBool? ==> r == Ok(if j.b then "True" else "False")
    ensures j.JInt? ==> r == Ok(IntToString(j.n))
  {
    match j
    case JNull => Ok("None")
    case JBool(b) => Ok(if b then "True" else "False")
    case JInt(n) => Ok(IntToString(n))
    case JStr(s) => Ok(s)
    case _ => Err(Unrendered)
  }

  /** A path of subscripts is the first part followed by the rest: the first
      exception on the way is the one raised. */
  lemma {:induction false} SubscriptPathConcat(j: Json, p: seq<string>, q: seq<string>)
    ensures SubscriptPath(j, p + q) ==
      match SubscriptPath(j, p)
      case Err(e) => Err(e)
      case Ok(x) => SubscriptPath(x, q)
    decreases |p|
  {
    if p == [] {
      assert p + q == q;
    } else {
      assert (p + q)[0] == p[0];
      assert (p + q)[1..] == p[1..] + q;
      match Subscript(j, p[0])
      case Err(e) =>
      case Ok(child) => SubscriptPathConcat(child, p[1..], q);
    }
  }

  /** A chain of three subscripts is the three subscripts one after the other. */
  lemma SubscriptPathThree(j: Json, a: string, b: string, c: string)
    ensures SubscriptPath(j, [a, b, c]) ==
      match Subscript(j, a)
      case Err(e) => Err(e)
      case Ok(x) =>
        match Subscript(x, b)
        case Err(e) => Err(e)
        case Ok(y) => Subscript(y, c)
  {
    assert [a, b, c][1..] == [b, c];
    assert [b, c][1..] == [c];
    assert [c][1..] == [];
    match Subscript(j, a)
    case Err(_) =>
    case Ok(x) =>
      match Subscript(x, b)
      case Err(_) =>
      case Ok(y) =>
        assert SubscriptPath(x, [b, c]) == SubscriptPath(y, [c]);
  }

  /** The object that holds `v` under the keys of `path`, one level per key:
      the shape a subscript path reads through. */
  function Nest(path: seq<string>, v: Json): Json
    decreases |path|
  {
    if path == [] then v else JObj(map[path[0] := Nest(path[1..], v)])
  }

  /** Subscripting a nest along its own path gives back the nested value. */
  lemma {:induction false} SubscriptNest(path: seq<string>, v: Json)
    ensures SubscriptPath(Nest(path, v), path) == Ok(v)
    decreases |path|
  {
    if path != [] {
      SubscriptNest(path[1..], v);
    }
  }
}
