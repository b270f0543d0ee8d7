/** The JavaScript values that travel through the query engine as stack
    payloads, builder statements and handler arguments. Numbers are
    modelled as integers; a host object (an entity set, a registry) is an
    opaque reference, and a function is known by its source text. */
module JsValue {

  datatype Json =
    | Undefined
    | Null
    | Bool(b: bool)
    | Num(n: int)
    | Str(s: string)
    | Arr(elems: seq<Json>)
    | Obj(fields: map<string, Json>)
    | Host(id: nat)
    | Func(source: string)

  /** Decimal digits of a natural number, as JavaScript prints it. */
  function NatDigits(n: nat): (r: string)
    ensures |r| > 0
    ensures forall i :: 0 <= i < |r| ==> '0' <= r[i] <= '9'
    decreases n
  {
    var d := ['0' + (n % 10) as char];
    if n < 10 then d else NatDigits(n / 10) + d
  }

  /** Joins strings with "," as Array.prototype.join does by default. */
  function JoinComma(parts: seq<string>): (r: string)
    ensures parts == [] ==> r == ""
    ensures |parts| == 1 ==> r == parts[0]
  {
    if |parts| <= 1 then (if parts == [] then "" else parts[0])
    else JoinComma(parts[..|parts| - 1]) + "," + parts[|parts| - 1]
  }

  /** The string JavaScript uses when a value indexes an object (its
      ToString): a string is itself, an array joins its elements' strings
      with "," (undefined and null elements become ""), a plain or host
      object is "[object Object]", a function is its source text. */
  function PropertyKey(j: Json): string
    decreases j
  {
    match j
    case Undefined => "undefined"
    case Null => "null"
    case Bool(b) => if b then "true" else "false"
    case Num(n) => if n < 0 then "-" + NatDigits(-n) else NatDigits(n)
    case Str(s) => s
    case Arr(es) =>
      JoinComma(seq(|es|, i requires 0 <= i < |es| =>
        if es[i].Undefined? || es[i].Null? then "" else PropertyKey(es[i])))
    case Obj(_) => "[object Object]"
    case Host(_) => "[object Object]"
    case Func(source) => source
  }

  /** The result of JavaScript's `typeof`. */
  function TypeOf(j: Json): string
  {
    match j
    case Undefined => "undefined"
    case Bool(_) => "boolean"
    case Num(_) => "number"
    case Str(_) => "string"
    case Func(_) => "function"
    case _ => "object"
  }

  /** A one-element array holding a string has that string as its key:
      this is how the builder's entity token `['!e']` reaches word "!e". */
  lemma SingletonArrayKey(s: string)
    ensures PropertyKey(Arr([Str(s)])) == s
  {
    var es := [Str(s)];
    var parts := seq(|es|, i requires 0 <= i < |es| =>
      if es[i].Undefined? || es[i].Null? then "" else PropertyKey(es[i]));
    assert parts[0] == s;
    assert parts == [s];
  }
}
