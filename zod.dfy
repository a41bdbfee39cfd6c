/**
 * The part of zod's object schemas that the validation files use, as data with
 * an interpreter. A schema is a sequence of fields; parsing an untyped request
 * body either returns the body stripped down to the schema's keys or fails with
 * a ZodError listing, field by field and check by check, what did not pass.
 */
module Zod {
  import opened Wrappers
  import opened Errors

  /** A JSON value of a request body. Only integral numbers are modelled. */
  datatype Json = JNull | JBool(b: bool) | JNumber(n: int) | JString(s: string) | JComposite

  /** A request body: a JSON object. A key that is missing is `undefined`. */
  type Input = map<string, Json>

  /** The character classes of the regular expressions the schemas use. */
  datatype CharClass = UpperAZ | Digit09

  datatype StringCheck =
    | Min(n: nat, message: Option<string>)
    | Max(n: nat, message: Option<string>)
    | Matches(cls: CharClass, message: Option<string>)
    | Email(message: Option<string>)

  datatype NumberCheck = Positive(message: Option<string>)

  datatype Kind =
    | ZString(checks: seq<StringCheck>)
    | ZNumber(numberChecks: seq<NumberCheck>)
    | ZBoolean
    | ZEnum(values: seq<string>)

  datatype Field = Field(key: string, kind: Kind, optional: bool)

  type Schema = seq<Field>

  /** The length of `s` as JavaScript counts it: in UTF-16 code units, so a
      character outside the Basic Multilingual Plane counts twice. */
  function Utf16Length(s: string): nat
  {
    if s == [] then 0
    else Utf16Length(s[..|s| - 1]) + (if s[|s| - 1] as int >= 0x1_0000 then 2 else 1)
  }

  lemma {:induction false} Utf16LengthBounds(s: string)
    ensures |s| <= Utf16Length(s) <= 2 * |s|
    ensures (forall k :: 0 <= k < |s| ==> s[k] as int < 0x1_0000) ==> Utf16Length(s) == |s|
  {
    if s != [] {
      Utf16LengthBounds(s[..|s| - 1]);
    }
  }

  lemma Utf16LengthZero(s: string)
    ensures Utf16Length(s) == 0 <==> s == []
  {
    Utf16LengthBounds(s);
  }

  predicate InClass(c: char, cls: CharClass)
  {
    match cls
    case UpperAZ => 'A' <= c <= 'Z'
    case Digit09 => '0' <= c <= '9'
  }

  /** `/[A-Z]/.test(s)` and `/[0-9]/.test(s)`: some character of `s` is in the class. */
  predicate Contains(s: string, cls: CharClass)
  {
    exists k :: 0 <= k < |s| && InClass(s[k], cls)
  }

  predicate PassesString(isEmail: string -> bool, c: StringCheck, s: string)
  {
    match c
    case Min(n, _) => Utf16Length(s) >= n
    case Max(n, _) => Utf16Length(s) <= n
    case Matches(cls, _) => Contains(s, cls)
    case Email(_) => isEmail(s)
  }

  /** A string is checked against every check of its chain; each failure adds an issue. */
  function StringIssues(isEmail: string -> bool, key: string, checks: seq<StringCheck>, s: string): (r: seq<Issue>)
    ensures r == [] <==> forall j :: 0 <= j < |checks| ==> PassesString(isEmail, checks[j], s)
    ensures forall k :: 0 <= k < |r| ==> r[k].path == key
    ensures |r| <= |checks|
  {
    if checks == [] then []
    else
      (if PassesString(isEmail, checks[0], s) then [] else [Issue(key, checks[0].message)])
      + StringIssues(isEmail, key, checks[1..], s)
  }

  function NumberIssues(key: string, checks: seq<NumberCheck>, n: int): (r: seq<Issue>)
    ensures r == [] <==> checks == [] || n > 0
    ensures forall k :: 0 <= k < |r| ==> r[k].path == key
  {
    if checks == [] then []
    else
      (if n > 0 then [] else [Issue(key, checks[0].message)])
      + NumberIssues(key, checks[1..], n)
  }

  /** A value of the wrong JSON type gets one issue (zod's "invalid_type") and no check runs. */
  function ValueIssues(isEmail: string -> bool, key: string, kind: Kind, v: Json): (r: seq<Issue>)
    ensures forall k :: 0 <= k < |r| ==> r[k].path == key
  {
    match kind
    case ZString(checks) =>
      if v.JString? then StringIssues(isEmail, key, checks, v.s) else [Issue(key, None)]
    case ZNumber(checks) =>
      if v.JNumber? then NumberIssues(key, checks, v.n) else [Issue(key, None)]
    case ZBoolean =>
      if v.JBool? then [] else [Issue(key, None)]
    case ZEnum(values) =>
      if v.JString? && v.s in values then [] else [Issue(key, None)]
  }

  /** A missing key is accepted only by an optional field; `null` is a value like any other. */
  function FieldIssues(isEmail: string -> bool, f: Field, i: Input): (r: seq<Issue>)
    ensures forall k :: 0 <= k < |r| ==> r[k].path == f.key
  {
    if f.key !in i then (if f.optional then [] else [Issue(f.key, None)])
    else ValueIssues(isEmail, f.key, f.kind, i[f.key])
  }

  function Keys(schema: Schema): set<string>
  {
    set j | 0 <= j < |schema| :: schema[j].key
  }

  /** The issues of all fields, in the order the schema declares them. */
  function Issues(isEmail: string -> bool, schema: Schema, i: Input): (r: seq<Issue>)
    ensures r == [] <==> forall j :: 0 <= j < |schema| ==> FieldIssues(isEmail, schema[j], i) == []
    ensures forall k :: 0 <= k < |r| ==> r[k].path in Keys(schema)
  {
    if schema == [] then []
    else
      var rest := Issues(isEmail, schema[1..], i);
      assert Keys(schema[1..]) <= Keys(schema) by {
        forall key | key in Keys(schema[1..]) ensures key in Keys(schema) {
          var j :| 0 <= j < |schema[1..]| && schema[1..][j].key == key;
          assert schema[j + 1].key == key;
        }
      }
      FieldIssues(isEmail, schema[0], i) + rest
  }

  /** `schema.parse(i)` for an object schema in zod's default "strip" mode. */
  function Parse(isEmail: string -> bool, schema: Schema, i: Input): (r: Result<Input, Exception>)
    ensures r.Success? <==> forall j :: 0 <= j < |schema| ==> FieldIssues(isEmail, schema[j], i) == []
    ensures r.Success? ==> r.value == map k | k in i && k in Keys(schema) :: i[k]
    ensures r.Failure? ==> r.error.ZodError? && r.error.issues != []
    ensures r.Failure? ==> forall k :: 0 <= k < |r.error.issues| ==> r.error.issues[k].path in Keys(schema)
  {
    var issues := Issues(isEmail, schema, i);
    if issues == [] then Success(map k | k in i && k in Keys(schema) :: i[k])
    else Failure(ZodError(issues))
  }

  // Shapes of a body's fields, for stating acceptance rules.

  predicate StringAt(i: Input, key: string)
  {
    key in i && i[key].JString?
  }

  /** A non-empty string. */
  predicate Filled(i: Input, key: string)
  {
    StringAt(i, key) && i[key].s != ""
  }

  predicate NumberAt(i: Input, key: string)
  {
    key in i && i[key].JNumber?
  }

  /** A required string field of a validated body. */
  function GetString(v: Input, key: string): string
  {
    if key in v && v[key].JString? then v[key].s else ""
  }

  /** An optional string field of a validated body. */
  function GetOptionalString(v: Input, key: string): Option<string>
  {
    if key in v && v[key].JString? then Some(v[key].s) else None
  }

  function GetNumber(v: Input, key: string): int
  {
    if key in v && v[key].JNumber? then v[key].n else 0
  }

  function GetOptionalBool(v: Input, key: string): Option<bool>
  {
    if key in v && v[key].JBool? then Some(v[key].b) else None
  }

  /** The checks of a chain with zod's messages taken out: what a check accepts
      does not depend on its message. */
  function Unlabelled(checks: seq<StringCheck>): (r: seq<StringCheck>)
    ensures |r| == |checks|
  {
    if checks == [] then []
    else
      var c := checks[0];
      var bare := match c
        case Min(n, _) => Min(n, None)
        case Max(n, _) => Max(n, None)
        case Matches(cls, _) => Matches(cls, None)
        case Email(_) => Email(None);
      [bare] + Unlabelled(checks[1..])
  }

  /** Two chains that differ only in their messages accept the same strings. */
  lemma {:induction false} SameChecksAcceptSame(isEmail: string -> bool, a: seq<StringCheck>, b: seq<StringCheck>, s: string)
    requires Unlabelled(a) == Unlabelled(b)
    ensures (forall j :: 0 <= j < |a| ==> PassesString(isEmail, a[j], s))
         <==> (forall j :: 0 <= j < |b| ==> PassesString(isEmail, b[j], s))
  {
    if a != [] {
      assert Unlabelled(a[1..]) == Unlabelled(a)[1..];
      assert Unlabelled(b[1..]) == Unlabelled(b)[1..];
      SameChecksAcceptSame(isEmail, a[1..], b[1..], s);
      assert PassesString(isEmail, a[0], s) <==> PassesString(isEmail, b[0], s);
      assert forall j :: 1 <= j < |a| ==> a[j] == a[1..][j - 1];
      assert forall j :: 1 <= j < |b| ==> b[j] == b[1..][j - 1];
    }
  }
}
