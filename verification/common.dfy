/** Values, replies and sequence helpers shared by every endpoint of the admin backend. */
module Common {

  datatype Option<T> = None | Some(value: T) {
    function GetOr(default: T): (r: T)
      ensures Some? ==> r == value
      ensures None? ==> r == default
    {
      match this
      case Some(v) => v
      case None => default
    }
  }

  /** A field value of a stored document or of a JSON request/response body.
      Floating-point numbers, arrays and nested objects are not modelled. */
  datatype Value = Null | Flag(b: bool) | Num(n: int) | Str(s: string) | Time(t: int)

  /** Python's truthiness of a decoded value (`if x:`). */
  predicate Truthy(v: Value)
  {
    match v
    case Null => false
    case Flag(b) => b
    case Num(n) => n != 0
    case Str(s) => s != []
    case Time(_) => true
  }

  /** `d.get(key, default)` on a document. */
  function Get(d: map<string, Value>, key: string, default: Value): (r: Value)
    ensures key in d ==> r == d[key]
    ensures key !in d ==> r == default
  {
    if key in d then d[key] else default
  }

  /** A decoded JSON request body. Arrays hold scalar values; nested arrays and objects are not modelled. */
  datatype Json =
    | JNull
    | JBool(b: bool)
    | JNumber(n: int)
    | JText(s: string)
    | JArray(items: seq<Value>)
    | JObject(fields: map<string, Value>)

  /** What `request.get_json()` gives: it raises, or it decodes a JSON value. */
  datatype RequestBody = Unreadable | Parsed(json: Json)

  /** Python's truthiness of a decoded JSON value (`if not data:`). */
  predicate JsonTruthy(j: Json)
  {
    match j
    case JNull => false
    case JBool(b) => b
    case JNumber(n) => n != 0
    case JText(s) => s != []
    case JArray(items) => items != []
    case JObject(fields) => fields != map[]
  }

  /** `p in s` on Python strings: `p` occurs in `s` as a substring. */
  predicate Contains(s: string, p: string)
  {
    |p| <= |s| && (s[..|p|] == p || Contains(s[1..], p))
  }

  /** The exceptions the handlers turn into a 500 reply. */
  datatype Fault =
    | NotAnInteger        // int() of a query argument raised ValueError
    | NegativeSkip        // the store refused a negative skip
    | DivisionByZero      // `// limit` with limit 0
    | InvalidObjectId(text: string)
    | NoJsonBody          // `.get` on a request body that is not a JSON object
    | UnreadableBody      // `request.get_json()` raised: no JSON body, or one that does not parse
    | NotSubscriptable    // `data['_id']` on a JSON string or array
    | NotAContainer       // `'_id' in data` on a JSON number or `true`
    | NotAnInt64          // the driver cannot encode a skip or limit outside BSON's 64-bit integers
    | ParamsNotMapping    // `.get` on a task's `params` that is not a mapping

  datatype Failure = Unauthorized | BadRequest(message: string) | Internal(fault: Fault)

  /** The HTTP status code each failure is answered with. */
  function HttpStatus(f: Failure): (code: nat)
    ensures code in {400, 403, 500}
    ensures code == 403 <==> f.Unauthorized?
    ensures code == 400 <==> f.BadRequest?
  {
    match f
    case Unauthorized => 403
    case BadRequest(_) => 400
    case Internal(_) => 500
  }

  /** A handler's answer: a 200 body or an `{"error": ...}` body. */
  datatype Reply<T> = Ok(value: T) | Err(failure: Failure)

  const UNKNOWN := "未知"

  // ---------------------------------------------------------------------------
  // Filtering and removal on sequences of documents (a collection in natural order)

  /** The documents of `s` that satisfy `p`, in their original order (a `find` with a filter). */
  function Filter<T>(s: seq<T>, p: T -> bool): (r: seq<T>)
    ensures |r| <= |s|
    ensures forall i :: 0 <= i < |r| ==> r[i] in s && p(r[i])
    ensures forall i :: 0 <= i < |s| && p(s[i]) ==> s[i] in r
  {
    if s == [] then []
    else (if p(s[0]) then [s[0]] else []) + Filter(s[1..], p)
  }

  /** The number of documents that satisfy `p` (a `count_documents`). */
  function Count<T>(s: seq<T>, p: T -> bool): (n: nat)
    ensures n <= |s|
  {
    |Filter(s, p)|
  }

  /** A reordering has the same members. */
  lemma PermutationKeepsMembers<T>(a: seq<T>, b: seq<T>)
    requires multiset(a) == multiset(b)
    ensures forall i :: 0 <= i < |a| ==> a[i] in b
  {
    forall i | 0 <= i < |a| ensures a[i] in b {
      assert a[i] in multiset(b);
    }
  }

  /** Nothing is counted exactly when no element satisfies the predicate. */
  lemma CountIsZero<T>(s: seq<T>, p: T -> bool)
    ensures Count(s, p) == 0 <==> forall i :: 0 <= i < |s| ==> !p(s[i])
  {
    var r := Filter(s, p);
    if |r| > 0 {
      assert r[0] in s && p(r[0]);
    }
  }

  /** `s` without its first document that satisfies `p` (a `delete_one`). */
  function RemoveFirst<T>(s: seq<T>, p: T -> bool): (r: seq<T>)
    ensures (exists i :: 0 <= i < |s| && p(s[i])) ==> |r| == |s| - 1
    ensures (forall i :: 0 <= i < |s| ==> !p(s[i])) ==> r == s
    ensures forall i :: 0 <= i < |r| ==> r[i] in s
    ensures forall i :: 0 <= i < |s| && !p(s[i]) ==> s[i] in r
  {
    if s == [] then []
    else if p(s[0]) then s[1..]
    else [s[0]] + RemoveFirst(s[1..], p)
  }

  /** No two positions of `s` both satisfy `p`. */
  ghost predicate AtMostOne<T>(s: seq<T>, p: T -> bool)
  {
    forall i, j :: 0 <= i < j < |s| && p(s[i]) ==> !p(s[j])
  }

  /** Filtering twice is filtering once by the conjunction. */
  lemma {:induction false} FilterFilter<T>(s: seq<T>, p: T -> bool, q: T -> bool, both: T -> bool)
    requires forall x :: both(x) == (p(x) && q(x))
    ensures Filter(Filter(s, p), q) == Filter(s, both)
  {
    if s != [] {
      FilterFilter(s[1..], p, q, both);
      if p(s[0]) {
        assert Filter(s, p) == [s[0]] + Filter(s[1..], p);
        assert Filter(s, p)[1..] == Filter(s[1..], p);
      } else {
        assert Filter(s, p) == Filter(s[1..], p);
      }
    }
  }

  /** Two predicates that agree on every element of `s` select the same documents. */
  lemma {:induction false} FilterCongruent<T>(s: seq<T>, p: T -> bool, q: T -> bool)
    requires forall i :: 0 <= i < |s| ==> p(s[i]) == q(s[i])
    ensures Filter(s, p) == Filter(s, q)
  {
    if s != [] {
      FilterCongruent(s[1..], p, q);
    }
  }

  /** A predicate and its negation split a sequence: the kept and the removed documents add up. */
  lemma {:induction false} FilterComplementSize<T>(s: seq<T>, p: T -> bool, q: T -> bool)
    requires forall x :: q(x) == !p(x)
    ensures |Filter(s, p)| + |Filter(s, q)| == |s|
  {
    if s != [] {
      FilterComplementSize(s[1..], p, q);
    }
  }

  /** Removing the first match is removing every match when there is at most one. */
  lemma {:induction false} RemoveFirstIsFilter<T>(s: seq<T>, p: T -> bool, q: T -> bool)
    requires AtMostOne(s, p)
    requires forall x :: q(x) == !p(x)
    ensures RemoveFirst(s, p) == Filter(s, q)
  {
    if s != [] {
      assert AtMostOne(s[1..], p) by {
        forall i, j | 0 <= i < j < |s[1..]| && p(s[1..][i])
          ensures !p(s[1..][j])
        {
          assert s[1..][i] == s[i + 1] && s[1..][j] == s[j + 1];
        }
      }
      RemoveFirstIsFilter(s[1..], p, q);
      if p(s[0]) {
        assert Filter(s[1..], q) == s[1..] by {
          FilterAll(s[1..], q);
        }
      }
    }
  }

  /** Filtering by a predicate every element satisfies changes nothing. */
  lemma {:induction false} FilterAll<T>(s: seq<T>, q: T -> bool)
    requires forall i :: 0 <= i < |s| ==> q(s[i])
    ensures Filter(s, q) == s
  {
    if s != [] {
      FilterAll(s[1..], q);
    }
  }

  /** Filtering by a predicate no element satisfies leaves nothing. */
  lemma {:induction false} FilterNone<T>(s: seq<T>, q: T -> bool)
    requires forall i :: 0 <= i < |s| ==> !q(s[i])
    ensures Filter(s, q) == []
  {
    if s != [] {
      FilterNone(s[1..], q);
    }
  }

  // ---------------------------------------------------------------------------
  // Decimal rendering of an integer, as Python's str() of a non-negative int

  predicate IsDigit(c: char) { '0' <= c <= '9' }

  predicate IsDigits(s: string) { forall i :: 0 <= i < |s| ==> IsDigit(s[i]) }

  function DigitChar(d: nat): (c: char)
    requires d < 10
    ensures IsDigit(c)
  {
    ('0' as int + d) as char
  }

  function DigitValue(c: char): (d: nat)
    requires IsDigit(c)
    ensures d < 10
  {
    c as int - '0' as int
  }

  /** str(n) for a natural number n. */
  function Decimal(n: nat): (s: string)
    ensures |s| >= 1 && IsDigits(s)
    ensures s[0] == '0' ==> n == 0
  {
    if n < 10 then [DigitChar(n)] else Decimal(n / 10) + [DigitChar(n % 10)]
  }

  /** The value of a string of decimal digits. */
  function ParseDecimal(s: string): nat
    requires IsDigits(s)
  {
    if s == [] then 0 else 10 * ParseDecimal(s[..|s| - 1]) + DigitValue(s[|s| - 1])
  }

  /** Rendering a number and reading it back gives the number. */
  lemma {:induction false} ParseDecimalOfDecimal(n: nat)
    ensures ParseDecimal(Decimal(n)) == n
  {
    if n >= 10 {
      var s := Decimal(n);
      assert s[..|s| - 1] == Decimal(n / 10);
      ParseDecimalOfDecimal(n / 10);
    }
  }

  /** Different numbers render differently. */
  lemma DecimalInjective(m: nat, n: nat)
    requires Decimal(m) == Decimal(n)
    ensures m == n
  {
    ParseDecimalOfDecimal(m);
    ParseDecimalOfDecimal(n);
  }
}
