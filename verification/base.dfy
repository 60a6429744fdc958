/** Values, HTTP errors and the Python exception flow shared by every
    service of the courier backend.

    A service function is modelled in two halves, the way the source
    writes it: a `try` body that either returns or raises an exception
    (`Outcome`), and the chain of `except` clauses that turns a raised
    exception into the HTTP error the caller sees (`Exc -> HttpError`).
    Keeping the two halves apart is what makes an `HTTPException` caught by
    a trailing `except Exception` visible in the model. */
module Base {

  datatype Option<+T> = None | Some(value: T)

  /** A scalar as it crosses the JSON / database boundary:
      Python's None, bool, int and str. */
  datatype Value = Null | Bool(b: bool) | Int(i: int) | Str(s: string)

  const BAD_REQUEST := 400
  const UNAUTHORIZED := 401
  const FORBIDDEN := 403
  const NOT_FOUND := 404
  const CONFLICT := 409
  const UNPROCESSABLE := 422
  const INTERNAL_ERROR := 500

  /** fastapi.HTTPException: a status code and its detail text. */
  datatype HttpError = HttpError(status: int, detail: string)

  /** psycopg2.Error: the SQLSTATE code and the server's message. */
  datatype DbFault = DbFault(pgcode: string, message: string)

  /** The exceptions a `try` body of the services can raise. */
  datatype Exc =
    | HttpExc(err: HttpError)     // fastapi.HTTPException
    | DbExc(fault: DbFault)       // psycopg2.Error
    | JwtExpired                  // jwt.ExpiredSignatureError
    | JwtInvalid                  // every other jwt.PyJWTError
    | ValidationExc               // pydantic.ValidationError

  /** How a `try` body ends: it returns a value or raises. */
  datatype Outcome<+T> = Returned(value: T) | Raised(exc: Exc)

  /** What the caller of a service observes. */
  datatype Result<+T> = Ok(value: T) | Err(error: HttpError)

  /** The state after a call together with what the call answered. */
  datatype Reply<+S, +T> = Reply(state: S, result: Result<T>)

  function RaiseHttp<T>(status: int, detail: string): Outcome<T>
  {
    Raised(HttpExc(HttpError(status, detail)))
  }

  /** Runs the `except` chain `handler` over the end of a `try` body that
      worked on state `s`. A body that raises has its transaction rolled
      back, so the state the caller sees is `s` again. */
  function Conclude<S, T>(s: S, o: Outcome<(S, T)>, handler: Exc -> HttpError): (r: Reply<S, T>)
    ensures r.result.Err? ==> r.state == s
    ensures r.result.Ok? <==> o.Returned?
  {
    match o
    case Returned(v) => Reply(v.0, Ok(v.1))
    case Raised(e) => Reply(s, Err(handler(e)))
  }

  /** A handler chain with `except HTTPException: raise` put first: the
      HTTP errors raised in the body reach the caller as they are. */
  function Reraising(handler: Exc -> HttpError): Exc -> HttpError
  {
    (e: Exc) => if e.HttpExc? then e.err else handler(e)
  }

  /** A set of ids is empty or has an element to pick. */
  lemma EmptyOrInhabited(xs: set<int>)
    ensures xs == {} || exists x :: x in xs
  {
    if forall x :: x !in xs {
      assert xs == {};
    }
  }

  /** The same for a read-only body. */
  function Handle<T>(o: Outcome<T>, handler: Exc -> HttpError): (r: Result<T>)
    ensures r.Ok? <==> o.Returned?
    ensures o.Returned? ==> r.value == o.value
  {
    match o
    case Returned(v) => Ok(v)
    case Raised(e) => Err(handler(e))
  }
}

/** The few string operations the services rely on: `str(n)` of an int,
    ASCII `lower()`, the `in` test on strings, and the f-string rendering
    of an optional value. */
module Text {
  import opened Base

  function DigitChar(d: nat): (c: char)
    requires d < 10
    ensures '0' <= c <= '9'
  {
    "0123456789"[d]
  }

  /** Decimal digits of a natural number, most significant first. */
  function NatToString(n: nat): (s: string)
    ensures |s| >= 1
    ensures forall i :: 0 <= i < |s| ==> '0' <= s[i] <= '9'
    decreases n
  {
    if n < 10 then [DigitChar(n)] else NatToString(n / 10) + [DigitChar(n % 10)]
  }

  /** Python's `str(n)` for an int. */
  function IntToString(n: int): (s: string)
    ensures |s| >= 1
    ensures forall i :: 0 <= i < |s| ==> s[i] == '-' || '0' <= s[i] <= '9'
    ensures n < 0 <==> s[0] == '-'
  {
    if n < 0 then "-" + NatToString(-n) else NatToString(n)
  }

  function DigitValue(c: char): int
  {
    c as int - '0' as int
  }

  /** Reads back a string of decimal digits, the inverse of `NatToString`. */
  function ParseNat(s: string): int
    decreases |s|
  {
    if |s| == 0 then 0 else ParseNat(s[..|s| - 1]) * 10 + DigitValue(s[|s| - 1])
  }

  lemma {:induction false} ParseNatToString(n: nat)
    ensures ParseNat(NatToString(n)) == n
    decreases n
  {
    if n >= 10 {
      var s := NatToString(n);
      var prefix := NatToString(n / 10);
      assert s == prefix + [DigitChar(n % 10)];
      assert s[..|s| - 1] == prefix;
      assert DigitValue(s[|s| - 1]) == n % 10;
      ParseNatToString(n / 10);
      assert ParseNat(s) == ParseNat(prefix) * 10 + n % 10;
      assert (n / 10) * 10 + n % 10 == n;
    }
  }

  /** Reads back an optionally signed decimal, the inverse of `IntToString`. */
  function ParseInt(s: string): int
  {
    if |s| > 0 && s[0] == '-' then -ParseNat(s[1..]) else ParseNat(s)
  }

  lemma ParseIntToString(n: int)
    ensures ParseInt(IntToString(n)) == n
  {
    if n < 0 {
      ParseNatToString(-n);
      ParseSigned(NatToString(-n));
    } else {
      ParseNatToString(n);
      ParseUnsigned(NatToString(n));
    }
  }

  lemma ParseSigned(t: string)
    ensures ParseInt("-" + t) == -ParseNat(t)
  {
    assert ("-" + t)[1..] == t;
  }

  lemma ParseUnsigned(t: string)
    requires |t| > 0 && t[0] != '-'
    ensures ParseInt(t) == ParseNat(t)
  {
  }

  /** `str` is injective on ints: two couriers never share a `sub`. */
  lemma IntToStringInjective(a: int, b: int)
    requires IntToString(a) == IntToString(b)
    ensures a == b
  {
    ParseIntToString(a);
    ParseIntToString(b);
  }

  function LowerChar(c: char): (d: char)
    ensures !('A' <= d <= 'Z')
  {
    if 'A' <= c <= 'Z' then (c as int + 32) as char else c
  }

  /** `s.lower()`, restricted to the ASCII letters. */
  function Lower(s: string): (r: string)
    ensures |r| == |s|
    ensures forall i :: 0 <= i < |s| ==> r[i] == LowerChar(s[i])
  {
    seq(|s|, i requires 0 <= i < |s| => LowerChar(s[i]))
  }

  lemma LowerIdempotent(s: string)
    ensures Lower(Lower(s)) == Lower(s)
  {
  }

  /** `needle` occurs in `hay` starting at index `i`. */
  predicate OccursAt(hay: string, needle: string, i: int)
  {
    0 <= i <= |hay| - |needle| && hay[i..i + |needle|] == needle
  }

  /** Python's `needle in hay` for strings. */
  predicate Contains(hay: string, needle: string)
  {
    exists i | 0 <= i <= |hay| - |needle| :: OccursAt(hay, needle, i)
  }

  /** An f-string rendering of an optional text column: None prints as "None". */
  function OptText(o: Option<string>): string
  {
    match o
    case None => "None"
    case Some(s) => s
  }

  /** An f-string rendering of a scalar. */
  function Repr(v: Value): string
  {
    match v
    case Null => "None"
    case Bool(b) => if b then "True" else "False"
    case Int(i) => IntToString(i)
    case Str(s) => s
  }
}
