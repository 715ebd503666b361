/**
 The Ruby objects the temporal helpers handle: nil, booleans, integers,
 strings, symbols, time-like objects and arrays, with `to_s` (what string
 interpolation `"#{v}"` produces), `inspect`, `is_a?` on the time classes and
 `Array#join`. Also the Option/Result wrappers used for Ruby's nil and raised
 exceptions.
 */
module RubyValues {
  import opened Strings

  datatype Option<+T> = None | Some(value: T) {
    /** `x || default` for an optional setting. */
    function GetOr(default: T): T
    {
      match this
      case Some(v) => v
      case None => default
    }
  }

  /** `Time` (ActiveSupport's zoned times answer `is_a? Time` too), `Date` and `DateTime`. */
  datatype TemporalClass = TimeClass | DateClass | DateTimeClass

  /**
   A Ruby value. A time-like object is abstract: its class and the text its
   `to_s` produces.
   */
  datatype Value =
    | Nil
    | Bool(b: bool)
    | Int(n: int)
    | Str(s: string)
    | Sym(name: string)
    | Temporal(cls: TemporalClass, text: string)
    | Arr(items: seq<Value>)

  /** An exception raised on the way: a missing method, or one from a parser. */
  datatype Error =
    | NoMethod(receiver: Value, name: string)
    | Raised(exception: string, message: string)

  /** A computation that returns a value or raises. */
  datatype Result<+T> = Ok(value: T) | Err(error: Error) {
    predicate IsFailure()
    {
      Err?
    }

    function PropagateFailure<U>(): Result<U>
      requires Err?
    {
      Err(error)
    }

    function Extract(): T
      requires Ok?
    {
      value
    }
  }

  /** `v.is_a?(cls)`: `DateTime` is a subclass of `Date`; `Time` is unrelated to both. */
  predicate IsA(v: Value, cls: TemporalClass)
  {
    v.Temporal? && (v.cls == cls || (v.cls == DateTimeClass && cls == DateClass))
  }

  lemma ClassHierarchy(v: Value)
    ensures IsA(v, DateTimeClass) ==> IsA(v, DateClass) && !IsA(v, TimeClass)
    ensures IsA(v, TimeClass) ==> !IsA(v, DateClass)
    ensures (IsA(v, TimeClass) || IsA(v, DateClass)) <==> v.Temporal?
  {
  }

  function DigitChar(d: nat): char
    requires d < 10
  {
    ('0' as int + d) as char
  }

  /** Decimal digits of a natural number, most significant first. */
  function NatToString(n: nat): (r: string)
    ensures |r| >= 1
    ensures forall i :: 0 <= i < |r| ==> '0' <= r[i] <= '9'
    decreases n
  {
    if n < 10 then [DigitChar(n)] else NatToString(n / 10) + [DigitChar(n % 10)]
  }

  /** The number a string of decimal digits denotes. */
  function DecimalValue(s: string): nat
    requires forall i :: 0 <= i < |s| ==> '0' <= s[i] <= '9'
  {
    if |s| == 0 then 0 else 10 * DecimalValue(s[..|s| - 1]) + (s[|s| - 1] - '0') as nat
  }

  /** Reading the digits of `Integer#to_s` back gives the number. */
  lemma {:induction false} NatToStringRoundTrip(n: nat)
    ensures DecimalValue(NatToString(n)) == n
    decreases n
  {
    var r := NatToString(n);
    if n < 10 {
      assert r == [DigitChar(n)];
    } else {
      NatToStringRoundTrip(n / 10);
      assert r[..|r| - 1] == NatToString(n / 10);
      assert (r[|r| - 1] - '0') as nat == n % 10;
    }
  }

  /** `Integer#to_s`. */
  function IntToString(n: int): string
  {
    if n < 0 then "-" + NatToString(-n) else NatToString(n)
  }

  /** `to_s` (inspect = false) or `inspect` (inspect = true) of a value. */
  function Render(v: Value, inspect: bool): string
    decreases v
  {
    match v
    case Nil => if inspect then "nil" else ""
    case Bool(b) => if b then "true" else "false"
    case Int(n) => IntToString(n)
    case Str(s) => if inspect then "\"" + s + "\"" else s
    case Sym(name) => if inspect then ":" + name else name
    case Temporal(_, text) => text
    case Arr(items) =>
      "[" + Join(seq(|items|, i requires 0 <= i < |items| => Render(items[i], true)), ", ") + "]"
  }

  /** What `"#{v}"` interpolates. */
  function ToS(v: Value): string
  {
    Render(v, false)
  }

  /** One element of `Array#join`: nested arrays are joined with the same separator. */
  function JoinPiece(v: Value, sep: string): string
    decreases v
  {
    match v
    case Arr(xs) => Join(seq(|xs|, i requires 0 <= i < |xs| => JoinPiece(xs[i], sep)), sep)
    case _ => ToS(v)
  }

  /** `items.join(sep)`. */
  function JoinValues(items: seq<Value>, sep: string): string
  {
    JoinPiece(Arr(items), sep)
  }

  /**
   Passing one array to a splat parameter (`f(t, "DESC", [:a, :b])`) renders
   the same as passing its elements (`f(t, "DESC", :a, :b)`).
   */
  lemma JoinValuesFlattens(xs: seq<Value>, sep: string)
    ensures JoinValues([Arr(xs)], sep) == JoinValues(xs, sep)
  {
    assert seq(1, i requires 0 <= i < 1 => JoinPiece([Arr(xs)][i], sep)) == [JoinPiece(Arr(xs), sep)];
  }

  lemma JoinValuesSingle(v: Value, sep: string)
    ensures JoinValues([v], sep) == JoinPiece(v, sep)
  {
    assert seq(1, i requires 0 <= i < 1 => JoinPiece([v][i], sep)) == [JoinPiece(v, sep)];
  }

  lemma JoinValuesPair(a: Value, b: Value, sep: string)
    ensures JoinValues([a, b], sep) == JoinPiece(a, sep) + sep + JoinPiece(b, sep)
  {
    var xs := [a, b];
    var pieces := seq(|xs|, i requires 0 <= i < |xs| => JoinPiece(xs[i], sep));
    assert JoinValues(xs, sep) == Join(pieces, sep);
    assert pieces[1..] == [JoinPiece(b, sep)];
  }
}
