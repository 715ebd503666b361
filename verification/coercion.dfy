/**
 Coercion of a caller's time argument before it is bound into a query:
 `parse_time` for system time, `parse_date_or_time` for application time.
 Ruby's parsers (`Time.parse`, `Time.zone.parse`, `Date.parse`) are library
 code whose behaviour is not modelled; they are supplied as uninterpreted
 functions that either return a value or raise.
 */
module TimeCoercion {
  import opened RubyValues
  import opened Schema

  type Parser = Value -> Result<Value>

  datatype Parsers = Parsers(timeParse: Parser, zoneParse: Parser, dateParse: Parser)

  /**
   `parse_time`: a `Time` is returned untouched; anything else (a string, but
   also a `Date` or nil) is handed to `Time.parse`, whose value or exception
   is the result.
   */
  function ParseTime(p: Parsers, time: Value): (r: Result<Value>)
    ensures IsA(time, TimeClass) ==> r == Ok(time)
    ensures !IsA(time, TimeClass) ==> r == p.timeParse(time)
    ensures IsA(time, DateClass) || time == Nil ==> r == p.timeParse(time)
  {
    if IsA(time, TimeClass) then Ok(time) else p.timeParse(time)
  }

  /** The class a column type accepts without parsing. */
  function NaturalClass(t: ColumnType): TemporalClass
  {
    match t
    case DatetimeColumn => DateTimeClass
    case TimestampColumn => TimeClass
    case OtherColumn(_) => DateClass
  }

  /** The parser a column type sends every other value to. */
  function ParserFor(p: Parsers, t: ColumnType): Parser
  {
    match t
    case DatetimeColumn => p.zoneParse
    case TimestampColumn => p.zoneParse
    case OtherColumn(_) => p.dateParse
  }

  /**
   `parse_date_or_time`: dispatch on the declared type of the application end
   column. Looking up a column the table does not have gives nil, and asking
   nil for its `type` raises.
   */
  function ParseDateOrTime(s: ModelSchema, endColumn: string, p: Parsers, v: Value): (r: Result<Value>)
    ensures endColumn !in s.columnTypes ==> r == Err(NoMethod(Nil, "type"))
    ensures endColumn in s.columnTypes ==>
      var t := s.columnTypes[endColumn];
      r == if IsA(v, NaturalClass(t)) then Ok(v) else ParserFor(p, t)(v)
  {
    if endColumn !in s.columnTypes then Err(NoMethod(Nil, "type"))
    else
      match s.columnTypes[endColumn]
      case DatetimeColumn =>
        if IsA(v, DateTimeClass) then Ok(v) else p.zoneParse(v)
      case TimestampColumn =>
        if IsA(v, TimeClass) then Ok(v) else p.zoneParse(v)
      case OtherColumn(_) =>
        if IsA(v, DateClass) then Ok(v) else p.dateParse(v)
  }

  /** Every value the parser returns belongs to `cls`. */
  ghost predicate Yields(parser: Parser, cls: TemporalClass)
  {
    forall v :: parser(v).Ok? ==> IsA(parser(v).value, cls)
  }

  /** Coercing what `parse_time` returned again changes nothing, when `Time.parse` returns times. */
  lemma ParseTimeIdempotent(p: Parsers, time: Value)
    requires Yields(p.timeParse, TimeClass)
    ensures ParseTime(p, time).Ok? ==> ParseTime(p, ParseTime(p, time).value) == ParseTime(p, time)
  {
  }

  /**
   Coercing what `parse_date_or_time` returned again changes nothing, when the
   column type's parser returns values of the class that column type accepts.
   For a `:datetime` column that is not a given: `Time.zone.parse` answers
   with a time, not a `DateTime`, and a second coercion parses it again.
   */
  lemma ParseDateOrTimeIdempotent(s: ModelSchema, endColumn: string, p: Parsers, v: Value)
    requires endColumn in s.columnTypes
    requires Yields(ParserFor(p, s.columnTypes[endColumn]), NaturalClass(s.columnTypes[endColumn]))
    ensures ParseDateOrTime(s, endColumn, p, v).Ok? ==>
      ParseDateOrTime(s, endColumn, p, ParseDateOrTime(s, endColumn, p, v).value) == ParseDateOrTime(s, endColumn, p, v)
  {
  }

  /**
   A `DateTime` given for a column of any type other than `:datetime` and
   `:timestamp` is passed through too, since a `DateTime` is a `Date`; a time
   given for a `:datetime` column is not, and goes to `Time.zone.parse`.
   */
  lemma DispatchFollowsClassHierarchy(s: ModelSchema, endColumn: string, p: Parsers, text: string)
    requires endColumn in s.columnTypes
    ensures s.columnTypes[endColumn].OtherColumn? ==>
      ParseDateOrTime(s, endColumn, p, Temporal(DateTimeClass, text)) == Ok(Temporal(DateTimeClass, text))
    ensures s.columnTypes[endColumn].DatetimeColumn? ==>
      ParseDateOrTime(s, endColumn, p, Temporal(TimeClass, text)) == p.zoneParse(Temporal(TimeClass, text))
  {
  }
}
