/**
 Application versioning: the per-model options
 (`application_versioning_options`) and the class-level queries over a table
 with an application-time period, `? BETWEEN start AND end`, whose one bound
 parameter is the caller's time coerced by the end column's declared type.
 */
module ApplicationVersioning {
  import opened Strings
  import opened RubyValues
  import opened Schema
  import opened TimeCoercion
  import opened SqlFragments

  /** The options hash; an absent (nil) option falls back to its default. */
  datatype AppOptions = AppOptions(
    startColumnName: Option<string>,
    endColumnName: Option<string>,
    primaryKey: Option<Value>)

  const NoAppOptions: AppOptions := AppOptions(None, None, None)

  datatype AppConfig = AppConfig(startColumnName: string, endColumnName: string)

  /** `application_versioning_options`: every call starts from the defaults. */
  function ConfigureApp(o: AppOptions): (c: AppConfig)
    ensures c.startColumnName == (if o.startColumnName.Some? then o.startColumnName.value else "valid_start")
    ensures c.endColumnName == (if o.endColumnName.Some? then o.endColumnName.value else "valid_end")
  {
    AppConfig(o.startColumnName.GetOr("valid_start"), o.endColumnName.GetOr("valid_end"))
  }

  /**
   The value `application_versioning_options` assigns to the model's
   `primary_key`: by default the composite key of `:id` and the end column.
   */
  function AppPrimaryKey(o: AppOptions): (k: Value)
    ensures o.primaryKey.None? ==> k == Arr([Sym("id"), Str(ConfigureApp(o).endColumnName)])
    ensures o.primaryKey.Some? ==> k == o.primaryKey.value
  {
    o.primaryKey.GetOr(Arr([Sym("id"), Str(o.endColumnName.GetOr("valid_end"))]))
  }

  lemma DefaultAppConfig()
    ensures ConfigureApp(NoAppOptions) == AppConfig("valid_start", "valid_end")
    ensures AppPrimaryKey(NoAppOptions) == Arr([Sym("id"), Str("valid_end")])
    ensures AppPrimaryKey(AppOptions(None, Some("until"), None)) == Arr([Sym("id"), Str("until")])
  {
  }

  /** `? BETWEEN start AND end`: the time is bound, the column names are interpolated. */
  function Between(c: AppConfig): string
  {
    Placeholder + " BETWEEN " + c.startColumnName + " AND " + c.endColumnName
  }

  /** The coercion of the valid-at time, by the declared type of the end column. */
  function ParseValidAt(s: ModelSchema, c: AppConfig, p: Parsers, validAt: Value): Result<Value>
  {
    ParseDateOrTime(s, c.endColumnName, p, validAt)
  }

  function ValidAtBase(table: string, c: AppConfig): string
  {
    "SELECT * FROM " + table + " WHERE " + Between(c)
  }

  /** `all_valid_at`. */
  function AllValidAt(s: ModelSchema, c: AppConfig, p: Parsers, validAt: Value): (r: Result<Query>)
    ensures BoundToParsed(r, ParseValidAt(s, c, p, validAt), ValidAtBase(s.table, c))
  {
    var d :- ParseValidAt(s, c, p, validAt);
    Ok(Query(ValidAtBase(s.table, c), [d]))
  }

  /** `order_valid_at`: the `all_valid_at` text followed by the `ORDER BY` suffix. */
  function OrderValidAt(s: ModelSchema, c: AppConfig, p: Parsers, validAt: Value, order: Option<string>, attrs: seq<Value>): (r: Result<Query>)
    ensures BoundToParsed(r, ParseValidAt(s, c, p, validAt), ValidAtBase(s.table, c) + OrderByClause(order, attrs))
  {
    var d :- ParseValidAt(s, c, p, validAt);
    Ok(Query(ValidAtBase(s.table, c) + OrderByClause(order, attrs), [d]))
  }

  /**
   `where_valid_at`: the equality clause first, then `AND ? BETWEEN ...`;
   with no pairs this gives `WHERE  AND ? BETWEEN ...`, which is not valid SQL.
   */
  function WhereValidAt(s: ModelSchema, c: AppConfig, p: Parsers, validAt: Value, pairs: seq<(Value, Value)>): (r: Result<Query>)
    ensures BoundToParsed(r, ParseValidAt(s, c, p, validAt),
      "SELECT * FROM " + s.table + " " + EqualityClause(pairs) + " AND " + Between(c))
  {
    var d :- ParseValidAt(s, c, p, validAt);
    Ok(Query("SELECT * FROM " + s.table + " " + EqualityClause(pairs) + " AND " + Between(c), [d]))
  }

  lemma WhereValidAtWithoutPairs(s: ModelSchema, c: AppConfig, p: Parsers, validAt: Value)
    requires ParseValidAt(s, c, p, validAt).Ok?
    ensures WhereValidAt(s, c, p, validAt, []).value.sql == "SELECT * FROM " + s.table + " WHERE  AND " + Between(c)
  {
    assert EqualityClause([]) == "WHERE ";
  }

  // What the text says about the period, and what it does not depend on.

  /** `x` occurs in `s` at position `i`. */
  predicate OccursAt(s: string, x: string, i: nat)
  {
    i + |x| <= |s| && s[i..i + |x|] == x
  }

  /** What follows the placeholder of `? BETWEEN ...` is the period test. */
  lemma PeriodAfterPlaceholder(prefix: string, c: AppConfig)
    ensures OccursAt(prefix + Between(c), PeriodTest(c), |prefix| + 1)
  {
    var b := Between(c);
    assert b == Placeholder + PeriodTest(c);
    assert (prefix + b)[|prefix| + 1..] == b[1..];
  }

  /** An occurrence stays where it is when text is appended. */
  lemma OccursExtended(s: string, x: string, i: nat, tail: string)
    requires OccursAt(s, x, i)
    ensures OccursAt(s + tail, x, i)
  {
    assert (s + tail)[i..i + |x|] == s[i..i + |x|];
  }

  /** The period test as it appears in every query: `BETWEEN start AND end`. */
  function PeriodTest(c: AppConfig): string
  {
    " BETWEEN " + c.startColumnName + " AND " + c.endColumnName
  }

  /**
   Whatever the column names, every application-time query tests the
   period `BETWEEN start AND end` right after its placeholder.
   */
  lemma QueriesTestThePeriod(s: ModelSchema, c: AppConfig, p: Parsers, validAt: Value, order: Option<string>,
                             attrs: seq<Value>, pairs: seq<(Value, Value)>)
    ensures AllValidAt(s, c, p, validAt).Ok? ==>
      OccursAt(AllValidAt(s, c, p, validAt).value.sql, PeriodTest(c), |"SELECT * FROM " + s.table + " WHERE "| + 1)
    ensures OrderValidAt(s, c, p, validAt, order, attrs).Ok? ==>
      OccursAt(OrderValidAt(s, c, p, validAt, order, attrs).value.sql, PeriodTest(c), |"SELECT * FROM " + s.table + " WHERE "| + 1)
    ensures WhereValidAt(s, c, p, validAt, pairs).Ok? ==>
      OccursAt(WhereValidAt(s, c, p, validAt, pairs).value.sql, PeriodTest(c),
        |"SELECT * FROM " + s.table + " " + EqualityClause(pairs) + " AND "| + 1)
  {
    PeriodAfterPlaceholder("SELECT * FROM " + s.table + " WHERE ", c);
    OccursExtended(ValidAtBase(s.table, c), PeriodTest(c), |"SELECT * FROM " + s.table + " WHERE "| + 1, OrderByClause(order, attrs));
    PeriodAfterPlaceholder("SELECT * FROM " + s.table + " " + EqualityClause(pairs) + " AND ", c);
  }

  /**
   The valid-at time is only ever bound, never interpolated: two calls that
   both succeed produce the same text whatever times they were given.
   */
  lemma TextIndependentOfValidAt(s: ModelSchema, c: AppConfig, p: Parsers, v1: Value, v2: Value, order: Option<string>,
                                 attrs: seq<Value>, pairs: seq<(Value, Value)>)
    ensures AllValidAt(s, c, p, v1).Ok? && AllValidAt(s, c, p, v2).Ok? ==>
      AllValidAt(s, c, p, v1).value.sql == AllValidAt(s, c, p, v2).value.sql
    ensures OrderValidAt(s, c, p, v1, order, attrs).Ok? && OrderValidAt(s, c, p, v2, order, attrs).Ok? ==>
      OrderValidAt(s, c, p, v1, order, attrs).value.sql == OrderValidAt(s, c, p, v2, order, attrs).value.sql
    ensures WhereValidAt(s, c, p, v1, pairs).Ok? && WhereValidAt(s, c, p, v2, pairs).Ok? ==>
      WhereValidAt(s, c, p, v1, pairs).value.sql == WhereValidAt(s, c, p, v2, pairs).value.sql
  {
  }

  // Placeholder accounting.

  lemma {:induction false} BetweenHasOnePlaceholder(c: AppConfig)
    requires Plain(c.startColumnName) && Plain(c.endColumnName)
    ensures Placeholders(Between(c)) == 1
  {
    PlaceholdersAbsent(PeriodTest(c));
    PlaceholdersConcat(Placeholder, PeriodTest(c));
    assert Between(c) == Placeholder + PeriodTest(c);
  }

  /** Each query binds its one parameter to its one placeholder. */
  lemma {:induction false} ValidAtQueriesBind(s: ModelSchema, c: AppConfig, p: Parsers, validAt: Value, order: Option<string>,
                                              attrs: seq<Value>, pairs: seq<(Value, Value)>)
    requires Plain(s.table) && Plain(c.startColumnName) && Plain(c.endColumnName)
    requires Plain(OrderText(order)) && Plain(JoinValues(attrs, ", "))
    requires forall i :: 0 <= i < |pairs| ==> PlainValue(pairs[i].0) && PlainValue(pairs[i].1)
    ensures AllValidAt(s, c, p, validAt).Ok? ==> Binds(AllValidAt(s, c, p, validAt).value)
    ensures OrderValidAt(s, c, p, validAt, order, attrs).Ok? ==> Binds(OrderValidAt(s, c, p, validAt, order, attrs).value)
    ensures WhereValidAt(s, c, p, validAt, pairs).Ok? ==> Binds(WhereValidAt(s, c, p, validAt, pairs).value)
  {
    BetweenHasOnePlaceholder(c);
    var head := "SELECT * FROM " + s.table + " WHERE ";
    assert Plain(head);
    PlaceholdersAbsent(head);
    PlaceholdersConcat(head, Between(c));
    OrderByClausePlain(order, attrs);
    PlaceholdersAbsent(OrderByClause(order, attrs));
    PlaceholdersConcat(head + Between(c), OrderByClause(order, attrs));
    EqualityClausePlain(pairs);
    var whereHead := "SELECT * FROM " + s.table + " " + EqualityClause(pairs) + " AND ";
    assert Plain(whereHead);
    PlaceholdersAbsent(whereHead);
    PlaceholdersConcat(whereHead, Between(c));
  }

  // The library's own examples: table `dummy`, end column declared `:date`.

  const AppDummy: ModelSchema := ModelSchema("dummy", [], map["valid_end" := OtherColumn("date")], None)

  lemma DateCoercionExample(p: Parsers, today: string)
    ensures ParseValidAt(AppDummy, ConfigureApp(NoAppOptions), p, Temporal(DateClass, today)) == Ok(Temporal(DateClass, today))
  {
    assert "valid_end" in AppDummy.columnTypes && AppDummy.columnTypes["valid_end"] == OtherColumn("date");
  }

  lemma DefaultBetween()
    ensures Between(ConfigureApp(NoAppOptions)) == "? BETWEEN valid_start AND valid_end"
  {
    assert ConfigureApp(NoAppOptions).startColumnName == "valid_start";
    assert ConfigureApp(NoAppOptions).endColumnName == "valid_end";
    assert Placeholder == "?";
  }

  lemma DefaultValidAtBase()
    ensures ValidAtBase("dummy", ConfigureApp(NoAppOptions)) == "SELECT * FROM dummy WHERE " + "? BETWEEN valid_start AND valid_end"
  {
    DefaultBetween();
    assert "SELECT * FROM " + "dummy" + " WHERE " == "SELECT * FROM dummy WHERE ";
  }

  lemma AllValidAtExample(p: Parsers, today: string)
    ensures AllValidAt(AppDummy, ConfigureApp(NoAppOptions), p, Temporal(DateClass, today))
      == Ok(Query("SELECT * FROM dummy WHERE " + "? BETWEEN valid_start AND valid_end", [Temporal(DateClass, today)]))
  {
    DateCoercionExample(p, today);
    DefaultValidAtBase();
    assert AppDummy.table == "dummy";
  }

  lemma OrderValidAtExample(p: Parsers, today: string)
    ensures OrderValidAt(AppDummy, ConfigureApp(NoAppOptions), p, Temporal(DateClass, today), Some("DESC"), [Arr([Sym("first"), Sym("second")])])
      == Ok(Query("SELECT * FROM dummy WHERE " + "? BETWEEN valid_start AND valid_end" + " ORDER BY first, second DESC", [Temporal(DateClass, today)]))
  {
    DateCoercionExample(p, today);
    DefaultValidAtBase();
    assert AppDummy.table == "dummy";
    OrderByClauseExample();
  }

  lemma WhereValidAtExample(p: Parsers, today: string)
    ensures WhereValidAt(AppDummy, ConfigureApp(NoAppOptions), p, Temporal(DateClass, today), [(Sym("attr"), Str("value1")), (Sym("attr2"), Str("value2"))])
      == Ok(Query("SELECT * FROM dummy " + ("WHERE " + "attr = 'value1'" + " AND " + "attr2 = 'value2'") + " AND " + "? BETWEEN valid_start AND valid_end", [Temporal(DateClass, today)]))
  {
    DateCoercionExample(p, today);
    DefaultBetween();
    assert AppDummy.table == "dummy";
    assert "SELECT * FROM " + "dummy" + " " == "SELECT * FROM dummy ";
    EqualityClauseExample();
  }
}
