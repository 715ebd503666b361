/**
 Combined versioning: a model with both a system-time and an
 application-time period. Including it runs both option setters (system
 first, then application), and adds queries that pin the system time with
 `AS OF` and test the application period with `BETWEEN`.
 */
module CombinedVersioning {
  import opened Strings
  import opened RubyValues
  import opened Schema
  import opened TimeCoercion
  import opened SqlFragments
  import opened SystemVersioning
  import opened ApplicationVersioning

  /** The class-level settings of a combined model: both configurations and the last primary key set. */
  datatype ModelState = ModelState(system: SystemConfig, app: AppConfig, primaryKey: Value)

  /** `system_versioning_options`: replaces the system configuration and sets the primary key. */
  function WithSystemOptions(st: ModelState, o: SystemOptions): (r: ModelState)
    ensures r.app == st.app
    ensures r.system == ConfigureSystem(o)
    ensures r.primaryKey == SystemPrimaryKey(o)
  {
    ModelState(ConfigureSystem(o), st.app, SystemPrimaryKey(o))
  }

  /** `application_versioning_options`: replaces the application configuration and sets the primary key. */
  function WithAppOptions(st: ModelState, o: AppOptions): (r: ModelState)
    ensures r.system == st.system
    ensures r.app == ConfigureApp(o)
    ensures r.primaryKey == AppPrimaryKey(o)
  {
    ModelState(st.system, ConfigureApp(o), AppPrimaryKey(o))
  }

  /**
   The settings right after `include CombinedVersioning`: the system concern
   is included first and the application concern second, each calling its
   option setter with no options.
   */
  function Included(initialKey: Value): ModelState
  {
    WithAppOptions(WithSystemOptions(ModelState(ConfigureSystem(NoSystemOptions), ConfigureApp(NoAppOptions), initialKey), NoSystemOptions), NoAppOptions)
  }

  /**
   A combined model starts with both sets of defaults, and the application
   default key `[:id, "valid_end"]` wins over the system default `:id`.
   */
  lemma IncludedDefaults(initialKey: Value)
    ensures Included(initialKey).system.startColumnName == "transaction_start"
    ensures Included(initialKey).system.endColumnName == "transaction_end"
    ensures Included(initialKey).app == AppConfig("valid_start", "valid_end")
    ensures Included(initialKey).primaryKey == Arr([Sym("id"), Str("valid_end")])
  {
  }

  /**
   The primary key is whatever the last option call set: calling
   `system_versioning_options` without `:primary_key` after the application
   options resets a composite key to `:id`.
   */
  lemma LastOptionCallSetsPrimaryKey(st: ModelState, so: SystemOptions, ao: AppOptions)
    ensures WithSystemOptions(WithAppOptions(st, ao), so).primaryKey == SystemPrimaryKey(so)
    ensures WithAppOptions(WithSystemOptions(st, so), ao).primaryKey == AppPrimaryKey(ao)
    ensures so.primaryKey.None? ==> WithSystemOptions(WithAppOptions(st, ao), so).primaryKey == Sym("id")
  {
  }

  /** Setting one concern's options never changes the other's, in either order. */
  lemma OptionCallsCommuteOnConfigs(st: ModelState, so: SystemOptions, ao: AppOptions)
    ensures WithSystemOptions(WithAppOptions(st, ao), so).system == WithAppOptions(WithSystemOptions(st, so), ao).system
    ensures WithSystemOptions(WithAppOptions(st, ao), so).app == WithAppOptions(WithSystemOptions(st, so), ao).app
  {
  }

  /** `FOR SYSTEM_TIME AS OF TIMESTAMP? WHERE ? BETWEEN start AND end`, with the application column names. */
  function CombinedBase(table: string, c: AppConfig): string
  {
    AsOfBase(table) + " WHERE " + Between(c)
  }

  /**
   `all_valid_at_as_of(valid_at, as_of_time)`: the as-of time is coerced
   first, so its exception wins; the parameters come out as-of first, the
   reverse of the argument order.
   */
  function AllValidAtAsOf(s: ModelSchema, c: AppConfig, p: Parsers, validAt: Value, asOfTime: Value): (r: Result<Query>)
    ensures ParseTime(p, asOfTime).Err? ==> r == Err(ParseTime(p, asOfTime).error)
    ensures ParseTime(p, asOfTime).Ok? && ParseValidAt(s, c, p, validAt).Err? ==> r == Err(ParseValidAt(s, c, p, validAt).error)
    ensures r.Ok? ==> r.value.params == [ParseTime(p, asOfTime).value, ParseValidAt(s, c, p, validAt).value]
    ensures ParseTime(p, asOfTime).Ok? && ParseValidAt(s, c, p, validAt).Ok? ==> r.Ok?
    ensures r.Ok? ==> r.value.sql == CombinedBase(s.table, c)
  {
    var t :- ParseTime(p, asOfTime);
    var d :- ParseValidAt(s, c, p, validAt);
    Ok(Query(CombinedBase(s.table, c), [t, d]))
  }

  /** `order_valid_at_as_of`: the same, followed by the `ORDER BY` suffix. */
  function OrderValidAtAsOf(s: ModelSchema, c: AppConfig, p: Parsers, validAt: Value, asOfTime: Value,
                            order: Option<string>, attrs: seq<Value>): (r: Result<Query>)
    ensures ParseTime(p, asOfTime).Err? ==> r == Err(ParseTime(p, asOfTime).error)
    ensures ParseTime(p, asOfTime).Ok? && ParseValidAt(s, c, p, validAt).Err? ==> r == Err(ParseValidAt(s, c, p, validAt).error)
    ensures r.Ok? ==> r.value.params == [ParseTime(p, asOfTime).value, ParseValidAt(s, c, p, validAt).value]
    ensures ParseTime(p, asOfTime).Ok? && ParseValidAt(s, c, p, validAt).Ok? ==> r.Ok?
    ensures r.Ok? ==> r.value.sql == CombinedBase(s.table, c) + OrderByClause(order, attrs)
  {
    var t :- ParseTime(p, asOfTime);
    var d :- ParseValidAt(s, c, p, validAt);
    Ok(Query(CombinedBase(s.table, c) + OrderByClause(order, attrs), [t, d]))
  }

  /**
   The combined query is the system as-of query narrowed by the
   application period test: it succeeds exactly when both single-period
   queries do, its text is `all_as_of`'s with `WHERE ? BETWEEN ...` added,
   and its parameters are `all_as_of`'s followed by `all_valid_at`'s.
   */
  lemma CombinedJoinsBothPeriods(s: ModelSchema, c: AppConfig, p: Parsers, validAt: Value, asOfTime: Value)
    ensures AllValidAtAsOf(s, c, p, validAt, asOfTime).Ok? <==>
      AllAsOf(s, p, asOfTime).Ok? && AllValidAt(s, c, p, validAt).Ok?
    ensures AllValidAtAsOf(s, c, p, validAt, asOfTime).Ok? ==>
      && AllValidAtAsOf(s, c, p, validAt, asOfTime).value.sql == AllAsOf(s, p, asOfTime).value.sql + " WHERE " + Between(c)
      && AllValidAtAsOf(s, c, p, validAt, asOfTime).value.params
           == AllAsOf(s, p, asOfTime).value.params + AllValidAt(s, c, p, validAt).value.params
  {
  }

  /** Neither time is interpolated: the text is the same whatever times are given. */
  lemma CombinedTextIndependentOfTimes(s: ModelSchema, c: AppConfig, p: Parsers, v1: Value, t1: Value, v2: Value, t2: Value,
                                       order: Option<string>, attrs: seq<Value>)
    ensures AllValidAtAsOf(s, c, p, v1, t1).Ok? && AllValidAtAsOf(s, c, p, v2, t2).Ok? ==>
      AllValidAtAsOf(s, c, p, v1, t1).value.sql == AllValidAtAsOf(s, c, p, v2, t2).value.sql
    ensures OrderValidAtAsOf(s, c, p, v1, t1, order, attrs).Ok? && OrderValidAtAsOf(s, c, p, v2, t2, order, attrs).Ok? ==>
      OrderValidAtAsOf(s, c, p, v1, t1, order, attrs).value.sql == OrderValidAtAsOf(s, c, p, v2, t2, order, attrs).value.sql
  {
  }

  /** Both queries bind their two parameters to their two placeholders, in order. */
  lemma {:induction false} CombinedQueriesBind(s: ModelSchema, c: AppConfig, p: Parsers, validAt: Value, asOfTime: Value,
                                               order: Option<string>, attrs: seq<Value>)
    requires Plain(s.table) && Plain(c.startColumnName) && Plain(c.endColumnName)
    requires Plain(OrderText(order)) && Plain(JoinValues(attrs, ", "))
    ensures AllValidAtAsOf(s, c, p, validAt, asOfTime).Ok? ==> Binds(AllValidAtAsOf(s, c, p, validAt, asOfTime).value)
    ensures OrderValidAtAsOf(s, c, p, validAt, asOfTime, order, attrs).Ok? ==>
      Binds(OrderValidAtAsOf(s, c, p, validAt, asOfTime, order, attrs).value)
  {
    AsOfBaseHasOnePlaceholder(s.table);
    BetweenHasOnePlaceholder(c);
    PlaceholdersAbsent(" WHERE ");
    PlaceholdersConcat(AsOfBase(s.table), " WHERE ");
    PlaceholdersConcat(AsOfBase(s.table) + " WHERE ", Between(c));
    OrderByClausePlain(order, attrs);
    PlaceholdersAbsent(OrderByClause(order, attrs));
    PlaceholdersConcat(CombinedBase(s.table, c), OrderByClause(order, attrs));
  }

  // The library's own examples: table `dummy`, end column declared `:date`.

  lemma CombinedBaseExample()
    ensures CombinedBase("dummy", ConfigureApp(NoAppOptions))
      == "SELECT * FROM " + "dummy" + " FOR SYSTEM_TIME AS OF TIMESTAMP?" + " WHERE " + "? BETWEEN valid_start AND valid_end"
  {
    DefaultBetween();
    AsOfBaseExample();
  }

  lemma AllValidAtAsOfExample(p: Parsers, today: string, now: string)
    ensures AllValidAtAsOf(AppDummy, ConfigureApp(NoAppOptions), p, Temporal(DateClass, today), Temporal(TimeClass, now))
      == Ok(Query("SELECT * FROM " + "dummy" + " FOR SYSTEM_TIME AS OF TIMESTAMP?" + " WHERE " + "? BETWEEN valid_start AND valid_end",
                  [Temporal(TimeClass, now), Temporal(DateClass, today)]))
  {
    assert ParseTime(p, Temporal(TimeClass, now)) == Ok(Temporal(TimeClass, now));
    DateCoercionExample(p, today);
    CombinedBaseExample();
    assert AppDummy.table == "dummy";
  }

  lemma OrderValidAtAsOfExample(p: Parsers, today: string, now: string)
    ensures OrderValidAtAsOf(AppDummy, ConfigureApp(NoAppOptions), p, Temporal(DateClass, today), Temporal(TimeClass, now),
                             Some("DESC"), [Arr([Sym("first"), Sym("second")])])
      == Ok(Query("SELECT * FROM " + "dummy" + " FOR SYSTEM_TIME AS OF TIMESTAMP?" + " WHERE " + "? BETWEEN valid_start AND valid_end"
                    + " ORDER BY first, second DESC",
                  [Temporal(TimeClass, now), Temporal(DateClass, today)]))
  {
    assert ParseTime(p, Temporal(TimeClass, now)) == Ok(Temporal(TimeClass, now));
    DateCoercionExample(p, today);
    CombinedBaseExample();
    OrderByClauseExample();
    assert AppDummy.table == "dummy";
  }
}
