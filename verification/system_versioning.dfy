/**
 System versioning: the per-model options (`system_versioning_options`) and
 the class-level queries over a system-versioned table (`FOR SYSTEM_TIME`),
 plus the instance query `versions`. Each query is the text and the bound
 parameters handed to `find_by_sql`; running it is the record store's job.
 */
module SystemVersioning {
  import opened Strings
  import opened RubyValues
  import opened Schema
  import opened TimeCoercion
  import opened SqlFragments

  /** The options hash; an absent (nil) option falls back to its default. */
  datatype SystemOptions = SystemOptions(
    startColumnName: Option<string>,
    endColumnName: Option<string>,
    excludeRevert: Option<seq<Value>>,
    excludeChangeList: Option<seq<Value>>,
    primaryKey: Option<Value>)

  const NoSystemOptions: SystemOptions := SystemOptions(None, None, None, None, None)

  datatype SystemConfig = SystemConfig(
    startColumnName: string,
    endColumnName: string,
    excludeRevert: seq<Value>,
    excludeChangeList: seq<Value>)

  /** Columns that are neither reverted nor listed as changes, whatever the options say. */
  const DefaultExclude: seq<Value> := [Str("id"), Str("author_id"), Str("change_list")]

  /**
   `system_versioning_options`: every call starts from the defaults, so a
   call replaces the whole configuration. The user's exclusions come first,
   then the three bookkeeping columns, then (for revert only) the two period
   columns.
   */
  function ConfigureSystem(o: SystemOptions): (c: SystemConfig)
    ensures c.startColumnName == (if o.startColumnName.Some? then o.startColumnName.value else "transaction_start")
    ensures c.endColumnName == (if o.endColumnName.Some? then o.endColumnName.value else "transaction_end")
    ensures c.excludeRevert == o.excludeRevert.GetOr([]) + DefaultExclude + [Str(c.startColumnName), Str(c.endColumnName)]
    ensures c.excludeChangeList == o.excludeChangeList.GetOr([]) + DefaultExclude
    ensures forall v :: v in DefaultExclude ==> v in c.excludeRevert && v in c.excludeChangeList
    ensures Str(c.startColumnName) in c.excludeRevert && Str(c.endColumnName) in c.excludeRevert
  {
    var start := o.startColumnName.GetOr("transaction_start");
    var end := o.endColumnName.GetOr("transaction_end");
    SystemConfig(
      start,
      end,
      o.excludeRevert.GetOr([]) + DefaultExclude + [Str(start), Str(end)],
      o.excludeChangeList.GetOr([]) + DefaultExclude)
  }

  /** The value `system_versioning_options` assigns to the model's `primary_key`. */
  function SystemPrimaryKey(o: SystemOptions): (k: Value)
    ensures o.primaryKey.None? ==> k == Sym("id")
    ensures o.primaryKey.Some? ==> k == o.primaryKey.value
  {
    o.primaryKey.GetOr(Sym("id"))
  }

  /** The configuration a model has before any explicit call. */
  lemma DefaultSystemConfig()
    ensures ConfigureSystem(NoSystemOptions) == SystemConfig(
      "transaction_start",
      "transaction_end",
      [Str("id"), Str("author_id"), Str("change_list"), Str("transaction_start"), Str("transaction_end")],
      [Str("id"), Str("author_id"), Str("change_list")])
    ensures SystemPrimaryKey(NoSystemOptions) == Sym("id")
  {
  }

  function AsOfBase(table: string): string
  {
    "SELECT * FROM " + table + " FOR SYSTEM_TIME AS OF TIMESTAMP" + Placeholder
  }

  /** `all_as_of`: the text depends on the table only; the coerced time is the one parameter. */
  function AllAsOf(s: ModelSchema, p: Parsers, asOfTime: Value): (r: Result<Query>)
    ensures BoundToParsed(r, ParseTime(p, asOfTime), AsOfBase(s.table))
  {
    var t :- ParseTime(p, asOfTime);
    Ok(Query(AsOfBase(s.table), [t]))
  }

  /** `order_as_of`: the as-of text followed by the `ORDER BY` suffix. */
  function OrderAsOf(s: ModelSchema, p: Parsers, asOfTime: Value, order: Option<string>, attrs: seq<Value>): (r: Result<Query>)
    ensures BoundToParsed(r, ParseTime(p, asOfTime), AsOfBase(s.table) + OrderByClause(order, attrs))
  {
    var t :- ParseTime(p, asOfTime);
    Ok(Query(AsOfBase(s.table) + OrderByClause(order, attrs), [t]))
  }

  /** `where_as_of`: the as-of text, a space, then the equality clause. */
  function WhereAsOf(s: ModelSchema, p: Parsers, asOfTime: Value, pairs: seq<(Value, Value)>): (r: Result<Query>)
    ensures BoundToParsed(r, ParseTime(p, asOfTime), AsOfBase(s.table) + " " + EqualityClause(pairs))
  {
    var t :- ParseTime(p, asOfTime);
    Ok(Query(AsOfBase(s.table) + " " + EqualityClause(pairs), [t]))
  }

  /**
   `find_as_of`: the time is coerced first, so its exception wins over the
   one from splitting an id that is not a string; then the id clause and
   `LIMIT 1`.
   */
  function FindAsOf(s: ModelSchema, p: Parsers, asOfTime: Value, id: Value): (r: Result<Query>)
    ensures var t, w := ParseTime(p, asOfTime), WhereClauseForId(s.primaryKeys, id);
      && (t.Err? ==> r == Err(t.error))
      && (t.Ok? && w.Err? ==> r == Err(w.error))
      && (t.Ok? && w.Ok? ==> r == Ok(Query(AsOfBase(s.table) + " " + w.value + " LIMIT 1", [t.value])))
  {
    var t :- ParseTime(p, asOfTime);
    var clause :- WhereClauseForId(s.primaryKeys, id);
    Ok(Query(AsOfBase(s.table) + " " + clause + " LIMIT 1", [t]))
  }

  function CountBase(table: string): string
  {
    "SELECT COUNT(*) AS count FROM " + table + " FOR SYSTEM_TIME ALL WHERE author_id=" + Placeholder
  }

  /** `versions_count_for_author`: the author id is bound as given, never coerced nor interpolated. */
  function VersionsCountForAuthor(s: ModelSchema, authorId: Value): (q: Query)
    ensures q.params == [authorId]
    ensures q.sql == CountBase(s.table)
  {
    Query(CountBase(s.table), [authorId])
  }

  /**
   `versions`: every version of the record with id `id` (the record's own),
   ordered by the system end column; no bound parameter.
   */
  function Versions(s: ModelSchema, c: SystemConfig, id: Value, order: Option<string>): (r: Result<Query>)
    ensures WhereClauseForId(s.primaryKeys, id).Err? ==> r == Err(WhereClauseForId(s.primaryKeys, id).error)
    ensures WhereClauseForId(s.primaryKeys, id).Ok? ==> r.Ok? && r.value.params == []
    ensures r.Ok? ==> (r.value.sql ==
      "SELECT * FROM " + s.table + " FOR SYSTEM_TIME ALL " + WhereClauseForId(s.primaryKeys, id).value
      + " ORDER BY " + c.endColumnName + " " + OrderText(order))
  {
    var clause :- WhereClauseForId(s.primaryKeys, id);
    JoinValuesSingle(Str(c.endColumnName), ", ");
    Ok(Query("SELECT * FROM " + s.table + " FOR SYSTEM_TIME ALL " + clause + OrderByClause(order, [Str(c.endColumnName)]), []))
  }

  // Placeholder accounting: with identifiers and interpolated values free of
  // `?`, each query has exactly one `?` per bound parameter.

  lemma {:induction false} PlainTail(prefix: string, tail: string)
    requires Plain(tail)
    ensures Placeholders(prefix + tail) == Placeholders(prefix)
  {
    PlaceholdersConcat(prefix, tail);
    PlaceholdersAbsent(tail);
  }

  lemma {:induction false} AsOfBaseHasOnePlaceholder(table: string)
    requires Plain(table)
    ensures Placeholders(AsOfBase(table)) == 1
  {
    var head := "SELECT * FROM " + table + " FOR SYSTEM_TIME AS OF TIMESTAMP";
    assert PlaceholderChar !in head;
    PlaceholdersAbsent(head);
    PlaceholdersConcat(head, Placeholder);
  }

  lemma {:induction false} AllAsOfBinds(s: ModelSchema, p: Parsers, asOfTime: Value)
    requires Plain(s.table)
    ensures AllAsOf(s, p, asOfTime).Ok? ==> Binds(AllAsOf(s, p, asOfTime).value)
  {
    AsOfBaseHasOnePlaceholder(s.table);
  }

  lemma {:induction false} OrderAsOfBinds(s: ModelSchema, p: Parsers, asOfTime: Value, order: Option<string>, attrs: seq<Value>)
    requires Plain(s.table) && Plain(OrderText(order)) && Plain(JoinValues(attrs, ", "))
    ensures OrderAsOf(s, p, asOfTime, order, attrs).Ok? ==> Binds(OrderAsOf(s, p, asOfTime, order, attrs).value)
  {
    AsOfBaseHasOnePlaceholder(s.table);
    OrderByClausePlain(order, attrs);
    PlainTail(AsOfBase(s.table), OrderByClause(order, attrs));
  }

  lemma {:induction false} WhereAsOfBinds(s: ModelSchema, p: Parsers, asOfTime: Value, pairs: seq<(Value, Value)>)
    requires Plain(s.table)
    requires forall i :: 0 <= i < |pairs| ==> PlainValue(pairs[i].0) && PlainValue(pairs[i].1)
    ensures WhereAsOf(s, p, asOfTime, pairs).Ok? ==> Binds(WhereAsOf(s, p, asOfTime, pairs).value)
  {
    AsOfBaseHasOnePlaceholder(s.table);
    EqualityClausePlain(pairs);
    PlainTail(AsOfBase(s.table), " " + EqualityClause(pairs));
    assert AsOfBase(s.table) + " " + EqualityClause(pairs) == AsOfBase(s.table) + (" " + EqualityClause(pairs));
  }

  lemma {:induction false} FindAsOfBinds(s: ModelSchema, p: Parsers, asOfTime: Value, id: Value)
    requires Plain(s.table) && PlainId(s.primaryKeys, id)
    ensures FindAsOf(s, p, asOfTime, id).Ok? ==> Binds(FindAsOf(s, p, asOfTime, id).value)
  {
    var w := WhereClauseForId(s.primaryKeys, id);
    if ParseTime(p, asOfTime).Ok? && w.Ok? {
      AsOfBaseHasOnePlaceholder(s.table);
      WhereClauseForIdPlain(s.primaryKeys, id);
      var tail := " " + w.value + " LIMIT 1";
      PlainTail(AsOfBase(s.table), tail);
      assert AsOfBase(s.table) + " " + w.value + " LIMIT 1" == AsOfBase(s.table) + tail;
    }
  }

  lemma {:induction false} VersionsCountForAuthorBinds(s: ModelSchema, authorId: Value)
    requires Plain(s.table)
    ensures Binds(VersionsCountForAuthor(s, authorId))
  {
    var head := "SELECT COUNT(*) AS count FROM " + s.table + " FOR SYSTEM_TIME ALL WHERE author_id=";
    assert PlaceholderChar !in head;
    PlaceholdersAbsent(head);
    PlaceholdersConcat(head, Placeholder);
  }

  lemma {:induction false} VersionsBinds(s: ModelSchema, c: SystemConfig, id: Value, order: Option<string>)
    requires Plain(s.table) && Plain(c.endColumnName) && Plain(OrderText(order)) && PlainId(s.primaryKeys, id)
    ensures Versions(s, c, id, order).Ok? ==> Binds(Versions(s, c, id, order).value)
  {
    var w := WhereClauseForId(s.primaryKeys, id);
    if w.Ok? {
      WhereClauseForIdPlain(s.primaryKeys, id);
      PlainVersionsText(s.table, w.value, c.endColumnName, OrderText(order));
    }
  }

  lemma {:induction false} PlainVersionsText(table: string, clause: string, end: string, order: string)
    requires Plain(table) && Plain(clause) && Plain(end) && Plain(order)
    ensures Placeholders("SELECT * FROM " + table + " FOR SYSTEM_TIME ALL " + clause + " ORDER BY " + end + " " + order) == 0
  {
    var sql := "SELECT * FROM " + table + " FOR SYSTEM_TIME ALL " + clause + " ORDER BY " + end + " " + order;
    assert Plain(sql);
    PlaceholdersAbsent(sql);
  }

  // The strings the library's own examples expect, for a table named `dummy`
  // with no composite key.

  const Dummy: ModelSchema := ModelSchema("dummy", ["author_id", "change_list"], map[], None)

  lemma AsOfBaseExample()
    ensures AsOfBase("dummy") == "SELECT * FROM " + "dummy" + " FOR SYSTEM_TIME AS OF TIMESTAMP?"
  {
    var head := "SELECT * FROM " + "dummy";
    assert " FOR SYSTEM_TIME AS OF TIMESTAMP" + Placeholder == " FOR SYSTEM_TIME AS OF TIMESTAMP?";
    assert head + " FOR SYSTEM_TIME AS OF TIMESTAMP" + Placeholder == head + (" FOR SYSTEM_TIME AS OF TIMESTAMP" + Placeholder);
  }

  lemma AllAsOfExample(p: Parsers, now: string)
    ensures AllAsOf(Dummy, p, Temporal(TimeClass, now))
      == Ok(Query("SELECT * FROM " + "dummy" + " FOR SYSTEM_TIME AS OF TIMESTAMP?", [Temporal(TimeClass, now)]))
  {
    assert ParseTime(p, Temporal(TimeClass, now)) == Ok(Temporal(TimeClass, now));
    assert Dummy.table == "dummy";
    AsOfBaseExample();
  }

  lemma OrderAsOfExample(p: Parsers, now: string)
    ensures OrderAsOf(Dummy, p, Temporal(TimeClass, now), Some("DESC"), [Arr([Sym("first"), Sym("second")])])
      == Ok(Query(AsOfBase("dummy") + " ORDER BY first, second DESC", [Temporal(TimeClass, now)]))
  {
    assert ParseTime(p, Temporal(TimeClass, now)) == Ok(Temporal(TimeClass, now));
    assert Dummy.table == "dummy";
    OrderByClauseExample();
  }

  lemma WhereAsOfExample(p: Parsers, now: string)
    ensures WhereAsOf(Dummy, p, Temporal(TimeClass, now), [(Sym("attr"), Str("value1")), (Sym("attr2"), Str("value2"))])
      == Ok(Query(AsOfBase("dummy") + " " + ("WHERE " + "attr = 'value1'" + " AND " + "attr2 = 'value2'"), [Temporal(TimeClass, now)]))
  {
    assert ParseTime(p, Temporal(TimeClass, now)) == Ok(Temporal(TimeClass, now));
    assert Dummy.table == "dummy";
    EqualityClauseExample();
  }

  lemma FindAsOfExample(p: Parsers, now: string)
    ensures FindAsOf(Dummy, p, Temporal(TimeClass, now), Int(5))
      == Ok(Query(AsOfBase("dummy") + " " + "WHERE id = '5'" + " LIMIT 1", [Temporal(TimeClass, now)]))
  {
    assert ParseTime(p, Temporal(TimeClass, now)) == Ok(Temporal(TimeClass, now));
    assert Dummy.table == "dummy" && Dummy.primaryKeys == None;
    IdClauseExample(5, "5");
    assert "WHERE id = '" + "5" + "'" == "WHERE id = '5'";
  }

  /** A one-digit id without composite keys. */
  lemma IdClauseExample(n: nat, digit: string)
    requires n < 10 && digit == [DigitChar(n)]
    ensures WhereClauseForId(None, Int(n)) == Ok("WHERE id = '" + digit + "'")
  {
    assert ToS(Int(n)) == digit;
  }

  lemma VersionsCountExample()
    ensures VersionsCountForAuthor(Dummy, Int(5))
      == Query("SELECT COUNT(*) AS count FROM " + "dummy" + " FOR SYSTEM_TIME ALL WHERE author_id=?", [Int(5)])
  {
    assert Dummy.table == "dummy";
    var head := "SELECT COUNT(*) AS count FROM " + "dummy";
    assert CountBase("dummy") == head + " FOR SYSTEM_TIME ALL WHERE author_id=" + Placeholder;
    assert " FOR SYSTEM_TIME ALL WHERE author_id=" + Placeholder == " FOR SYSTEM_TIME ALL WHERE author_id=?";
    assert head + " FOR SYSTEM_TIME ALL WHERE author_id=" + Placeholder == head + (" FOR SYSTEM_TIME ALL WHERE author_id=" + Placeholder);
  }

  lemma VersionsExample()
    ensures Versions(Dummy, ConfigureSystem(NoSystemOptions), Int(1), None)
      == Ok(Query("SELECT * FROM " + "dummy" + " FOR SYSTEM_TIME ALL " + "WHERE id = '1'" + " ORDER BY " + "transaction_end" + " " + "ASC", []))
  {
    assert Dummy.table == "dummy" && Dummy.primaryKeys == None;
    assert ConfigureSystem(NoSystemOptions).endColumnName == "transaction_end";
    IdClauseExample(1, "1");
    assert "WHERE id = '" + "1" + "'" == "WHERE id = '1'";
  }

  /** The table `dummy` with the composite primary key `[:id, :second]`. */
  const CompositeDummy: ModelSchema := ModelSchema("dummy", ["author_id", "change_list"], map[], Some([Sym("id"), Sym("second")]))

  /** With composite keys, the array id gives one `key='part'` per key. */
  lemma CompositeKeyExample(p: Parsers, now: string)
    ensures FindAsOf(CompositeDummy, p, Temporal(TimeClass, now), Arr([Str("5"), Str("value")]))
      == Ok(Query(AsOfBase("dummy") + " " + ("WHERE " + "id='5'" + " AND " + "second='value'") + " LIMIT 1", [Temporal(TimeClass, now)]))
  {
    assert ParseTime(p, Temporal(TimeClass, now)) == Ok(Temporal(TimeClass, now));
    assert CompositeDummy.table == "dummy" && CompositeDummy.primaryKeys == Some([Sym("id"), Sym("second")]);
    CompositeClauseExample();
  }

  lemma CompositeClauseExample()
    ensures WhereClauseForId(Some([Sym("id"), Sym("second")]), Arr([Str("5"), Str("value")])) == Ok("WHERE " + "id='5'" + " AND " + "second='value'")
  {
    var keys := [Sym("id"), Sym("second")];
    var ids := [Str("5"), Str("value")];
    assert KeyConjuncts(keys, ids)[0] == "id='5'" && KeyConjuncts(keys, ids)[1] == "second='value'";
    assert KeyConjuncts(keys, ids) == ["id='5'", "second='value'"];
    assert KeyConjuncts(keys, ids)[1..] == ["second='value'"];
    assert Join(KeyConjuncts(keys, ids), " AND ") == "id='5'" + " AND " + "second='value'";
    assert "WHERE " + ("id='5'" + " AND " + "second='value'") == "WHERE " + "id='5'" + " AND " + "second='value'";
    assert CompositeIdParts(Arr(ids)) == Ok(ids);
  }

  /** ... and the comma-separated id `"5,value"` gives the same query as the array. */
  lemma CommaSeparatedKeyExample(p: Parsers, now: string)
    ensures FindAsOf(CompositeDummy, p, Temporal(TimeClass, now), Str("5,value"))
      == FindAsOf(CompositeDummy, p, Temporal(TimeClass, now), Arr([Str("5"), Str("value")]))
  {
    CommaSeparatedIdMatchesArray([Sym("id"), Sym("second")], ["5", "value"]);
    assert StrValues(["5", "value"]) == [Str("5"), Str("value")];
    assert Join(["5", "value"], ",") == "5,value";
  }
}
