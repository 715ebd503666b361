/**
 What system versioning does to a record: the two `before_save` callbacks
 (`add_author` stamps the current author, `add_change_list` writes the change
 list) and `revert`, which looks up an old version and updates the record
 with its attributes. Saving, querying and updating are the record store's
 job: their answers are parameters here.
 */
module VersionLifecycle {
  import opened Strings
  import opened RubyValues
  import opened Schema
  import opened TimeCoercion
  import opened SqlFragments
  import opened SystemVersioning
  import opened ChangeList

  /** The object set with `system_versioning_set_author`; only its `id` is used. */
  datatype Author = Author(id: Value)

  const AuthorColumn: string := "author_id"
  const ChangeListColumn: string := "change_list"

  const MissingAuthorWarning: string :=
    "Could not find author to associate with version, make sure to call system_versioning_set_author in your controller"

  /** A record about to be saved: its attribute values by column name and its pending `changes`. */
  datatype Record = Record(attributes: map<string, Value>, changes: seq<Change>)

  /** A record after a callback, with the warnings the callback issued. */
  datatype Enriched = Enriched(record: Record, warnings: seq<string>)

  /** `b` is `a` with at most `column` given a new value. */
  predicate OnlyColumnDiffers(a: map<string, Value>, b: map<string, Value>, column: string)
  {
    && (forall k :: k in a && k != column ==> k in b && b[k] == a[k])
    && (forall k :: k in b && k != column ==> k in a)
  }

  /**
   `add_author`: a model with an `author_id` column gets the current author's
   id, or a warning when no author was set; a model without the column is
   left alone.
   */
  function AddAuthor(s: ModelSchema, author: Option<Author>, r: Record): (e: Enriched)
    ensures e.record.changes == r.changes
    ensures OnlyColumnDiffers(r.attributes, e.record.attributes, AuthorColumn)
    ensures AuthorColumn in e.record.attributes && (AuthorColumn !in r.attributes || e.record.attributes[AuthorColumn] != r.attributes[AuthorColumn])
      ==> AuthorColumn in s.columnNames && author.Some?
    ensures AuthorColumn in s.columnNames && author.Some? ==>
      AuthorColumn in e.record.attributes && e.record.attributes[AuthorColumn] == author.value.id
    ensures AuthorColumn !in s.columnNames || author.None? ==> e.record == r
    ensures e.warnings == if AuthorColumn in s.columnNames && author.None? then [MissingAuthorWarning] else []
  {
    if AuthorColumn in s.columnNames then
      match author
      case Some(a) => Enriched(r.(attributes := r.attributes[AuthorColumn := a.id]), [])
      case None => Enriched(r, [MissingAuthorWarning])
    else Enriched(r, [])
  }

  /**
   `add_change_list`: a model with a `change_list` column stores the change
   list of the record's pending changes; nothing else changes.
   */
  function AddChangeList(s: ModelSchema, c: SystemConfig, r: Record): (e: Record)
    ensures e.changes == r.changes
    ensures OnlyColumnDiffers(r.attributes, e.attributes, ChangeListColumn)
    ensures ChangeListColumn in s.columnNames ==>
      ChangeListColumn in e.attributes && e.attributes[ChangeListColumn] == Str(GetChangeList(r.changes, c.excludeChangeList))
    ensures ChangeListColumn !in s.columnNames ==> e == r
  {
    if ChangeListColumn in s.columnNames then
      r.(attributes := r.attributes[ChangeListColumn := Str(GetChangeList(r.changes, c.excludeChangeList))])
    else r
  }

  /**
   The `before_save` chain, `add_author` then `add_change_list`: every column
   other than `author_id` and `change_list` keeps its value, and the change
   list is computed from the record's own pending changes.
   */
  function BeforeSave(s: ModelSchema, c: SystemConfig, author: Option<Author>, r: Record): (e: Enriched)
    ensures e.record.changes == r.changes
    ensures forall k :: k != AuthorColumn && k != ChangeListColumn ==>
      (k in r.attributes <==> k in e.record.attributes) && (k in r.attributes ==> r.attributes[k] == e.record.attributes[k])
    ensures ChangeListColumn in s.columnNames ==>
      ChangeListColumn in e.record.attributes && e.record.attributes[ChangeListColumn] == Str(GetChangeList(r.changes, c.excludeChangeList))
    ensures AuthorColumn in s.columnNames && author.Some? ==>
      AuthorColumn in e.record.attributes && e.record.attributes[AuthorColumn] == author.value.id
    ensures e.warnings == if AuthorColumn in s.columnNames && author.None? then [MissingAuthorWarning] else []
  {
    var withAuthor := AddAuthor(s, author, r);
    Enriched(AddChangeList(s, c, withAuthor.record), withAuthor.warnings)
  }

  /**
   The author stamp never shows in the change list: `author_id` is excluded
   whatever the options, so a change of it anywhere among the pending
   changes leaves the list as it is.
   */
  lemma AuthorChangeNotListed(o: SystemOptions, before: seq<Change>, after: seq<Change>, previous: Value, stamped: Value)
    ensures var excluded := ConfigureSystem(o).excludeChangeList;
      GetChangeList(before + [Change(Str(AuthorColumn), previous, stamped)] + after, excluded)
        == GetChangeList(before + after, excluded)
  {
    var excluded := ConfigureSystem(o).excludeChangeList;
    var stamp := Change(Str(AuthorColumn), previous, stamped);
    assert Str(AuthorColumn) in excluded;
    EntriesAppend(before + [stamp], after, excluded);
    EntriesAppend(before, [stamp], excluded);
    EntriesAppend(before, after, excluded);
    assert Entries([stamp], excluded) == [] by {
      assert [stamp][1..] == [];
    }
    assert Entries(before, excluded) + [] == Entries(before, excluded);
  }

  /**
   No line of the change list is about `id`, `author_id` or `change_list`,
   whatever the options.
   */
  lemma BookkeepingNeverListed(o: SystemOptions, changes: seq<Change>)
    ensures forall e :: e in Entries(changes, ConfigureSystem(o).excludeChangeList) ==> e.column !in DefaultExclude
  {
    EntriesSoundAndComplete(changes, ConfigureSystem(o).excludeChangeList);
  }

  /**
   Exclusion compares names as values: a symbol excludes a change only if
   the change is keyed by that symbol, not by the same name as a string.
   */
  lemma ExclusionComparesValues(name: string, before: Value, after: Value)
    requires Classify(Change(Str(name), before, after)).Some?
    ensures Entries([Change(Str(name), before, after)], [Sym(name)]) == [Classify(Change(Str(name), before, after)).value]
    ensures Entries([Change(Sym(name), before, after)], [Sym(name)]) == []
  {
    assert [Change(Str(name), before, after)][1..] == [];
    assert [Change(Sym(name), before, after)][1..] == [];
  }

  /** The change list of the library's own example, with the default options. */
  lemma ChangeListExample()
    ensures GetChangeList(
        [ Change(Sym("attr1"), Str("value"), Str("value new")),
          Change(Sym("attr2"), Str("value2"), Nil),
          Change(Sym("attr3"), Nil, Str("value3")) ],
        ConfigureSystem(NoSystemOptions).excludeChangeList)
      == ("Updated " + "attr1" + ": " + "value" + " -> " + "value new") + "\n"
        + ("Removed " + "attr2") + "\n"
        + ("Added " + "attr3" + ": " + "value3") + "\n"
  {
    assert ConfigureSystem(NoSystemOptions).excludeChangeList == DefaultExclude;
    ExampleEntries();
    ExampleRendering();
  }

  lemma ExampleEntries()
    ensures Entries(
        [ Change(Sym("attr1"), Str("value"), Str("value new")),
          Change(Sym("attr2"), Str("value2"), Nil),
          Change(Sym("attr3"), Nil, Str("value3")) ],
        DefaultExclude)
      == [Updated(Sym("attr1"), Str("value"), Str("value new")), Removed(Sym("attr2")), Added(Sym("attr3"), Str("value3"))]
  {
    var c1 := Change(Sym("attr1"), Str("value"), Str("value new"));
    var c2 := Change(Sym("attr2"), Str("value2"), Nil);
    var c3 := Change(Sym("attr3"), Nil, Str("value3"));
    var e1, e2, e3 := Updated(Sym("attr1"), Str("value"), Str("value new")), Removed(Sym("attr2")), Added(Sym("attr3"), Str("value3"));
    ExampleReported();
    EntriesStep(c3, [], DefaultExclude, e3, []);
    assert [c3] + [] == [c3] && [e3] + [] == [e3];
    EntriesStep(c2, [c3], DefaultExclude, e2, [e3]);
    assert [c2] + [c3] == [c2, c3] && [e2] + [e3] == [e2, e3];
    EntriesStep(c1, [c2, c3], DefaultExclude, e1, [e2, e3]);
    assert [c1] + [c2, c3] == [c1, c2, c3] && [e1] + [e2, e3] == [e1, e2, e3];
  }

  /** One step of the example: a reported change in front of a known tail. */
  lemma EntriesStep(c: Change, rest: seq<Change>, excluded: seq<Value>, e: Entry, tail: seq<Entry>)
    requires Reported(c, excluded) == [e] && Entries(rest, excluded) == tail
    ensures Entries([c] + rest, excluded) == [e] + tail
  {
    EntriesCons(c, rest, excluded);
  }

  lemma ExampleReported()
    ensures Reported(Change(Sym("attr1"), Str("value"), Str("value new")), DefaultExclude)
      == [Updated(Sym("attr1"), Str("value"), Str("value new"))]
    ensures Reported(Change(Sym("attr2"), Str("value2"), Nil), DefaultExclude) == [Removed(Sym("attr2"))]
    ensures Reported(Change(Sym("attr3"), Nil, Str("value3")), DefaultExclude) == [Added(Sym("attr3"), Str("value3"))]
  {
    assert Sym("attr1") !in DefaultExclude && Sym("attr2") !in DefaultExclude && Sym("attr3") !in DefaultExclude;
    assert Str("value") != Str("value new");
  }

  lemma ExampleRendering()
    ensures RenderEntries([Updated(Sym("attr1"), Str("value"), Str("value new")), Removed(Sym("attr2")), Added(Sym("attr3"), Str("value3"))])
      == ("Updated " + "attr1" + ": " + "value" + " -> " + "value new") + "\n"
        + ("Removed " + "attr2") + "\n"
        + ("Added " + "attr3" + ": " + "value3") + "\n"
  {
    var e1, e2, e3 := Updated(Sym("attr1"), Str("value"), Str("value new")), Removed(Sym("attr2")), Added(Sym("attr3"), Str("value3"));
    var t1, t2, t3 := "Updated " + "attr1" + ": " + "value" + " -> " + "value new", "Removed " + "attr2", "Added " + "attr3" + ": " + "value3";
    ExampleTexts();
    assert EntryTexts([e1, e2, e3]) == [t1, t2, t3];
    assert RenderLines([t1]) == t1 + "\n" by {
      assert [t1][..0] == [];
    }
    assert RenderLines([t1, t2]) == t1 + "\n" + t2 + "\n" by {
      assert [t1, t2][..1] == [t1];
    }
    assert RenderLines([t1, t2, t3]) == t1 + "\n" + t2 + "\n" + t3 + "\n" by {
      assert [t1, t2, t3][..2] == [t1, t2];
    }
  }

  lemma ExampleTexts()
    ensures EntryText(Updated(Sym("attr1"), Str("value"), Str("value new"))) == "Updated " + "attr1" + ": " + "value" + " -> " + "value new"
    ensures EntryText(Removed(Sym("attr2"))) == "Removed " + "attr2"
    ensures EntryText(Added(Sym("attr3"), Str("value3"))) == "Added " + "attr3" + ": " + "value3"
  {
    assert ToS(Sym("attr1")) == "attr1" && ToS(Str("value")) == "value" && ToS(Str("value new")) == "value new";
    assert ToS(Sym("attr2")) == "attr2";
    assert ToS(Sym("attr3")) == "attr3" && ToS(Str("value3")) == "value3";
  }

  // Revert.

  /** A row `find_by_sql` returns, by its `attributes` (string keys). */
  type Row = map<string, Value>

  /**
   `Hash#except(*keys)`: the row without the columns whose name, as a
   string, is one of `keys`.
   */
  function Except(row: Row, keys: seq<Value>): (r: Row)
    ensures forall k :: k in r <==> k in row && Str(k) !in keys
    ensures forall k :: k in r ==> r[k] == row[k]
  {
    map k | k in row && Str(k) !in keys :: row[k]
  }

  /** The text both lookups share up to the time: `SELECT * FROM t FOR SYSTEM_TIME AS OF `. */
  function AsOfHead(table: string): string
  {
    "SELECT * FROM " + table + " FOR SYSTEM_TIME AS OF "
  }

  lemma AsOfBaseIsHeadAndTimestamp(table: string)
    ensures AsOfBase(table) == AsOfHead(table) + "TIMESTAMP" + Placeholder
  {
  }

  /**
   `revert`'s lookup as written: `FOR SYSTEM_TIME AS OF ?`, without the
   `TIMESTAMP` keyword `find_as_of` uses, then the id clause and `LIMIT 1`.
   The time is coerced first.
   */
  function RevertLookup(s: ModelSchema, p: Parsers, id: Value, endValue: Value): (r: Result<Query>)
    ensures var t, w := ParseTime(p, endValue), WhereClauseForId(s.primaryKeys, id);
      && (t.Err? ==> r == Err(t.error))
      && (t.Ok? && w.Err? ==> r == Err(w.error))
      && (t.Ok? && w.Ok? ==> r == Ok(Query(AsOfHead(s.table) + Placeholder + " " + w.value + " LIMIT 1", [t.value])))
  {
    var t :- ParseTime(p, endValue);
    var clause :- WhereClauseForId(s.primaryKeys, id);
    Ok(Query(AsOfHead(s.table) + Placeholder + " " + clause + " LIMIT 1", [t]))
  }

  /**
   The lookup fails exactly when `find_as_of` would, binds the same time,
   and differs from `find_as_of`'s text in one place: where `find_as_of`
   has `TIMESTAMP?`, it has `?`.
   */
  lemma RevertLookupVersusFindAsOf(s: ModelSchema, p: Parsers, id: Value, endValue: Value)
    ensures RevertLookup(s, p, id, endValue).Err? <==> FindAsOf(s, p, endValue, id).Err?
    ensures RevertLookup(s, p, id, endValue).Err? ==> RevertLookup(s, p, id, endValue).error == FindAsOf(s, p, endValue, id).error
    ensures RevertLookup(s, p, id, endValue).Ok? ==>
      && RevertLookup(s, p, id, endValue).value.params == FindAsOf(s, p, endValue, id).value.params
      && RevertLookup(s, p, id, endValue).value.sql
           == AsOfHead(s.table) + Placeholder + " " + WhereClauseForId(s.primaryKeys, id).value + " LIMIT 1"
      && FindAsOf(s, p, endValue, id).value.sql
           == AsOfHead(s.table) + "TIMESTAMP" + Placeholder + " " + WhereClauseForId(s.primaryKeys, id).value + " LIMIT 1"
  {
    AsOfBaseIsHeadAndTimestamp(s.table);
  }

  /** So the two texts are never equal: at the same position one has `?`, the other `T`. */
  lemma RevertLookupLacksTimestamp(s: ModelSchema, p: Parsers, id: Value, endValue: Value)
    requires RevertLookup(s, p, id, endValue).Ok?
    ensures RevertLookup(s, p, id, endValue).value.sql != FindAsOf(s, p, endValue, id).value.sql
  {
    RevertLookupVersusFindAsOf(s, p, id, endValue);
    var head := AsOfHead(s.table);
    var r := RevertLookup(s, p, id, endValue).value.sql;
    var f := FindAsOf(s, p, endValue, id).value.sql;
    assert r[|head|] == '?';
    assert f[|head|] == 'T';
  }

  /**
   The library's own revert example: id 2 at a given time. The lookup sent
   is `... AS OF ? WHERE id = '2' LIMIT 1`, not the `AS OF TIMESTAMP?` text
   the example expects, which is `find_as_of`'s.
   */
  lemma RevertLookupExample(p: Parsers, now: string)
    ensures RevertLookup(Dummy, p, Int(2), Temporal(TimeClass, now))
      == Ok(Query("SELECT * FROM " + "dummy" + " FOR SYSTEM_TIME AS OF ?" + " " + "WHERE id = '2'" + " LIMIT 1",
                  [Temporal(TimeClass, now)]))
    ensures FindAsOf(Dummy, p, Temporal(TimeClass, now), Int(2)).Ok?
    ensures FindAsOf(Dummy, p, Temporal(TimeClass, now), Int(2)).value.sql
      == "SELECT * FROM " + "dummy" + " FOR SYSTEM_TIME AS OF TIMESTAMP?" + " " + "WHERE id = '2'" + " LIMIT 1"
    ensures "SELECT * FROM " + "dummy" + " FOR SYSTEM_TIME AS OF ?" + " " + "WHERE id = '2'" + " LIMIT 1"
      != "SELECT * FROM " + "dummy" + " FOR SYSTEM_TIME AS OF TIMESTAMP?" + " " + "WHERE id = '2'" + " LIMIT 1"
  {
    assert ParseTime(p, Temporal(TimeClass, now)) == Ok(Temporal(TimeClass, now));
    assert Dummy.table == "dummy" && Dummy.primaryKeys == None;
    IdClauseExample(2, "2");
    assert "WHERE id = '" + "2" + "'" == "WHERE id = '2'";
    assert AsOfHead("dummy") + Placeholder == "SELECT * FROM " + "dummy" + " FOR SYSTEM_TIME AS OF ?";
    AsOfBaseExample();
    RevertLookupLacksTimestamp(Dummy, p, Int(2), Temporal(TimeClass, now));
  }

  /** The as-written lookup binds one parameter to its one placeholder. */
  lemma {:induction false} RevertLookupBinds(s: ModelSchema, p: Parsers, id: Value, endValue: Value)
    requires Plain(s.table) && PlainId(s.primaryKeys, id)
    ensures RevertLookup(s, p, id, endValue).Ok? ==> Binds(RevertLookup(s, p, id, endValue).value)
  {
    var w := WhereClauseForId(s.primaryKeys, id);
    if RevertLookup(s, p, id, endValue).Ok? {
      WhereClauseForIdPlain(s.primaryKeys, id);
      var head := AsOfHead(s.table);
      assert Plain(head);
      PlaceholdersAbsent(head);
      PlaceholdersConcat(head, Placeholder);
      PlainTail(head + Placeholder, " ");
      PlainTail(head + Placeholder + " ", w.value);
      PlainTail(head + Placeholder + " " + w.value, " LIMIT 1");
    }
  }

  /** The corrected lookup: exactly the query `find_as_of` runs for the same id and time. */
  function RevertLookupCorrected(s: ModelSchema, p: Parsers, id: Value, endValue: Value): (r: Result<Query>)
    ensures r.Err? <==> RevertLookup(s, p, id, endValue).Err?
    ensures r.Ok? ==>
      && ParseTime(p, endValue).Ok? && WhereClauseForId(s.primaryKeys, id).Ok?
      && r.value.sql == AsOfBase(s.table) + " " + WhereClauseForId(s.primaryKeys, id).value + " LIMIT 1"
      && r.value.params == [ParseTime(p, endValue).value]
  {
    FindAsOf(s, p, endValue, id)
  }

  /** What `revert` does once the lookup has answered: return false, or update with these attributes. */
  datatype RevertStep = ReturnFalse | Update(attributes: Row)

  /**
   The decision of `revert` as written. A nil lookup returns false; an empty
   one is truthy, so its first row is nil and asking nil for `attributes`
   raises. `except` is given the whole exclusion list as one key, so no
   column is dropped.
   */
  function RevertDecision(c: SystemConfig, lookup: Option<seq<Row>>): (r: Result<RevertStep>)
    ensures r == Ok(ReturnFalse) <==> lookup.None?
    ensures r.Err? <==> lookup == Some([])
    ensures r.Err? ==> r.error == NoMethod(Nil, "attributes")
    ensures lookup.Some? && |lookup.value| > 0 ==> r == Ok(Update(lookup.value[0]))
  {
    match lookup
    case None => Ok(ReturnFalse)
    case Some(rows) =>
      if |rows| == 0 then Err(NoMethod(Nil, "attributes"))
      else
        assert Except(rows[0], [Arr(c.excludeRevert)]) == rows[0];
        Ok(Update(Except(rows[0], [Arr(c.excludeRevert)])))
  }

  /** As written, the update receives the found row's attributes unchanged, excluded columns included. */
  lemma RevertDropsNoColumn(c: SystemConfig, rows: seq<Row>)
    requires |rows| > 0
    ensures RevertDecision(c, Some(rows)) == Ok(Update(rows[0]))
  {
    assert Except(rows[0], [Arr(c.excludeRevert)]) == rows[0];
  }

  /** As written, an empty lookup raises instead of returning false. */
  lemma RevertEmptyLookupRaises(c: SystemConfig)
    ensures RevertDecision(c, Some([])) == Err(NoMethod(Nil, "attributes"))
    ensures RevertDecision(c, None) == Ok(ReturnFalse)
  {
  }

  /**
   The corrected decision: no version found (nil or no row) returns false;
   otherwise the update gets the row without the excluded columns,
   `except(*exclude_revert)`.
   */
  function RevertDecisionCorrected(c: SystemConfig, lookup: Option<seq<Row>>): (r: RevertStep)
    ensures r == ReturnFalse <==> lookup.None? || |lookup.value| == 0
    ensures r.Update? ==> forall k :: k in r.attributes <==> k in lookup.value[0] && Str(k) !in c.excludeRevert
    ensures r.Update? ==> forall k :: k in r.attributes ==> r.attributes[k] == lookup.value[0][k]
  {
    match lookup
    case None => ReturnFalse
    case Some(rows) =>
      if |rows| == 0 then ReturnFalse else Update(Except(rows[0], c.excludeRevert))
  }

  /**
   With a configuration from `system_versioning_options`, the corrected
   update never writes the id, the bookkeeping columns or the period columns.
   */
  lemma RevertCorrectedKeepsBookkeeping(o: SystemOptions, rows: seq<Row>)
    requires |rows| > 0
    ensures var c := ConfigureSystem(o);
      var u := RevertDecisionCorrected(c, Some(rows)).attributes;
      && "id" !in u && "author_id" !in u && "change_list" !in u
      && c.startColumnName !in u && c.endColumnName !in u
  {
    var c := ConfigureSystem(o);
    assert Str("id") in c.excludeRevert && Str("author_id") in c.excludeRevert && Str("change_list") in c.excludeRevert;
  }

  /** One run of `revert`: the lookup it sends, the update it makes (if any) and what it returns. */
  datatype RevertRun = RevertRun(lookup: Query, update: Option<Row>, returned: bool)

  /**
   `revert(id, end_value)` as written, given what `find_by_sql` answers to
   the lookup and what `update` returns.
   */
  function Revert(s: ModelSchema, c: SystemConfig, p: Parsers, id: Value, endValue: Value,
                  lookupAnswer: Option<seq<Row>>, updateReturns: bool): (r: Result<RevertRun>)
    ensures RevertLookup(s, p, id, endValue).Err? ==> r == Err(RevertLookup(s, p, id, endValue).error)
    ensures RevertLookup(s, p, id, endValue).Ok? && lookupAnswer == Some([]) ==> r == Err(NoMethod(Nil, "attributes"))
    ensures r.Err? <==> RevertLookup(s, p, id, endValue).Err? || lookupAnswer == Some([])
    ensures r.Ok? ==> r.value.lookup == RevertLookup(s, p, id, endValue).value
    ensures r.Ok? ==> (r.value.update.None? <==> lookupAnswer.None?)
    ensures r.Ok? ==> r.value.returned == (lookupAnswer.Some? && updateReturns)
    ensures r.Ok? && lookupAnswer.Some? ==> r.value.update == Some(lookupAnswer.value[0])
  {
    var q :- RevertLookup(s, p, id, endValue);
    var step :- RevertDecision(c, lookupAnswer);
    match step
    case ReturnFalse => Ok(RevertRun(q, None, false))
    case Update(attrs) =>
      RevertDropsNoColumn(c, lookupAnswer.value);
      Ok(RevertRun(q, Some(attrs), updateReturns))
  }

  /** `revert` with the corrected lookup and decision: it never raises once the lookup is sent. */
  function RevertCorrected(s: ModelSchema, c: SystemConfig, p: Parsers, id: Value, endValue: Value,
                           lookupAnswer: Option<seq<Row>>, updateReturns: bool): (r: Result<RevertRun>)
    ensures r.Err? <==> FindAsOf(s, p, endValue, id).Err?
    ensures r.Ok? ==> r.value.lookup == FindAsOf(s, p, endValue, id).value
    ensures r.Ok? ==> (r.value.update.Some? <==> lookupAnswer.Some? && |lookupAnswer.value| > 0)
    ensures r.Ok? ==> r.value.returned == (r.value.update.Some? && updateReturns)
    ensures r.Ok? && r.value.update.Some? ==> forall k :: k in r.value.update.value ==> Str(k) !in c.excludeRevert
    ensures r.Ok? && r.value.update.Some? ==> r.value.update.value == Except(lookupAnswer.value[0], c.excludeRevert)
  {
    var q :- RevertLookupCorrected(s, p, id, endValue);
    match RevertDecisionCorrected(c, lookupAnswer)
    case ReturnFalse => Ok(RevertRun(q, None, false))
    case Update(attrs) => Ok(RevertRun(q, Some(attrs), updateReturns))
  }
}
