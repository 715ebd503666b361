# Temporal tables for ActiveRecord on MariaDB, modelled in Dafny

The Ruby gem `mariadb_temporal_tables` adds three ActiveRecord concerns to a
model:

- **System versioning** (`SystemVersioning`). Queries over MariaDB's
  system-versioned tables: `all_as_of`, `order_as_of`, `where_as_of`,
  `find_as_of`, `versions`, `versions_count_for_author`. Two `before_save`
  callbacks stamp the current author and write a textual change list, and
  `revert` restores an old version.
- **Application versioning** (`ApplicationVersioning`). Queries over an
  application-time period: `all_valid_at`, `order_valid_at`, `where_valid_at`.
  The valid-at time is coerced according to the declared type of the period's
  end column.
- **Combined versioning** (`CombinedVersioning`). Includes both concerns and
  adds queries that pin the system time and test the application period at
  once.

Every query is modelled as the array handed to `find_by_sql`: a SQL text and
its bound parameters (`SqlFragments.Query`). Identifiers, ids and attribute
values are interpolated into the text unescaped, as the library does. The
only bound values are the coerced times and the author id. The model proves:

- what each text says;
- that its parameters fill its `?` placeholders one for one, whenever the
  table name, column names, ids and attribute values it interpolates hold no
  `?`;
- that no time value ever reaches the text;
- how errors from the time parsers take precedence.

The Ruby values the library handles are modelled explicitly (`RubyValues.Value`),
together with the parts of Ruby's semantics that matter here:

- `to_s` interpolation, where nil gives `""`;
- `Array#join`, which flattens nested arrays, so passing `[:a, :b]` to a splat
  parameter renders like `:a, :b`;
- `String#split`, which drops trailing empty fields;
- `is_a?`, where a `DateTime` is a `Date` and a `Time` is not;
- `include?`, which compares values, so a symbol is not the string of the
  same name.

The time parsers (`Time.parse`, `Time.zone.parse`, `Date.parse`) are
uninterpreted parameters that either return a value or raise.

Modules, one file each:

- `strings.dfy`: `Strings`.
- `values.dfy`: `RubyValues`.
- `schema.dfy`: `Schema`, the model class's table, columns, column types and
  composite keys.
- `coercion.dfy`: `TimeCoercion`.
- `sql.dfy`: `SqlFragments`, the shared clause builders.
- `system_versioning.dfy`: `SystemVersioning`.
- `change_list.dfy`: `ChangeList`.
- `lifecycle.dfy`: `VersionLifecycle`, the callbacks and `revert`.
- `application_versioning.dfy`: `ApplicationVersioning`.
- `combined_versioning.dfy`: `CombinedVersioning`.

Behaviour worth knowing that the model states as written:

- `where_as_of` with no pairs sends the bare `WHERE `.
- `where_valid_at` with no pairs sends `WHERE  AND ? BETWEEN ...`
  (`ApplicationVersioning.WhereValidAtWithoutPairs`). Neither is valid SQL.
- A composite key with more keys than id parts compares the missing parts
  with `''`.
- An interpolated name or value that holds `?` adds a placeholder with no
  parameter: `where_as_of(t, {name: "who?"})` sends two `?` and one time, which
  ActiveRecord rejects for a wrong number of bind variables.
- In a combined model the application concern is included last. Its default
  primary key `[:id, "valid_end"]` therefore wins. A later call of
  `system_versioning_options` without `:primary_key` resets it to `:id`.

## Model

| member | source | states |
|---|---|---|
| RubyValues.ClassHierarchy | lib/mariadb_temporal_tables/concerns/application_versioning.rb:77-96 | A `DateTime` is both a `Date` and a `DateTime`; a `Time` is not a `Date`; only time-like values are either |
| RubyValues.NatToStringRoundTrip | lib/mariadb_temporal_tables/concerns/system_versioning.rb:204-205 | Reading back the digits an integer id interpolates as gives the id |
| RubyValues.JoinValuesFlattens | lib/mariadb_temporal_tables/concerns/system_versioning.rb:131-134 | `join(", ")` over a splat holding one array equals the join over that array's elements |
| TimeCoercion.ParseTime | lib/mariadb_temporal_tables/concerns/system_versioning.rb:180-186 | A `Time` passes through; anything else, a `Date` and nil included, gives `Time.parse`'s value or exception |
| TimeCoercion.ParseTimeIdempotent | lib/mariadb_temporal_tables/concerns/system_versioning.rb:180-186 | Coercing a coerced time again changes nothing, when `Time.parse` yields times |
| TimeCoercion.ParseDateOrTime | lib/mariadb_temporal_tables/concerns/application_versioning.rb:74-97 | A missing end column raises `NoMethodError` on nil; otherwise a value of the class the column type accepts passes through and any other value goes to that type's parser |
| TimeCoercion.ParseDateOrTimeIdempotent | lib/mariadb_temporal_tables/concerns/application_versioning.rb:74-97 | Coercing a coerced valid-at time again changes nothing when the type's parser yields the class it accepts |
| TimeCoercion.DispatchFollowsClassHierarchy | lib/mariadb_temporal_tables/concerns/application_versioning.rb:77-96 | A `DateTime` passes through for a column whose type accepts a `Date`; a `Time` for a `:datetime` column, which accepts only a `DateTime`, goes to `Time.zone.parse` |
| SqlFragments.BuildEqualityClause | lib/mariadb_temporal_tables/concerns/system_versioning.rb:145-156 | The `first`-flag loop builds `WHERE ` followed by the `k = 'v'` texts joined by ` AND `, in input order |
| SqlFragments.EqualityClausePlain | lib/mariadb_temporal_tables/concerns/system_versioning.rb:145-156 | Keys and values free of `?` give an equality clause with no placeholder |
| SqlFragments.GenerateWhereClauseForId | lib/mariadb_temporal_tables/concerns/system_versioning.rb:189-207 | The index loop computes the declarative id clause: `WHERE id = 'id'` without composite keys; with them, one `k='part'` per key in key order joined by ` AND `; an id that is neither array nor string raises |
| SqlFragments.CommaSeparatedIdMatchesArray | lib/mariadb_temporal_tables/concerns/system_versioning.rb:193-203 | For every key list, the comma-joined id string gives the same clause as the array of its parts |
| SqlFragments.SplitOfJoin | lib/mariadb_temporal_tables/concerns/system_versioning.rb:194 | Splitting a comma-joined list gives back the list up to its trailing empty parts |
| SqlFragments.WhereClauseForIdPlain | lib/mariadb_temporal_tables/concerns/system_versioning.rb:189-207 | Keys and id parts free of `?` give an id clause with no placeholder |
| SqlFragments.OrderByClauseExample | spec/system_versioning_spec.rb:155-160 | `"DESC", [:first, :second]` renders ` ORDER BY first, second DESC` |
| SqlFragments.EqualityClauseExample | spec/system_versioning_spec.rb:165-170 | `{attr: "value1", attr2: "value2"}` renders `WHERE attr = 'value1' AND attr2 = 'value2'` |
| SystemVersioning.ConfigureSystem | lib/mariadb_temporal_tables/concerns/system_versioning.rb:107-113 | Each option falls back to its default; the revert exclusions are the user's, then `id`, `author_id`, `change_list`, then both period columns; the change-list exclusions stop after the three defaults |
| SystemVersioning.SystemPrimaryKey | lib/mariadb_temporal_tables/concerns/system_versioning.rb:115 | The primary key set is the option, or `:id` without one |
| SystemVersioning.DefaultSystemConfig | lib/mariadb_temporal_tables/concerns/system_versioning.rb:107-115 | With no options: `transaction_start`/`transaction_end` and the five and three excluded columns |
| SystemVersioning.AllAsOf | lib/mariadb_temporal_tables/concerns/system_versioning.rb:120-124 | The parser's exception, or the as-of text of the table with the coerced time as sole parameter |
| SystemVersioning.AllAsOfBinds | lib/mariadb_temporal_tables/concerns/system_versioning.rb:122-123 | The text holds exactly one placeholder for the one parameter |
| SystemVersioning.OrderAsOf | lib/mariadb_temporal_tables/concerns/system_versioning.rb:131-136 | The as-of text followed by the `ORDER BY` suffix, the time the sole parameter |
| SystemVersioning.OrderAsOfBinds | lib/mariadb_temporal_tables/concerns/system_versioning.rb:134-135 | Placeholders and parameters match when the order and attributes hold no `?` |
| SystemVersioning.WhereAsOf | lib/mariadb_temporal_tables/concerns/system_versioning.rb:142-159 | The as-of text, a space and the equality clause, the time the sole parameter |
| SystemVersioning.WhereAsOfBinds | lib/mariadb_temporal_tables/concerns/system_versioning.rb:157-158 | Placeholders and parameters match when keys and values hold no `?` |
| SystemVersioning.FindAsOf | lib/mariadb_temporal_tables/concerns/system_versioning.rb:165-170 | The time parser's exception first, then the id clause's; otherwise as-of text, id clause and `LIMIT 1` |
| SystemVersioning.FindAsOfBinds | lib/mariadb_temporal_tables/concerns/system_versioning.rb:168-169 | Placeholders and parameters match when keys and id hold no `?` |
| SystemVersioning.VersionsCountForAuthor | lib/mariadb_temporal_tables/concerns/system_versioning.rb:175-177 | The author id is bound as given, never coerced or interpolated |
| SystemVersioning.VersionsCountForAuthorBinds | lib/mariadb_temporal_tables/concerns/system_versioning.rb:176-177 | The count text holds exactly one placeholder for the author id |
| SystemVersioning.Versions | lib/mariadb_temporal_tables/concerns/system_versioning.rb:19-23 | The record's id clause (or its exception), ordered by the system end column in the given order, `ASC` by default; no parameter |
| SystemVersioning.VersionsBinds | lib/mariadb_temporal_tables/concerns/system_versioning.rb:21-22 | The versions text holds no placeholder |
| SystemVersioning.AsOfBaseHasOnePlaceholder | lib/mariadb_temporal_tables/concerns/system_versioning.rb:122 | `FOR SYSTEM_TIME AS OF TIMESTAMP?` contributes exactly one placeholder |
| SystemVersioning.AsOfBaseExample | lib/mariadb_temporal_tables/concerns/system_versioning.rb:122 | For table `dummy` the as-of text is `SELECT * FROM dummy FOR SYSTEM_TIME AS OF TIMESTAMP?` |
| SystemVersioning.AllAsOfExample | spec/system_versioning_spec.rb:145-150 | The library's `all_as_of` example query and parameters |
| SystemVersioning.OrderAsOfExample | spec/system_versioning_spec.rb:155-160 | The library's `order_as_of` example query and parameters |
| SystemVersioning.WhereAsOfExample | spec/system_versioning_spec.rb:165-170 | The library's `where_as_of` example query and parameters |
| SystemVersioning.FindAsOfExample | spec/system_versioning_spec.rb:175-181 | The library's `find_as_of` example for id 5 |
| SystemVersioning.IdClauseExample | lib/mariadb_temporal_tables/concerns/system_versioning.rb:205 | A one-digit integer id renders as its digit inside the quotes |
| SystemVersioning.VersionsCountExample | spec/system_versioning_spec.rb:186-191 | The library's `versions_count_for_author` example |
| SystemVersioning.VersionsExample | spec/system_versioning_spec.rb:6-11 | The library's `versions` example for record id 1 |
| SystemVersioning.CompositeKeyExample | spec/system_versioning_spec.rb:196-206 | Keys `[:id, :second]` and id `["5", "value"]` give `WHERE id='5' AND second='value'` |
| SystemVersioning.CompositeClauseExample | spec/system_versioning_spec.rb:196-206 | The composite clause of that example |
| SystemVersioning.CommaSeparatedKeyExample | spec/system_versioning_spec.rb:208-219 | The id `"5,value"` sends the same query as `["5", "value"]` |
| ChangeList.NilOrEmptyValues | lib/mariadb_temporal_tables/concerns/system_versioning.rb:89-94 | Only nil and `""` count as absent |
| ChangeList.Classify | lib/mariadb_temporal_tables/concerns/system_versioning.rb:74-82 | One change of the column: Added with the new value when only the new value is present, Removed when only the old one is, Updated with both when both are present and differ, nothing otherwise |
| ChangeList.ClassifyReportsRealChanges | lib/mariadb_temporal_tables/concerns/system_versioning.rb:74-82 | A change is reported if and only if presence changed, or both values are present and differ; nil to `""` is not reported |
| ChangeList.ClassifyReversed | lib/mariadb_temporal_tables/concerns/system_versioning.rb:74-82 | Undoing a change swaps Added and Removed, reverses an Update, and skips exactly what the original skipped |
| ChangeList.EntriesSoundAndComplete | lib/mariadb_temporal_tables/concerns/system_versioning.rb:66-83 | Every entry comes from a pending change of a non-excluded column; every reported change of such a column has its entry |
| ChangeList.BuildChangeList | lib/mariadb_temporal_tables/concerns/system_versioning.rb:64-87 | The `each`/`next` loop builds exactly the change list of the entries, one line each, in order |
| ChangeList.EntryTextNonEmpty | lib/mariadb_temporal_tables/concerns/system_versioning.rb:75-79 | Every line starts with `A`, `R` or `U` |
| ChangeList.ChangeListLines | lib/mariadb_temporal_tables/concerns/system_versioning.rb:84 | Splitting the change list at newlines gives one line per entry, in order, when no name or value holds a newline |
| VersionLifecycle.AddAuthor | lib/mariadb_temporal_tables/concerns/system_versioning.rb:46-55 | Only `author_id` may change, and only to the author's id when the column exists and an author is set; the warning text when the column exists and none is set |
| VersionLifecycle.AddChangeList | lib/mariadb_temporal_tables/concerns/system_versioning.rb:57-62 | Only `change_list` may change, to the change list of the pending changes, and only when the column exists |
| VersionLifecycle.BeforeSave | lib/mariadb_temporal_tables/concerns/system_versioning.rb:14 | The two callbacks in order leave every other column as it was |
| VersionLifecycle.AuthorChangeNotListed | lib/mariadb_temporal_tables/concerns/system_versioning.rb:111-113 | A pending change of `author_id`, anywhere in the changes, never alters the change list, whatever the options |
| VersionLifecycle.BookkeepingNeverListed | lib/mariadb_temporal_tables/concerns/system_versioning.rb:111-113 | No change-list entry is about `id`, `author_id` or `change_list` |
| VersionLifecycle.ExclusionComparesValues | lib/mariadb_temporal_tables/concerns/system_versioning.rb:67 | Excluding the symbol `:x` skips changes keyed `:x` but not changes keyed `"x"` |
| VersionLifecycle.ChangeListExample | spec/system_versioning_spec.rb:81-87 | The library's change-list example, three lines in order |
| VersionLifecycle.Except | lib/mariadb_temporal_tables/concerns/system_versioning.rb:40 | `except` keeps exactly the columns whose name is not among the keys, with their values |
| VersionLifecycle.RevertLookup | lib/mariadb_temporal_tables/concerns/system_versioning.rb:29-33 | The time parser's exception first, then the id clause's; otherwise `AS OF ?`, the id clause and `LIMIT 1`, the coerced time the sole parameter |
| VersionLifecycle.RevertLookupVersusFindAsOf | lib/mariadb_temporal_tables/concerns/system_versioning.rb:30-33 | Revert's lookup fails exactly as `find_as_of` would, binds the same time, and differs from its text only by `?` against `TIMESTAMP?` |
| VersionLifecycle.RevertLookupLacksTimestamp | lib/mariadb_temporal_tables/concerns/system_versioning.rb:32 | Revert's lookup text is never `find_as_of`'s text |
| VersionLifecycle.RevertLookupExample | spec/system_versioning_spec.rb:32-39 | For id 2 the lookup sent is `SELECT * FROM dummy FOR SYSTEM_TIME AS OF ? WHERE id = '2' LIMIT 1`, which differs from the `AS OF TIMESTAMP?` text the example expects |
| VersionLifecycle.RevertLookupBinds | lib/mariadb_temporal_tables/concerns/system_versioning.rb:32-33 | The as-written lookup still binds its one parameter to its one placeholder |
| VersionLifecycle.RevertLookupCorrected | lib/mariadb_temporal_tables/concerns/system_versioning.rb:32 | The corrected lookup fails when the as-written one does and is otherwise `find_as_of`'s query |
| VersionLifecycle.RevertDecision | lib/mariadb_temporal_tables/concerns/system_versioning.rb:35-40 | As written: false exactly for a nil answer; `NoMethodError` exactly for an empty one; otherwise the first row, unchanged |
| VersionLifecycle.RevertDropsNoColumn | lib/mariadb_temporal_tables/concerns/system_versioning.rb:40 | As written, the update receives the found row unchanged, excluded columns included |
| VersionLifecycle.RevertEmptyLookupRaises | lib/mariadb_temporal_tables/concerns/system_versioning.rb:35-40 | As written, an empty lookup raises `NoMethodError` on nil; only a nil lookup returns false |
| VersionLifecycle.RevertDecisionCorrected | lib/mariadb_temporal_tables/concerns/system_versioning.rb:35-40 | Corrected: false if and only if no version was found; otherwise the row without the excluded columns |
| VersionLifecycle.RevertCorrectedKeepsBookkeeping | lib/mariadb_temporal_tables/concerns/system_versioning.rb:111-112 | Corrected: the update never writes `id`, `author_id`, `change_list` or the period columns |
| VersionLifecycle.Revert | lib/mariadb_temporal_tables/concerns/system_versioning.rb:29-42 | As written: fails exactly when the lookup fails or the answer is empty (`NoMethodError` on nil); otherwise a nil answer returns false without updating, and the first row is written back whole |
| VersionLifecycle.RevertCorrected | lib/mariadb_temporal_tables/concerns/system_versioning.rb:29-42 | Corrected: fails only as `find_as_of` does; updates if and only if a row was found, with exactly that row less the `exclude_revert` columns; returns what `update` returns |
| ApplicationVersioning.ConfigureApp | lib/mariadb_temporal_tables/concerns/application_versioning.rb:24-26 | Each column name falls back to `valid_start`/`valid_end` |
| ApplicationVersioning.AppPrimaryKey | lib/mariadb_temporal_tables/concerns/application_versioning.rb:28 | The primary key set is the option, or `[:id, end column]` without one |
| ApplicationVersioning.DefaultAppConfig | lib/mariadb_temporal_tables/concerns/application_versioning.rb:24-28 | With no options: `valid_start`, `valid_end` and key `[:id, "valid_end"]`, which follows a renamed end column |
| ApplicationVersioning.AllValidAt | lib/mariadb_temporal_tables/concerns/application_versioning.rb:33-37 | The coercion's exception, or `WHERE ? BETWEEN start AND end` with the coerced time as sole parameter |
| ApplicationVersioning.OrderValidAt | lib/mariadb_temporal_tables/concerns/application_versioning.rb:44-49 | The `all_valid_at` text followed by the `ORDER BY` suffix |
| ApplicationVersioning.WhereValidAt | lib/mariadb_temporal_tables/concerns/application_versioning.rb:55-72 | The equality clause first, then ` AND ? BETWEEN start AND end` |
| ApplicationVersioning.WhereValidAtWithoutPairs | lib/mariadb_temporal_tables/concerns/application_versioning.rb:58-70 | With no pairs the text reads `WHERE  AND ? BETWEEN ...` |
| ApplicationVersioning.QueriesTestThePeriod | lib/mariadb_temporal_tables/concerns/application_versioning.rb:33-72 | Whatever the column names, each query has ` BETWEEN start AND end` right after its placeholder |
| ApplicationVersioning.TextIndependentOfValidAt | lib/mariadb_temporal_tables/concerns/application_versioning.rb:33-72 | Two successful calls with different valid-at times send the same text |
| ApplicationVersioning.ValidAtQueriesBind | lib/mariadb_temporal_tables/concerns/application_versioning.rb:33-72 | Each query binds its one parameter to its one placeholder when names and values hold no `?` |
| ApplicationVersioning.DateCoercionExample | spec/dummy_classes/application_versioning_dummy_model.rb:3-7 | With a `:date` end column, a `Date` passes through |
| ApplicationVersioning.AllValidAtExample | spec/application_versioning_spec.rb:38-43 | The library's `all_valid_at` example |
| ApplicationVersioning.OrderValidAtExample | spec/application_versioning_spec.rb:48-53 | The library's `order_valid_at` example |
| ApplicationVersioning.WhereValidAtExample | spec/application_versioning_spec.rb:58-63 | The library's `where_valid_at` example |
| CombinedVersioning.WithSystemOptions | lib/mariadb_temporal_tables/concerns/system_versioning.rb:107-116 | Setting system options replaces the system configuration and the primary key and leaves the application configuration alone |
| CombinedVersioning.WithAppOptions | lib/mariadb_temporal_tables/concerns/application_versioning.rb:24-29 | Setting application options replaces the application configuration and the primary key and leaves the system configuration alone |
| CombinedVersioning.IncludedDefaults | lib/mariadb_temporal_tables/concerns/combined_versioning.rb:9-11 | A combined model starts with both sets of defaults and the key `[:id, "valid_end"]` |
| CombinedVersioning.LastOptionCallSetsPrimaryKey | lib/mariadb_temporal_tables/concerns/combined_versioning.rb:9-11 | The last option call decides the primary key; system options without a key reset it to `:id` |
| CombinedVersioning.OptionCallsCommuteOnConfigs | lib/mariadb_temporal_tables/concerns/combined_versioning.rb:7-11 | The two option setters give the same configurations in either order |
| CombinedVersioning.AllValidAtAsOf | lib/mariadb_temporal_tables/concerns/combined_versioning.rb:19-24 | The as-of time's exception wins; succeeds when both times coerce; the parameters are `[as-of, valid-at]`, the reverse of the argument order; the text uses the application column names |
| CombinedVersioning.OrderValidAtAsOf | lib/mariadb_temporal_tables/concerns/combined_versioning.rb:31-37 | The same error precedence, success when both times coerce, and `[as-of, valid-at]` parameters; the text is followed by the `ORDER BY` suffix |
| CombinedVersioning.CombinedJoinsBothPeriods | lib/mariadb_temporal_tables/concerns/combined_versioning.rb:19-24 | Succeeds if and only if `all_as_of` and `all_valid_at` both would; its text is `all_as_of`'s plus ` WHERE ? BETWEEN ...`; its parameters are theirs concatenated |
| CombinedVersioning.CombinedTextIndependentOfTimes | lib/mariadb_temporal_tables/concerns/combined_versioning.rb:19-37 | Neither time reaches the text |
| CombinedVersioning.CombinedQueriesBind | lib/mariadb_temporal_tables/concerns/combined_versioning.rb:19-37 | Both queries bind two parameters to two placeholders |
| CombinedVersioning.AllValidAtAsOfExample | spec/combined_versioning_spec.rb:83-91 | The library's `all_valid_at_as_of` example, time before date |
| CombinedVersioning.OrderValidAtAsOfExample | spec/combined_versioning_spec.rb:94-102 | The library's `order_valid_at_as_of` example |

## Left out

- Running queries: `find_by_sql`, `update` and the database are not modelled.
  Each query is the value sent; `revert` takes the lookup's answer and
  `update`'s result as inputs.
- SystemVersioning.FindAsOf: models the query sent, not the `[0]` taken from
  its answer.
- SystemVersioning.VersionsCountForAuthor: models the query sent, not the
  `[0].count` read from its answer.
- Time and date parsing (`Time.parse`, `Time.zone.parse`, `Date.parse`): these
  are library code, so they are uninterpreted parameters. The `to_s` of a
  time-like value is an abstract text.
- The current author: `system_versioning_set_author` keeps it in a
  thread-local slot (`lib/mariadb_temporal_tables.rb`). Here it is an optional
  parameter of `add_author`.
- `Warning.warn`: its message is returned in the callback's list of
  warnings.
- ActiveRecord's dirty tracking: stamping `author_id` does not append to
  `changes`. This is harmless, because `author_id` is never listed
  (`VersionLifecycle.AuthorChangeNotListed`).
- `table_name`, `column_names`, `columns_hash` and `try(:primary_keys)` are
  inputs (`Schema.ModelSchema`). Assigning `self.primary_key` is recorded as a
  value (`CombinedVersioning.ModelState`); how ActiveRecord then derives
  `primary_keys` from it is not modelled.
- ChangeList.Classify: two time values are compared by class and `to_s` text
  rather than by instant. An update within the same second, such as
  `Time.at(0, 100_000)` to `Time.at(0, 200_000)`, is listed by Ruby but not
  by the model. Times carry no instant here because their arithmetic and
  parsing are not modelled.
- RubyValues.Render: a time or date inside an array is rendered by its
  `to_s` text. Ruby's `inspect` differs: `#<Date: ...>` for a date, with
  fractional seconds for a time.
- Floats, hashes and arbitrary objects are left out of the value model.
  Inside arrays, `inspect` is modelled with no escaping at all: a string
  renders as `"` + text + `"` and a symbol as `:` + name. Ruby escapes
  quotes, backslashes, newlines and control characters, and quotes symbols
  that are not plain identifiers (`:"a b"`).
- An explicit `nil` order argument: Ruby renders it as an empty string. The
  model's `None` stands for the omitted argument, which defaults to `ASC`.
- `lib/tasks/helpers/parser.rb`, `lib/tasks/helpers/migration_generator.rb`,
  `lib/railtie.rb`: command-line, generator and rake plumbing. They are not
  part of this model.
- TimeCoercion.ParseTimeIdempotent and TimeCoercion.ParseDateOrTimeIdempotent:
  both assume the parser returns values of the accepted class, because the
  parsers' behaviour is not modelled.

## Findings

| source | as written | input that shows it | evidently intended | confidence | as-written member | corrected member |
|---|---|---|---|---|---|---|
| lib/mariadb_temporal_tables/concerns/system_versioning.rb:32 | `revert` looks up `FOR SYSTEM_TIME AS OF ?`, without `TIMESTAMP` | `revert(2, Time.now)`: the library's own example (spec/system_versioning_spec.rb:39) expects `... AS OF TIMESTAMP? WHERE id = '2' LIMIT 1` | the same lookup as `find_as_of` | not executed; high | VersionLifecycle.RevertLookupLacksTimestamp | VersionLifecycle.RevertLookupCorrected |
| lib/mariadb_temporal_tables/concerns/system_versioning.rb:40 | `attributes.except(exclude_revert)` passes the list as one key, so nothing is excluded | a found row with `"id"`, `"author_id"` and `"transaction_end"` is written back whole | `except(*exclude_revert)`: id, bookkeeping and period columns are not written | not executed; high | VersionLifecycle.RevertDropsNoColumn | VersionLifecycle.RevertCorrectedKeepsBookkeeping |
| lib/mariadb_temporal_tables/concerns/system_versioning.rb:35-39 | `unless query_result` tests for nil, but `find_by_sql` answers with an array, so an empty answer reaches `nil.attributes` | a lookup that finds no version: answer `[]` | return false when no version is found | not executed; medium | VersionLifecycle.RevertEmptyLookupRaises | VersionLifecycle.RevertDecisionCorrected |
