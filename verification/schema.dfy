/**
 What the host ORM reports about a model class: its table, its column names
 (`column_names`), the declared type of each column (`columns_hash[c].type`)
 and its composite primary keys (`try(:primary_keys)`, nil without them).
 */
module Schema {
  import opened RubyValues

  /** The declared type of a column: `:datetime`, `:timestamp`, or any other (`:date`, ...). */
  datatype ColumnType = DatetimeColumn | TimestampColumn | OtherColumn(name: string)

  datatype ModelSchema = ModelSchema(
    table: string,
    columnNames: seq<string>,
    columnTypes: map<string, ColumnType>,
    primaryKeys: Option<seq<Value>>)
}
