/**
 The SQL pieces the query builders share: the query value handed to
 `find_by_sql` (text plus bound parameters), the `ORDER BY` suffix, the
 `col = 'v'` equality clause, and the WHERE clause for a record's id with a
 single or composite primary key. Values are interpolated into the text
 without escaping, as the library does.
 */
module SqlFragments {
  import opened Strings
  import opened RubyValues

  /** The array given to `find_by_sql`: SQL text followed by its bound parameters. */
  datatype Query = Query(sql: string, params: seq<Value>)

  /**
   The result of a query bound to one coerced value (an as-of or valid-at
   time): the coercion's exception if it raised, otherwise `sql` with the
   coerced value as its only parameter.
   */
  predicate BoundToParsed(r: Result<Query>, parsed: Result<Value>, sql: string)
  {
    match parsed
    case Err(e) => r == Err(e)
    case Ok(t) => r == Ok(Query(sql, [t]))
  }

  const Placeholder: string := [PlaceholderChar]

  /** Every bound parameter has exactly one `?` to fill, and no `?` is left over. */
  predicate Binds(q: Query)
  {
    Placeholders(q.sql) == |q.params|
  }

  /** Text that cannot be mistaken for a placeholder. */
  predicate Plain(s: string)
  {
    PlaceholderChar !in s
  }

  predicate PlainValue(v: Value)
  {
    Plain(ToS(v))
  }

  /** The order direction when the caller leaves it out. */
  const DefaultOrder: string := "ASC"

  function OrderText(order: Option<string>): string
  {
    order.GetOr(DefaultOrder)
  }

  /** `" ORDER BY #{order_attributes.join(", ")} #{order}"`. */
  function OrderByClause(order: Option<string>, attrs: seq<Value>): string
  {
    " ORDER BY " + JoinValues(attrs, ", ") + " " + OrderText(order)
  }

  /** One `where_attributes` entry rendered as `key = 'value'`. */
  function PairText(pair: (Value, Value)): string
  {
    ToS(pair.0) + " = '" + ToS(pair.1) + "'"
  }

  function PairTexts(pairs: seq<(Value, Value)>): (r: seq<string>)
    ensures |r| == |pairs|
  {
    seq(|pairs|, i requires 0 <= i < |pairs| => PairText(pairs[i]))
  }

  /** `WHERE k1 = 'v1' AND k2 = 'v2' ...` in the hash's order; a bare `WHERE ` for no pairs. */
  function EqualityClause(pairs: seq<(Value, Value)>): string
  {
    "WHERE " + Join(PairTexts(pairs), " AND ")
  }

  /**
   The loop of `where_as_of` / `where_valid_at`: start from `"WHERE "`, put
   `" AND "` before every pair but the first, then the pair. It builds
   exactly the equality clause.
   */
  method BuildEqualityClause(pairs: seq<(Value, Value)>) returns (clause: string)
    ensures clause == EqualityClause(pairs)
  {
    var texts := PairTexts(pairs);
    clause := "WHERE ";
    var first := true;
    var i := 0;
    while i < |pairs|
      invariant 0 <= i <= |pairs|
      invariant first <==> i == 0
      invariant clause == "WHERE " + Join(texts[..i], " AND ")
    {
      JoinPrefixStep("WHERE ", texts, i, " AND ");
      var text := texts[i];
      if !first {
        clause := clause + " AND ";
      }
      first := false;
      clause := clause + text;
      i := i + 1;
    }
    assert texts[..i] == texts;
  }

  /** An equality clause over plain keys and values has no placeholder. */
  lemma {:induction false} EqualityClausePlain(pairs: seq<(Value, Value)>)
    requires forall i :: 0 <= i < |pairs| ==> PlainValue(pairs[i].0) && PlainValue(pairs[i].1)
    ensures Plain(EqualityClause(pairs))
  {
    JoinAvoids(PairTexts(pairs), " AND ", PlaceholderChar);
  }

  /** Ruby's `id[i]`: nil past the end of the array. */
  function IdPart(ids: seq<Value>, i: nat): Value
  {
    if i < |ids| then ids[i] else Nil
  }

  /** `key='value'`: note that, unlike the equality clause, there are no spaces around `=`. */
  function KeyConjunct(key: Value, part: Value): string
  {
    ToS(key) + "='" + ToS(part) + "'"
  }

  function KeyConjuncts(keys: seq<Value>, ids: seq<Value>): (r: seq<string>)
    ensures |r| == |keys|
  {
    seq(|keys|, i requires 0 <= i < |keys| => KeyConjunct(keys[i], IdPart(ids, i)))
  }

  /** One `key='id part'` per primary key, in key order, joined by `" AND "`. */
  function CompositeKeyClause(keys: seq<Value>, ids: seq<Value>): string
  {
    "WHERE " + Join(KeyConjuncts(keys, ids), " AND ")
  }

  function StrValues(ss: seq<string>): (r: seq<Value>)
    ensures |r| == |ss|
  {
    seq(|ss|, i requires 0 <= i < |ss| => Str(ss[i]))
  }

  /**
   A composite id is an array already, or a string such as `"5,value"` split
   on commas; anything else has no `split` and raises.
   */
  function CompositeIdParts(id: Value): Result<seq<Value>>
  {
    match id
    case Arr(items) => Ok(items)
    case Str(s) => Ok(StrValues(Split(s, ',')))
    case _ => Err(NoMethod(id, "split"))
  }

  /**
   `generate_where_clause_for_id`: without composite primary keys the id is
   compared with the `id` column as a string; with them each key is compared
   with the id part at the same position.
   */
  function WhereClauseForId(primaryKeys: Option<seq<Value>>, id: Value): Result<string>
  {
    match primaryKeys
    case None => Ok("WHERE id = '" + ToS(id) + "'")
    case Some(keys) =>
      var ids :- CompositeIdParts(id);
      Ok(CompositeKeyClause(keys, ids))
  }

  /**
   The loop of `generate_where_clause_for_id` over `0...primary_keys.length`,
   `" AND "` before every index but 0. It builds exactly the declarative
   clause: as many conjuncts as keys, in key order, and a missing id part
   compared with the empty string.
   */
  method GenerateWhereClauseForId(primaryKeys: Option<seq<Value>>, id: Value) returns (r: Result<string>)
    ensures r == WhereClauseForId(primaryKeys, id)
  {
    if primaryKeys.None? {
      return Ok("WHERE id = '" + ToS(id) + "'");
    }
    var keys := primaryKeys.value;
    var ids: seq<Value>;
    if id.Arr? {
      ids := id.items;
    } else if id.Str? {
      ids := StrValues(Split(id.s, ','));
    } else {
      return Err(NoMethod(id, "split"));
    }
    var conjuncts := KeyConjuncts(keys, ids);
    var clause := "WHERE ";
    var i := 0;
    while i < |keys|
      invariant 0 <= i <= |keys|
      invariant clause == "WHERE " + Join(conjuncts[..i], " AND ")
    {
      JoinPrefixStep("WHERE ", conjuncts, i, " AND ");
      if i != 0 {
        clause := clause + " AND ";
      }
      clause := clause + KeyConjunct(keys[i], IdPart(ids, i));
      i := i + 1;
    }
    assert conjuncts[..i] == conjuncts;
    r := Ok(clause);
  }

  /**
   A comma-separated id gives the same clause as the array of its parts, for
   every key list: splitting may drop empty parts at the end, but a missing
   part renders as the empty string just like an empty one.
   */
  lemma {:induction false} CommaSeparatedIdMatchesArray(keys: seq<Value>, parts: seq<string>)
    requires forall i :: 0 <= i < |parts| ==> ',' !in parts[i]
    ensures WhereClauseForId(Some(keys), Str(Join(parts, ","))) == WhereClauseForId(Some(keys), Arr(StrValues(parts)))
  {
    var text := Join(parts, ",");
    var split := Split(text, ',');
    SplitOfJoin(parts);
    SameConjuncts(keys, split, parts);
    assert CompositeKeyClause(keys, StrValues(split)) == CompositeKeyClause(keys, StrValues(parts));
    CompositeClauseOfText(keys, text);
    assert WhereClauseForId(Some(keys), Arr(StrValues(parts))) == Ok(CompositeKeyClause(keys, StrValues(parts)));
  }

  lemma {:induction false} CompositeClauseOfText(keys: seq<Value>, text: string)
    ensures WhereClauseForId(Some(keys), Str(text)) == Ok(CompositeKeyClause(keys, StrValues(Split(text, ','))))
  {
  }

  /** Splitting a comma-joined list gives the list less its trailing empty strings. */
  lemma {:induction false} SplitOfJoin(parts: seq<string>)
    requires forall i :: 0 <= i < |parts| ==> ',' !in parts[i]
    ensures var split := Split(Join(parts, ","), ',');
      && |split| <= |parts| && split == parts[..|split|]
      && forall j :: |split| <= j < |parts| ==> parts[j] == ""
  {
    if |parts| == 0 {
      assert Fields("", ',') == [""];
    } else {
      FieldsOfJoin(parts, ',');
    }
  }

  lemma {:induction false} SameConjuncts(keys: seq<Value>, split: seq<string>, parts: seq<string>)
    requires |split| <= |parts| && split == parts[..|split|]
    requires forall j :: |split| <= j < |parts| ==> parts[j] == ""
    ensures KeyConjuncts(keys, StrValues(split)) == KeyConjuncts(keys, StrValues(parts))
  {
    forall i | 0 <= i < |keys|
      ensures KeyConjuncts(keys, StrValues(split))[i] == KeyConjuncts(keys, StrValues(parts))[i]
    {
      SamePart(split, parts, i);
    }
  }

  /** A prefix that lost only empty strings renders every position the same. */
  lemma {:induction false} SamePart(split: seq<string>, parts: seq<string>, i: nat)
    requires |split| <= |parts| && split == parts[..|split|]
    requires forall j :: |split| <= j < |parts| ==> parts[j] == ""
    ensures ToS(IdPart(StrValues(split), i)) == ToS(IdPart(StrValues(parts), i))
  {
    if i < |split| {
      assert StrValues(split)[i] == Str(split[i]) && StrValues(parts)[i] == Str(parts[i]);
    } else if i < |parts| {
      assert StrValues(parts)[i] == Str("");
    }
  }

  /** Splitting text with no `?` yields parts with no `?`. */
  lemma {:induction false} FieldsAvoid(s: string, sep: char, c: char)
    requires c !in s
    ensures forall i :: 0 <= i < |Fields(s, sep)| ==> c !in Fields(s, sep)[i]
  {
    if |s| > 0 {
      assert forall x :: x in s[1..] ==> x in s;
      FieldsAvoid(s[1..], sep, c);
    }
  }

  /** Keys and id parts that the clause could render, all free of `?`. */
  predicate PlainId(primaryKeys: Option<seq<Value>>, id: Value)
  {
    match primaryKeys
    case None => PlainValue(id)
    case Some(keys) =>
      && (forall i :: 0 <= i < |keys| ==> PlainValue(keys[i]))
      && (id.Arr? ==> forall i :: 0 <= i < |id.items| ==> PlainValue(id.items[i]))
      && (id.Str? ==> Plain(id.s))
  }

  /** The id clause has no placeholder when neither keys nor id parts hold a `?`. */
  lemma {:induction false} WhereClauseForIdPlain(primaryKeys: Option<seq<Value>>, id: Value)
    requires PlainId(primaryKeys, id)
    ensures WhereClauseForId(primaryKeys, id).Ok? ==> Plain(WhereClauseForId(primaryKeys, id).value)
  {
    if primaryKeys.Some? && CompositeIdParts(id).Ok? {
      var keys := primaryKeys.value;
      var ids := CompositeIdParts(id).value;
      if id.Str? {
        FieldsAvoid(id.s, ',', PlaceholderChar);
      }
      assert forall i :: 0 <= i < |ids| ==> PlainValue(ids[i]);
      JoinAvoids(KeyConjuncts(keys, ids), " AND ", PlaceholderChar);
    }
  }

  /** The `ORDER BY` suffix has no placeholder when the direction and attributes hold none. */
  lemma {:induction false} OrderByClausePlain(order: Option<string>, attrs: seq<Value>)
    requires Plain(OrderText(order)) && Plain(JoinValues(attrs, ", "))
    ensures Plain(OrderByClause(order, attrs))
  {
  }

  // The clauses of the library's own examples.

  /** Splatted or not, `[:first, :second]` orders by both attributes. */
  lemma OrderByClauseExample()
    ensures OrderByClause(Some("DESC"), [Arr([Sym("first"), Sym("second")])]) == " ORDER BY first, second DESC"
  {
    JoinValuesFlattens([Sym("first"), Sym("second")], ", ");
    JoinValuesPair(Sym("first"), Sym("second"), ", ");
  }

  /** A symbol key and a string value render as `key = 'value'`. */
  lemma PairTextOfNames(key: string, value: string)
    ensures PairText((Sym(key), Str(value))) == key + " = '" + value + "'"
  {
  }

  lemma EqualityClauseExample()
    ensures EqualityClause([(Sym("attr"), Str("value1")), (Sym("attr2"), Str("value2"))])
      == "WHERE " + "attr = 'value1'" + " AND " + "attr2 = 'value2'"
  {
    var pairs := [(Sym("attr"), Str("value1")), (Sym("attr2"), Str("value2"))];
    assert PairTexts(pairs)[0] == "attr = 'value1'" by {
      PairTextOfNames("attr", "value1");
    }
    assert PairTexts(pairs)[1] == "attr2 = 'value2'" by {
      PairTextOfNames("attr2", "value2");
    }
    assert PairTexts(pairs) == ["attr = 'value1'", "attr2 = 'value2'"];
    assert PairTexts(pairs)[1..] == ["attr2 = 'value2'"];
  }
}
