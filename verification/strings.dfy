/**
 Text helpers with Ruby's semantics: `Array#join` on strings, `String#split`
 with a one-character separator (trailing empty fields dropped), and the
 count of `?` bind placeholders in a piece of SQL text.
 */
module Strings {

  /** The character ActiveRecord's `find_by_sql` replaces by a bound parameter. */
  const PlaceholderChar: char := '?'

  /** `parts.join(sep)`: the parts separated by `sep`, "" when there are none. */
  function Join(parts: seq<string>, sep: string): string
  {
    if |parts| == 0 then ""
    else if |parts| == 1 then parts[0]
    else parts[0] + sep + Join(parts[1..], sep)
  }

  /** Appending one part extends the joined text by the separator and that part. */
  lemma {:induction false} JoinSnoc(parts: seq<string>, x: string, sep: string)
    ensures Join(parts + [x], sep) == if |parts| == 0 then x else Join(parts, sep) + sep + x
  {
    if |parts| == 0 {
      assert parts + [x] == [x];
    } else if |parts| == 1 {
      assert (parts + [x])[1..] == [x];
    } else {
      assert (parts + [x])[1..] == parts[1..] + [x];
      JoinSnoc(parts[1..], x, sep);
    }
  }

  /**
   The step of a loop that builds `head` followed by the joined parts: part
   `i` is appended after the separator, except for the first part.
   */
  lemma JoinPrefixStep(head: string, parts: seq<string>, i: nat, sep: string)
    requires i < |parts|
    ensures head + Join(parts[..i + 1], sep)
      == if i == 0 then head + parts[i] else head + Join(parts[..i], sep) + sep + parts[i]
  {
    assert parts[..i + 1] == parts[..i] + [parts[i]];
    JoinSnoc(parts[..i], parts[i], sep);
    if i == 0 {
      assert head + Join(parts[..i + 1], sep) == head + parts[i];
    } else {
      assert head + (Join(parts[..i], sep) + sep + parts[i]) == head + Join(parts[..i], sep) + sep + parts[i];
    }
  }

  /** A character that is in neither the parts nor the separator is not in the joined text. */
  lemma {:induction false} JoinAvoids(parts: seq<string>, sep: string, c: char)
    requires c !in sep
    requires forall i :: 0 <= i < |parts| ==> c !in parts[i]
    ensures c !in Join(parts, sep)
  {
    if |parts| > 1 {
      JoinAvoids(parts[1..], sep, c);
    }
  }

  /** Number of `?` characters in `s`. */
  function Placeholders(s: string): nat
  {
    if |s| == 0 then 0
    else (if s[0] == PlaceholderChar then 1 else 0) + Placeholders(s[1..])
  }

  lemma {:induction false} PlaceholdersConcat(a: string, b: string)
    ensures Placeholders(a + b) == Placeholders(a) + Placeholders(b)
  {
    if |a| == 0 {
      assert a + b == b;
    } else {
      assert (a + b)[1..] == a[1..] + b;
      PlaceholdersConcat(a[1..], b);
    }
  }

  lemma {:induction false} PlaceholdersAbsent(s: string)
    ensures Placeholders(s) == 0 <==> PlaceholderChar !in s
  {
    if |s| > 0 {
      assert s == [s[0]] + s[1..];
      PlaceholdersAbsent(s[1..]);
    }
  }

  /** Every field of `s` between occurrences of `sep`, empty ones included. */
  function Fields(s: string, sep: char): (r: seq<string>)
    ensures |r| >= 1
    ensures forall i :: 0 <= i < |r| ==> sep !in r[i]
  {
    if |s| == 0 then [""]
    else
      var rest := Fields(s[1..], sep);
      if s[0] == sep then [""] + rest
      else [[s[0]] + rest[0]] + rest[1..]
  }

  /** Ruby drops the empty fields at the end of a split. */
  function DropTrailingEmpty(fs: seq<string>): (r: seq<string>)
    ensures |r| <= |fs| && r == fs[..|r|]
    ensures |r| == 0 || r[|r| - 1] != ""
    ensures forall i :: |r| <= i < |fs| ==> fs[i] == ""
  {
    if |fs| > 0 && fs[|fs| - 1] == "" then DropTrailingEmpty(fs[..|fs| - 1]) else fs
  }

  /** `s.split(sep)` for a one-character separator. */
  function Split(s: string, sep: char): seq<string>
  {
    DropTrailingEmpty(Fields(s, sep))
  }

  /** Joining the fields back with the separator restores the text. */
  lemma {:induction false} JoinFields(s: string, sep: char)
    ensures Join(Fields(s, sep), [sep]) == s
  {
    if |s| > 0 {
      var rest := Fields(s[1..], sep);
      JoinFields(s[1..], sep);
      if s[0] == sep {
        assert ([""] + rest)[1..] == rest;
        assert s == [sep] + s[1..];
      } else {
        var f := [[s[0]] + rest[0]] + rest[1..];
        if |rest| == 1 {
          assert Join(f, [sep]) == [s[0]] + rest[0];
          assert s == [s[0]] + s[1..];
        } else {
          assert f[1..] == rest[1..];
          assert Join(rest, [sep]) == rest[0] + [sep] + Join(rest[1..], [sep]);
          assert s == [s[0]] + s[1..];
        }
      }
    }
  }

  /** A text free of the separator is one field. */
  lemma {:induction false} FieldsOfPlain(a: string, sep: char)
    requires sep !in a
    ensures Fields(a, sep) == [a]
  {
    if |a| > 0 {
      FieldsOfPlain(a[1..], sep);
      assert [a[0]] + a[1..] == a;
    }
  }

  /** A separator-free prefix followed by the separator is split off as the first field. */
  lemma {:induction false} FieldsOfPrefix(a: string, sep: char, b: string)
    requires sep !in a
    ensures Fields(a + [sep] + b, sep) == [a] + Fields(b, sep)
  {
    if |a| == 0 {
      assert a + [sep] + b == [sep] + b;
      assert ([sep] + b)[1..] == b;
    } else {
      assert (a + [sep] + b)[1..] == a[1..] + [sep] + b;
      FieldsOfPrefix(a[1..], sep, b);
      assert [a[0]] + a[1..] == a;
    }
  }

  /** Splitting what was joined gives the parts back, when no part holds the separator. */
  lemma {:induction false} FieldsOfJoin(parts: seq<string>, sep: char)
    requires |parts| >= 1
    requires forall i :: 0 <= i < |parts| ==> sep !in parts[i]
    ensures Fields(Join(parts, [sep]), sep) == parts
  {
    if |parts| == 1 {
      FieldsOfPlain(parts[0], sep);
    } else {
      FieldsOfJoin(parts[1..], sep);
      FieldsOfPrefix(parts[0], sep, Join(parts[1..], [sep]));
      assert [parts[0]] + parts[1..] == parts;
    }
  }

  /**
   Splitting lines that each end with the separator gives the lines back,
   when none holds the separator and the last is not empty.
   */
  lemma {:induction false} SplitOfTerminated(lines: seq<string>, sep: char)
    requires |lines| > 0 && lines[|lines| - 1] != ""
    requires forall i :: 0 <= i < |lines| ==> sep !in lines[i]
    ensures Split(Join(lines, [sep]) + [sep], sep) == lines
  {
    var parts := lines + [""];
    JoinSnoc(lines, "", [sep]);
    assert Join(lines, [sep]) + [sep] + "" == Join(lines, [sep]) + [sep];
    FieldsOfJoin(parts, sep);
    assert parts[..|parts| - 1] == lines;
  }
}
