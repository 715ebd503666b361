/**
 The change list written into a record's `change_list` column before it is
 saved: one line per changed attribute that is not excluded, saying whether
 the value was added, removed or updated. A value counts as absent when it is
 nil or the empty string.
 */
module ChangeList {
  import opened Strings
  import opened RubyValues

  /** One entry of ActiveRecord's `changes`: the attribute name and its value before and after. */
  datatype Change = Change(column: Value, before: Value, after: Value)

  /** What a change is reported as. */
  datatype Entry =
    | Added(column: Value, after: Value)
    | Removed(column: Value)
    | Updated(column: Value, before: Value, after: Value)

  /** `is_nil_or_empty`: only nil and the empty string; `0`, `false`, `[]` and symbols are present. */
  predicate IsNilOrEmpty(v: Value)
  {
    if v.Str? then |v.s| == 0 else v.Nil?
  }

  lemma NilOrEmptyValues(v: Value)
    ensures IsNilOrEmpty(v) <==> v == Nil || v == Str("")
  {
  }

  /** The `if`/`elsif` chain of `get_change_list` for one change; None for `next`. */
  function Classify(c: Change): (r: Option<Entry>)
    ensures r.Some? ==> r.value.column == c.column
    ensures (r.Some? && r.value.Added?) <==> IsNilOrEmpty(c.before) && !IsNilOrEmpty(c.after)
    ensures (r.Some? && r.value.Removed?) <==> !IsNilOrEmpty(c.before) && IsNilOrEmpty(c.after)
    ensures (r.Some? && r.value.Updated?) <==> !IsNilOrEmpty(c.before) && !IsNilOrEmpty(c.after) && c.before != c.after
    ensures r.Some? && r.value.Added? ==> r.value.after == c.after
    ensures r.Some? && r.value.Updated? ==> r.value.before == c.before && r.value.after == c.after
  {
    if IsNilOrEmpty(c.before) && !IsNilOrEmpty(c.after) then Some(Added(c.column, c.after))
    else if !IsNilOrEmpty(c.before) && IsNilOrEmpty(c.after) then Some(Removed(c.column))
    else if !IsNilOrEmpty(c.before) && !IsNilOrEmpty(c.after) && c.before != c.after then
      Some(Updated(c.column, c.before, c.after))
    else None
  }

  /**
   A change is reported exactly when its value really changed: the presence
   of a value changed, or both are present and differ. Two absent values
   (nil and "") are the same to the change list.
   */
  lemma ClassifyReportsRealChanges(c: Change)
    ensures Classify(c).Some? <==>
      (IsNilOrEmpty(c.before) != IsNilOrEmpty(c.after)) || (!IsNilOrEmpty(c.before) && c.before != c.after)
    ensures Classify(c).Some? ==> Classify(c).value.column == c.column
    ensures Classify(Change(c.column, Nil, Str(""))) == None
  {
  }

  /** Undoing a change reports the opposite: an addition undone is a removal, an update undone is the reverse update. */
  lemma ClassifyReversed(c: Change)
    ensures var r, rev := Classify(c), Classify(Change(c.column, c.after, c.before));
      && (r.Some? && r.value.Added? <==> rev.Some? && rev.value.Removed?)
      && (r.Some? && r.value.Updated? <==> rev.Some? && rev.value.Updated?)
      && (r.Some? && r.value.Updated? ==> rev.value == Updated(c.column, c.after, c.before))
      && (r.None? <==> rev.None?)
  {
  }

  /** The entry one change contributes: none when its column is excluded or `Classify` skips it. */
  function Reported(c: Change, excluded: seq<Value>): (r: seq<Entry>)
    ensures |r| <= 1
  {
    if c.column !in excluded && Classify(c).Some? then [Classify(c).value] else []
  }

  /** The entries of the change list, in the order of `changes`, excluded columns skipped. */
  function Entries(changes: seq<Change>, excluded: seq<Value>): seq<Entry>
  {
    if |changes| == 0 then [] else Reported(changes[0], excluded) + Entries(changes[1..], excluded)
  }

  /** The entries of a concatenation are the entries of its parts, in order. */
  lemma {:induction false} EntriesAppend(a: seq<Change>, b: seq<Change>, excluded: seq<Value>)
    ensures Entries(a + b, excluded) == Entries(a, excluded) + Entries(b, excluded)
  {
    if |a| == 0 {
      assert a + b == b;
    } else {
      assert (a + b)[0] == a[0];
      assert (a + b)[1..] == a[1..] + b;
      EntriesAppend(a[1..], b, excluded);
    }
  }

  /**
   Every entry comes from a change of a column that is not excluded, and
   every change of such a column that `Classify` reports has its entry.
   */
  lemma {:induction false} EntriesSoundAndComplete(changes: seq<Change>, excluded: seq<Value>)
    ensures forall e :: e in Entries(changes, excluded) ==>
      e.column !in excluded && exists c :: c in changes && Classify(c) == Some(e)
    ensures forall c :: c in changes && c.column !in excluded && Classify(c).Some? ==>
      Classify(c).value in Entries(changes, excluded)
  {
    if |changes| > 0 {
      EntriesSoundAndComplete(changes[1..], excluded);
      assert changes == [changes[0]] + changes[1..];
      forall e | e in Entries(changes, excluded)
        ensures e.column !in excluded && exists c :: c in changes && Classify(c) == Some(e)
      {
        var c := changes[0];
        if c.column !in excluded && Classify(c).Some? && e == Classify(c).value {
          ClassifyReportsRealChanges(c);
        } else {
          assert e in Entries(changes[1..], excluded);
          var c' :| c' in changes[1..] && Classify(c') == Some(e);
          assert c' in changes;
        }
      }
    }
  }

  /** The line of one entry, before its `"\n"`. */
  function EntryText(e: Entry): string
  {
    match e
    case Added(col, after) => "Added " + ToS(col) + ": " + ToS(after)
    case Removed(col) => "Removed " + ToS(col)
    case Updated(col, before, after) => "Updated " + ToS(col) + ": " + ToS(before) + " -> " + ToS(after)
  }

  function EntryTexts(entries: seq<Entry>): (r: seq<string>)
    ensures |r| == |entries|
  {
    seq(|entries|, i requires 0 <= i < |entries| => EntryText(entries[i]))
  }

  /** Each line followed by `"\n"`. */
  function RenderLines(lines: seq<string>): string
  {
    if |lines| == 0 then "" else RenderLines(lines[..|lines| - 1]) + lines[|lines| - 1] + "\n"
  }

  lemma {:induction false} RenderLinesAppend(a: seq<string>, b: seq<string>)
    ensures RenderLines(a + b) == RenderLines(a) + RenderLines(b)
    decreases |b|
  {
    if |b| == 0 {
      assert a + b == a;
    } else {
      var init := b[..|b| - 1];
      assert (a + b)[..|a + b| - 1] == a + init;
      RenderLinesAppend(a, init);
    }
  }

  /** The text of the change list: each entry's line followed by `"\n"`. */
  function RenderEntries(entries: seq<Entry>): string
  {
    RenderLines(EntryTexts(entries))
  }

  /** `get_change_list`. */
  function GetChangeList(changes: seq<Change>, excluded: seq<Value>): string
  {
    RenderEntries(Entries(changes, excluded))
  }

  lemma EntriesCons(c: Change, rest: seq<Change>, excluded: seq<Value>)
    ensures Entries([c] + rest, excluded) == Reported(c, excluded) + Entries(rest, excluded)
  {
    assert ([c] + rest)[1..] == rest;
  }

  lemma EntriesSnoc(prefix: seq<Change>, c: Change, excluded: seq<Value>)
    ensures Entries(prefix + [c], excluded) == Entries(prefix, excluded) + Reported(c, excluded)
  {
    EntriesAppend(prefix, [c], excluded);
    assert [c][1..] == [];
    assert Entries([c], excluded) == Reported(c, excluded) + [];
  }

  lemma EntryTextsSnoc(entries: seq<Entry>, e: Entry)
    ensures EntryTexts(entries + [e]) == EntryTexts(entries) + [EntryText(e)]
  {
  }

  lemma RenderLinesSnoc(lines: seq<string>, line: string)
    ensures RenderLines(lines + [line]) == RenderLines(lines) + line + "\n"
  {
    assert (lines + [line])[..|lines|] == lines;
  }

  /** One more change adds its line, if it is reported, at the end of the list. */
  lemma ChangeListSnoc(prefix: seq<Change>, c: Change, excluded: seq<Value>)
    ensures GetChangeList(prefix + [c], excluded)
      == if c.column !in excluded && Classify(c).Some? then GetChangeList(prefix, excluded) + EntryText(Classify(c).value) + "\n"
         else GetChangeList(prefix, excluded)
  {
    var done := Entries(prefix, excluded);
    EntriesSnoc(prefix, c, excluded);
    if c.column !in excluded && Classify(c).Some? {
      var e := Classify(c).value;
      assert Entries(prefix + [c], excluded) == done + [e];
      EntryTextsSnoc(done, e);
      RenderLinesSnoc(EntryTexts(done), EntryText(e));
    } else {
      assert Entries(prefix + [c], excluded) == done + [];
      assert done + [] == done;
    }
  }

  /**
   The loop of `get_change_list`: start from "", skip excluded columns and
   unreported changes, append each reported change's line and `"\n"`.
   */
  method BuildChangeList(changes: seq<Change>, excluded: seq<Value>) returns (changeList: string)
    ensures changeList == GetChangeList(changes, excluded)
  {
    changeList := "";
    var i := 0;
    while i < |changes|
      invariant 0 <= i <= |changes|
      invariant changeList == GetChangeList(changes[..i], excluded)
    {
      var c := changes[i];
      ChangeListSnoc(changes[..i], c, excluded);
      assert changes[..i + 1] == changes[..i] + [c];
      if c.column !in excluded {
        var entry := Classify(c);
        if entry.Some? {
          changeList := changeList + EntryText(entry.value) + "\n";
        }
      }
      i := i + 1;
    }
    assert changes[..i] == changes;
  }

  /** Every line starts with a word, so no line is empty. */
  lemma EntryTextNonEmpty(e: Entry)
    ensures |EntryText(e)| > 0 && EntryText(e)[0] in "ARU"
  {
  }

  /** Values whose text holds no line break. */
  predicate SingleLine(v: Value)
  {
    '\n' !in ToS(v)
  }

  predicate EntryOnOneLine(e: Entry)
  {
    match e
    case Added(col, after) => SingleLine(col) && SingleLine(after)
    case Removed(col) => SingleLine(col)
    case Updated(col, before, after) => SingleLine(col) && SingleLine(before) && SingleLine(after)
  }

  lemma EntryTextOneLine(e: Entry)
    requires EntryOnOneLine(e)
    ensures '\n' !in EntryText(e)
  {
    match e
    case Added(col, after) =>
      assert '\n' !in "Added " && '\n' !in ": ";
    case Removed(col) =>
      assert '\n' !in "Removed ";
    case Updated(col, before, after) =>
      assert '\n' !in "Updated " && '\n' !in ": " && '\n' !in " -> ";
  }

  /** Lines each followed by a newline are the lines joined by newlines, with a newline at the end. */
  lemma {:induction false} RenderLinesAsJoin(lines: seq<string>)
    requires |lines| > 0
    ensures RenderLines(lines) == Join(lines, "\n") + "\n"
    decreases |lines|
  {
    var init := lines[..|lines| - 1];
    var last := lines[|lines| - 1];
    assert lines == init + [last];
    JoinSnoc(init, last, "\n");
    if |init| > 0 {
      RenderLinesAsJoin(init);
    }
  }

  /**
   Splitting the change list at newlines gives back one line per entry, in
   order, when no column or value text holds a line break.
   */
  lemma ChangeListLines(entries: seq<Entry>)
    requires forall i :: 0 <= i < |entries| ==> EntryOnOneLine(entries[i])
    ensures Split(RenderEntries(entries), '\n') == EntryTexts(entries)
  {
    var texts := EntryTexts(entries);
    if |entries| == 0 {
      assert Fields("", '\n') == [""];
    } else {
      RenderLinesAsJoin(texts);
      forall i | 0 <= i < |texts|
        ensures '\n' !in texts[i]
      {
        EntryTextOneLine(entries[i]);
      }
      EntryTextNonEmpty(entries[|entries| - 1]);
      SplitOfTerminated(texts, '\n');
    }
  }
}
