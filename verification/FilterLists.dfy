/** List-valued query parameters: the mobile client's serializer and the API's parser. */
module FilterLists {
  import opened Text

  /** An untyped query parameter: a string, an array of parameters, or anything else (such as undefined). */
  datatype Value = Str(text: string) | List(items: seq<Value>) | Other

  /** The client joins a non-empty list with commas and leaves an empty or absent one out. */
  function SerializeQueryArray(values: Option<seq<string>>): Value {
    if values.None? || values.value == [] then Other else Str(Join(values.value, ','))
  }

  function TrimAll(isSpace: char -> bool, entries: seq<string>): (r: seq<string>)
    ensures |r| == |entries|
    ensures forall i :: 0 <= i < |r| ==> r[i] == Trim(isSpace, entries[i])
  {
    if entries == [] then [] else [Trim(isSpace, entries[0])] + TrimAll(isSpace, entries[1..])
  }

  function DropEmpty(entries: seq<string>): seq<string> {
    if entries == [] then []
    else (if entries[0] == "" then [] else [entries[0]]) + DropEmpty(entries[1..])
  }

  function Normalized(isSpace: char -> bool, entries: seq<string>): Option<seq<string>> {
    var kept := DropEmpty(TrimAll(isSpace, entries));
    if kept == [] then None else Some(kept)
  }

  function ParseStringArrayFilter(isSpace: char -> bool, value: Value): Option<seq<string>>
    decreases value, 0
  {
    match value
    case List(items) => Normalized(isSpace, FlatParse(isSpace, items))
    case Str(text) => Normalized(isSpace, Split(text, ','))
    case Other => None
  }

  function FlatParse(isSpace: char -> bool, items: seq<Value>): seq<string>
    decreases items, 0
  {
    if items == [] then []
    else
      var parsed := ParseStringArrayFilter(isSpace, items[0]);
      (if parsed.Some? then parsed.value else []) + FlatParse(isSpace, items[1..])
  }

  /** A list the parser may return: not empty, and of trimmed, non-empty, comma-free entries. */
  predicate NormalForm(isSpace: char -> bool, list: seq<string>) {
    list != [] && forall i :: 0 <= i < |list| ==> IsEntry(isSpace, list[i])
  }

  predicate IsEntry(isSpace: char -> bool, entry: string) {
    entry != "" && Trimmed(isSpace, entry) && Free(entry, ',')
  }

  lemma NormalizedShape(isSpace: char -> bool, entries: seq<string>)
    requires AllFree(entries, ',')
    ensures var r := Normalized(isSpace, entries); r.Some? ==> NormalForm(isSpace, r.value)
  {
    DropEmptyShape(isSpace, TrimAll(isSpace, entries));
  }

  lemma {:induction false} DropEmptyShape(isSpace: char -> bool, entries: seq<string>)
    requires forall i :: 0 <= i < |entries| ==> Trimmed(isSpace, entries[i]) && Free(entries[i], ',')
    ensures forall i :: 0 <= i < |DropEmpty(entries)| ==> IsEntry(isSpace, DropEmpty(entries)[i])
  {
    if entries != [] {
      DropEmptyShape(isSpace, entries[1..]);
    }
  }

  lemma NormalizedKeeps(isSpace: char -> bool, list: seq<string>)
    requires NormalForm(isSpace, list)
    ensures Normalized(isSpace, list) == Some(list)
  {
    assert TrimAll(isSpace, list) == list by {
      forall i | 0 <= i < |list|
        ensures Trim(isSpace, list[i]) == list[i]
      {
        assert IsEntry(isSpace, list[i]);
        TrimIsIdentity(isSpace, list[i]);
      }
    }
    DropEmptyKeeps(list);
  }

  lemma DropEmptyKeeps(list: seq<string>)
    requires forall i :: 0 <= i < |list| ==> list[i] != ""
    ensures DropEmpty(list) == list
  {}

  /** Whatever arrives, however deeply nested, the parser answers in normal form. */
  lemma {:induction false} ParserAnswersInNormalForm(isSpace: char -> bool, value: Value)
    ensures var r := ParseStringArrayFilter(isSpace, value); r.Some? ==> NormalForm(isSpace, r.value)
    decreases value, 0
  {
    match value
    case Other =>
    case Str(text) =>
      SplitPartsFree(text, ',');
      NormalizedShape(isSpace, Split(text, ','));
    case List(items) =>
      FlatParseFree(isSpace, items);
      NormalizedShape(isSpace, FlatParse(isSpace, items));
  }

  lemma {:induction false} FlatParseFree(isSpace: char -> bool, items: seq<Value>)
    ensures AllFree(FlatParse(isSpace, items), ',')
    decreases items, 0
  {
    if items != [] {
      ParserAnswersInNormalForm(isSpace, items[0]);
      FlatParseFree(isSpace, items[1..]);
    }
  }

  /** The parser undoes the serializer exactly on the lists in normal form, and on the empty list
      both sides agree that there is no filter. */
  lemma ParserUndoesSerializer(isSpace: char -> bool, list: seq<string>)
    ensures ParseStringArrayFilter(isSpace, SerializeQueryArray(Some(list))) == Some(list)
      <==> NormalForm(isSpace, list)
    ensures ParseStringArrayFilter(isSpace, SerializeQueryArray(Some([]))) == None
  {
    var sent := SerializeQueryArray(Some(list));
    ParserAnswersInNormalForm(isSpace, sent);
    if NormalForm(isSpace, list) {
      assert AllFree(list, ',') by {
        forall i | 0 <= i < |list| ensures Free(list[i], ',') { assert IsEntry(isSpace, list[i]); }
      }
      SplitUndoesJoin(list, ',');
      NormalizedKeeps(isSpace, list);
    }
  }

  function AsStrings(list: seq<string>): (r: seq<Value>) {
    if list == [] then [] else [Str(list[0])] + AsStrings(list[1..])
  }

  lemma {:induction false} FlatParseOfEntries(isSpace: char -> bool, list: seq<string>)
    requires forall i :: 0 <= i < |list| ==> IsEntry(isSpace, list[i])
    ensures FlatParse(isSpace, AsStrings(list)) == list
  {
    if list != [] {
      assert IsEntry(isSpace, list[0]);
      SplitWhole(list[0], ',');
      NormalizedKeeps(isSpace, [list[0]]);
      assert ParseStringArrayFilter(isSpace, AsStrings(list)[0]) == Some([list[0]]);
      FlatParseOfEntries(isSpace, list[1..]);
    }
  }

  /** Parsing an answer again, as an array or in comma-separated form, changes nothing. */
  lemma ParsingAgainChangesNothing(isSpace: char -> bool, value: Value)
    ensures var r := ParseStringArrayFilter(isSpace, value);
      r.Some? ==>
        && ParseStringArrayFilter(isSpace, List(AsStrings(r.value))) == r
        && ParseStringArrayFilter(isSpace, SerializeQueryArray(r)) == r
  {
    var r := ParseStringArrayFilter(isSpace, value);
    if r.Some? {
      ParserAnswersInNormalForm(isSpace, value);
      FlatParseOfEntries(isSpace, r.value);
      NormalizedKeeps(isSpace, r.value);
      ParserUndoesSerializer(isSpace, r.value);
    }
  }

  // ----- an independent reading: only the strings and their order matter, not the nesting -----

  function Leaves(value: Value): seq<string>
    decreases value, 0
  {
    match value
    case Other => []
    case Str(text) => [text]
    case List(items) => AllLeaves(items)
  }

  function AllLeaves(items: seq<Value>): seq<string>
    decreases items, 0
  {
    if items == [] then [] else Leaves(items[0]) + AllLeaves(items[1..])
  }

  function Pieces(texts: seq<string>): seq<string> {
    if texts == [] then [] else Split(texts[0], ',') + Pieces(texts[1..])
  }

  function Cleaned(isSpace: char -> bool, entries: seq<string>): seq<string> {
    DropEmpty(TrimAll(isSpace, entries))
  }

  function NotEmpty(): string -> bool {
    (text: string) => text != ""
  }

  /** Cleaning trims every entry and leaves the empty ones out. */
  lemma {:induction false} CleanedMeaning(isSpace: char -> bool, entries: seq<string>)
    ensures Cleaned(isSpace, entries) == Filter(TrimAll(isSpace, entries), NotEmpty())
  {
    if entries != [] {
      CleanedMeaning(isSpace, entries[1..]);
    }
  }

  lemma {:induction false} CleanedConcat(isSpace: char -> bool, a: seq<string>, b: seq<string>)
    ensures Cleaned(isSpace, a + b) == Cleaned(isSpace, a) + Cleaned(isSpace, b)
  {
    if a == [] {
      assert a + b == b;
    } else {
      assert (a + b)[1..] == a[1..] + b;
      CleanedConcat(isSpace, a[1..], b);
    }
  }

  lemma PiecesConcat(a: seq<string>, b: seq<string>)
    ensures Pieces(a + b) == Pieces(a) + Pieces(b)
  {
    if a == [] {
      assert a + b == b;
    } else {
      assert (a + b)[1..] == a[1..] + b;
      PiecesConcat(a[1..], b);
    }
  }

  lemma {:induction false} FlatParseIsCleaned(isSpace: char -> bool, items: seq<Value>)
    ensures FlatParse(isSpace, items) == Cleaned(isSpace, Pieces(AllLeaves(items)))
    decreases items, 0
  {
    if items != [] {
      NestingIsIrrelevant(isSpace, items[0]);
      FlatParseIsCleaned(isSpace, items[1..]);
      PiecesConcat(Leaves(items[0]), AllLeaves(items[1..]));
      CleanedConcat(isSpace, Pieces(Leaves(items[0])), Pieces(AllLeaves(items[1..])));
    }
  }

  /** The answer is the trimmed, non-empty comma-separated pieces of all the strings, in order;
      it is absent exactly when there is no such piece. */
  lemma {:induction false} NestingIsIrrelevant(isSpace: char -> bool, value: Value)
    ensures ParseStringArrayFilter(isSpace, value)
         == var kept := Cleaned(isSpace, Pieces(Leaves(value))); if kept == [] then None else Some(kept)
    decreases value, 0
  {
    match value
    case Other =>
    case Str(text) =>
      assert Pieces([text]) == Split(text, ',');
    case List(items) =>
      FlatParseIsCleaned(isSpace, items);
      FlatParseFree(isSpace, items);
      var kept := FlatParse(isSpace, items);
      if kept != [] {
        CleanedEntries(isSpace, Pieces(AllLeaves(items)));
        assert NormalForm(isSpace, kept) by {
          forall i | 0 <= i < |kept| ensures IsEntry(isSpace, kept[i]) {}
        }
        NormalizedKeeps(isSpace, kept);
      }
  }

  lemma {:induction false} CleanedEntries(isSpace: char -> bool, entries: seq<string>)
    ensures var kept := Cleaned(isSpace, entries);
      forall i :: 0 <= i < |kept| ==> kept[i] != "" && Trimmed(isSpace, kept[i])
  {
    if entries != [] {
      CleanedEntries(isSpace, entries[1..]);
      var first, kept := Trim(isSpace, entries[0]), Cleaned(isSpace, entries[1..]);
      assert Cleaned(isSpace, entries) == (if first == "" then [] else [first]) + kept;
    }
  }
}
