/** The string operations of JavaScript that the model needs: join, split, trim, sort and number printing. */
module Text {

  datatype Option<+T> = None | Some(value: T)

  function OrDefault(value: Option<int>, fallback: int): (r: int)
    ensures value == None ==> r == fallback
    ensures value.Some? ==> r == value.value
  {
    if value.None? then fallback else value.value
  }

  // ----- join and split on a one-character separator -----

  function Join(parts: seq<string>, separator: char): string {
    if parts == [] then ""
    else if |parts| == 1 then parts[0]
    else parts[0] + [separator] + Join(parts[1..], separator)
  }

  /** The index of the first c in text, or the length when there is none. */
  function IndexOf(text: string, c: char): (i: nat)
    ensures i <= |text|
    ensures i < |text| ==> text[i] == c
    ensures forall j :: 0 <= j < i ==> text[j] != c
  {
    if text == "" || text[0] == c then 0 else 1 + IndexOf(text[1..], c)
  }

  /** The pieces between the separators, character by character. */
  function Split(text: string, separator: char): (parts: seq<string>)
    ensures parts != []
  {
    if text == "" then [""]
    else
      var rest := Split(text[1..], separator);
      if text[0] == separator then [""] + rest else [[text[0]] + rest[0]] + rest[1..]
  }

  predicate Free(text: string, c: char) {
    forall i :: 0 <= i < |text| ==> text[i] != c
  }

  predicate AllFree(parts: seq<string>, c: char) {
    forall i :: 0 <= i < |parts| ==> Free(parts[i], c)
  }

  lemma IndexOfFirst(head: string, c: char, tail: string)
    requires Free(head, c)
    ensures IndexOf(head + [c] + tail, c) == |head|
    ensures IndexOf(head, c) == |head|
  {
    var text := head + [c] + tail;
    assert forall j :: 0 <= j < |head| ==> text[j] == head[j];
    assert text[|head|] == c;
  }

  /** A separator cuts: what stands on either side is split on its own. */
  lemma {:induction false} SplitConcat(a: string, b: string, separator: char)
    ensures Split(a + [separator] + b, separator) == Split(a, separator) + Split(b, separator)
  {
    var text := a + [separator] + b;
    if a == "" {
      assert text[1..] == b;
    } else {
      assert text[1..] == a[1..] + [separator] + b;
      SplitConcat(a[1..], b, separator);
    }
  }

  lemma {:induction false} SplitWhole(text: string, separator: char)
    requires Free(text, separator)
    ensures Split(text, separator) == [text]
  {
    if text != "" {
      SplitWhole(text[1..], separator);
      assert [text[0]] + text[1..] == text;
    }
  }

  lemma {:induction false} SplitUndoesJoin(parts: seq<string>, separator: char)
    requires parts != [] && AllFree(parts, separator)
    ensures Split(Join(parts, separator), separator) == parts
  {
    SplitWhole(parts[0], separator);
    if |parts| > 1 {
      SplitUndoesJoin(parts[1..], separator);
      SplitConcat(parts[0], Join(parts[1..], separator), separator);
    }
  }

  lemma {:induction false} SplitPartsFree(text: string, separator: char)
    ensures AllFree(Split(text, separator), separator)
  {
    if text != "" {
      SplitPartsFree(text[1..], separator);
    }
  }

  lemma {:induction false} JoinUndoesSplit(text: string, separator: char)
    ensures Join(Split(text, separator), separator) == text
  {
    if text != "" {
      JoinUndoesSplit(text[1..], separator);
      var rest := Split(text[1..], separator);
      if text[0] == separator {
        assert Join([""] + rest, separator) == "" + [separator] + Join(rest, separator);
      } else {
        JoinGrows(text[0], rest, separator);
      }
    }
  }

  lemma JoinGrows(c: char, parts: seq<string>, separator: char)
    requires parts != []
    ensures Join([[c] + parts[0]] + parts[1..], separator) == [c] + Join(parts, separator)
  {
    var grown := [[c] + parts[0]] + parts[1..];
    assert grown[1..] == parts[1..];
  }

  // ----- trim, for any notion of white space -----

  function TrimStart(isSpace: char -> bool, text: string): string {
    if text != "" && isSpace(text[0]) then TrimStart(isSpace, text[1..]) else text
  }

  function TrimEnd(isSpace: char -> bool, text: string): string {
    if text != "" && isSpace(text[|text| - 1]) then TrimEnd(isSpace, text[..|text| - 1]) else text
  }

  function Trim(isSpace: char -> bool, text: string): (r: string)
    ensures Trimmed(isSpace, r)
    ensures forall c :: Free(text, c) ==> Free(r, c)
  {
    TrimStartKeeps(isSpace, text);
    TrimEndKeeps(isSpace, TrimStart(isSpace, text));
    TrimEnd(isSpace, TrimStart(isSpace, text))
  }

  predicate Trimmed(isSpace: char -> bool, text: string) {
    text != "" ==> !isSpace(text[0]) && !isSpace(text[|text| - 1])
  }

  lemma TrimStartKeeps(isSpace: char -> bool, text: string)
    ensures var r := TrimStart(isSpace, text); r != "" ==> !isSpace(r[0])
    ensures forall c :: Free(text, c) ==> Free(TrimStart(isSpace, text), c)
  {}

  lemma TrimEndKeeps(isSpace: char -> bool, text: string)
    requires text != "" ==> !isSpace(text[0])
    ensures Trimmed(isSpace, TrimEnd(isSpace, text))
    ensures forall c :: Free(text, c) ==> Free(TrimEnd(isSpace, text), c)
  {}

  lemma TrimIsIdentity(isSpace: char -> bool, text: string)
    requires Trimmed(isSpace, text)
    ensures Trim(isSpace, text) == text
  {}

  predicate AllSpace(isSpace: char -> bool, text: string) {
    forall i :: 0 <= i < |text| ==> isSpace(text[i])
  }

  lemma {:induction false} TrimStartCuts(isSpace: char -> bool, text: string) returns (before: string)
    ensures text == before + TrimStart(isSpace, text) && AllSpace(isSpace, before)
  {
    before := "";
    if text != "" && isSpace(text[0]) {
      var rest := TrimStartCuts(isSpace, text[1..]);
      before := [text[0]] + rest;
    }
  }

  lemma {:induction false} TrimEndCuts(isSpace: char -> bool, text: string) returns (after: string)
    ensures text == TrimEnd(isSpace, text) + after && AllSpace(isSpace, after)
  {
    after := "";
    if text != "" && isSpace(text[|text| - 1]) {
      var rest := TrimEndCuts(isSpace, text[..|text| - 1]);
      after := rest + [text[|text| - 1]];
    }
  }

  /** Trimming cuts white space off both ends and nothing else. */
  lemma TrimCutsSpace(isSpace: char -> bool, text: string) returns (before: string, after: string)
    ensures text == before + Trim(isSpace, text) + after
    ensures AllSpace(isSpace, before) && AllSpace(isSpace, after)
  {
    before := TrimStartCuts(isSpace, text);
    after := TrimEndCuts(isSpace, TrimStart(isSpace, text));
  }

  // ----- filter -----

  /** The items that qualify, in order. */
  function Filter<T>(items: seq<T>, qualifies: T -> bool): (r: seq<T>)
    ensures |r| <= |items|
  {
    if items == [] then []
    else
      var rest := Filter(items[1..], qualifies);
      if qualifies(items[0]) then [items[0]] + rest else rest
  }

  lemma {:induction false} FilterAppend<T>(items: seq<T>, last: T, qualifies: T -> bool)
    ensures Filter(items + [last], qualifies) == Filter(items, qualifies) + (if qualifies(last) then [last] else [])
  {
    if items == [] {
      assert items + [last] == [last] && [last][1..] == [];
    } else {
      var rest, tail := items[1..], if qualifies(last) then [last] else [];
      assert (items + [last])[1..] == rest + [last];
      FilterAppend(rest, last, qualifies);
      assert [items[0]] + (Filter(rest, qualifies) + tail) == [items[0]] + Filter(rest, qualifies) + tail;
    }
  }

  /** Filtering twice is filtering by both. */
  lemma {:induction false} FilterTwice<T(!new)>(items: seq<T>, p: T -> bool, q: T -> bool, both: T -> bool)
    requires forall x :: both(x) <==> p(x) && q(x)
    ensures Filter(Filter(items, p), q) == Filter(items, both)
  {
    if items != [] {
      var rest := Filter(items[1..], p);
      FilterTwice(items[1..], p, q, both);
      if p(items[0]) {
        assert ([items[0]] + rest)[1..] == rest;
      }
    }
  }

  lemma {:induction false} FilterConcat<T>(a: seq<T>, b: seq<T>, qualifies: T -> bool)
    ensures Filter(a + b, qualifies) == Filter(a, qualifies) + Filter(b, qualifies)
  {
    if a == [] {
      assert a + b == b;
    } else {
      assert (a + b)[1..] == a[1..] + b;
      FilterConcat(a[1..], b, qualifies);
    }
  }

  lemma {:induction false} FilterNothing<T>(items: seq<T>, qualifies: T -> bool)
    requires forall i :: 0 <= i < |items| ==> !qualifies(items[i])
    ensures Filter(items, qualifies) == []
  {
    if items != [] {
      FilterNothing(items[1..], qualifies);
    }
  }

  lemma {:induction false} FilterMembers<T>(items: seq<T>, qualifies: T -> bool)
    ensures forall x :: x in Filter(items, qualifies) <==> x in items && qualifies(x)
  {
    if items != [] {
      FilterMembers(items[1..], qualifies);
      assert items == [items[0]] + items[1..];
    }
  }

  // ----- the default sort of an array of strings -----

  predicate StringLeq(a: string, b: string) {
    a == "" || (b != "" && (a[0] < b[0] || (a[0] == b[0] && StringLeq(a[1..], b[1..]))))
  }

  lemma StringLeqTotal(a: string, b: string)
    ensures StringLeq(a, b) || StringLeq(b, a)
    ensures StringLeq(a, b) && StringLeq(b, a) ==> a == b
  {
    if a != "" && b != "" && a[0] == b[0] {
      StringLeqTotal(a[1..], b[1..]);
      assert a == [a[0]] + a[1..] && b == [b[0]] + b[1..];
    }
  }

  lemma StringLeqTransitive(a: string, b: string, c: string)
    requires StringLeq(a, b) && StringLeq(b, c)
    ensures StringLeq(a, c)
  {}

  function Insert(x: string, sorted: seq<string>): seq<string> {
    if sorted == [] || StringLeq(x, sorted[0]) then [x] + sorted
    else [sorted[0]] + Insert(x, sorted[1..])
  }

  function Sort(items: seq<string>): seq<string> {
    if items == [] then [] else Insert(items[0], Sort(items[1..]))
  }

  predicate Sorted(items: seq<string>) {
    forall i, j :: 0 <= i < j < |items| ==> StringLeq(items[i], items[j])
  }

  lemma LeastInFront(x: string, sorted: seq<string>)
    requires Sorted(sorted) && (sorted != [] ==> StringLeq(x, sorted[0]))
    ensures Sorted([x] + sorted)
  {
    forall j | 0 <= j < |sorted| ensures StringLeq(x, sorted[j]) {
      if j > 0 { StringLeqTransitive(x, sorted[0], sorted[j]); }
    }
  }

  lemma {:induction false} InsertKeeps(x: string, sorted: seq<string>)
    ensures multiset(Insert(x, sorted)) == multiset(sorted) + multiset{x}
  {
    if sorted != [] && !StringLeq(x, sorted[0]) {
      assert sorted == [sorted[0]] + sorted[1..];
      InsertKeeps(x, sorted[1..]);
    }
  }

  lemma {:induction false} InsertSorts(x: string, sorted: seq<string>)
    requires Sorted(sorted)
    ensures Sorted(Insert(x, sorted))
  {
    if sorted == [] || StringLeq(x, sorted[0]) {
      LeastInFront(x, sorted);
    } else {
      var rest := sorted[1..];
      InsertSorts(x, rest);
      StringLeqTotal(x, sorted[0]);
      assert rest != [] ==> StringLeq(sorted[0], rest[0]);
      LeastInFront(sorted[0], Insert(x, rest));
    }
  }

  lemma {:induction false} SortSorts(items: seq<string>)
    ensures Sorted(Sort(items)) && multiset(Sort(items)) == multiset(items)
  {
    if items != [] {
      SortSorts(items[1..]);
      InsertKeeps(items[0], Sort(items[1..]));
      InsertSorts(items[0], Sort(items[1..]));
      assert items == [items[0]] + items[1..];
    }
  }

  /** A sorted arrangement of given items is unique. */
  lemma {:induction false} SortedUnique(a: seq<string>, b: seq<string>)
    requires Sorted(a) && Sorted(b) && multiset(a) == multiset(b)
    ensures a == b
  {
    assert |multiset(a)| == |a| && |multiset(b)| == |b|;
    if a != [] {
      SameFirst(a, b);
      SameRest(a, b);
      SortedUnique(a[1..], b[1..]);
      assert a == [a[0]] + a[1..] && b == [b[0]] + b[1..];
    }
  }

  lemma SameFirst(a: seq<string>, b: seq<string>)
    requires a != [] && b != [] && Sorted(a) && Sorted(b) && multiset(a) == multiset(b)
    ensures a[0] == b[0]
  {
    assert a[0] in multiset(b) && b[0] in multiset(a);
    LeastFirst(a, b[0]);
    LeastFirst(b, a[0]);
    StringLeqTotal(a[0], b[0]);
  }

  lemma SameRest(a: seq<string>, b: seq<string>)
    requires a != [] && b != [] && multiset(a) == multiset(b) && a[0] == b[0]
    ensures multiset(a[1..]) == multiset(b[1..])
  {
    assert a == [a[0]] + a[1..] && b == [b[0]] + b[1..];
    assert multiset(a[1..]) == multiset(a) - multiset{a[0]};
    assert multiset(b[1..]) == multiset(b) - multiset{b[0]};
  }

  lemma LeastFirst(a: seq<string>, x: string)
    requires a != [] && Sorted(a) && x in a
    ensures StringLeq(a[0], x)
  {
    StringLeqTotal(a[0], a[0]);
  }

  /** Sorting makes two lists equal exactly when they hold the same items equally often. */
  lemma SortCanonical(a: seq<string>, b: seq<string>)
    ensures Sort(a) == Sort(b) <==> multiset(a) == multiset(b)
  {
    SortSorts(a);
    SortSorts(b);
    if multiset(a) == multiset(b) {
      SortedUnique(Sort(a), Sort(b));
    }
  }

  // ----- decimal numerals -----

  predicate IsDigit(c: char) { '0' <= c <= '9' }

  predicate AllDigits(text: string) {
    forall i :: 0 <= i < |text| ==> IsDigit(text[i])
  }

  function Digit(n: nat): (c: char)
    requires n < 10
    ensures IsDigit(c) && c as int == '0' as int + n
  {
    '0' + n as char
  }

  function NatText(n: nat): (text: string)
    ensures text != "" && AllDigits(text)
  {
    if n < 10 then [Digit(n)] else NatText(n / 10) + [Digit(n % 10)]
  }

  /** The last `width` decimal digits of n. */
  function PaddedText(n: nat, width: nat): (text: string)
    ensures |text| == width && AllDigits(text)
    decreases width
  {
    if width == 0 then "" else PaddedText(n / 10, width - 1) + [Digit(n % 10)]
  }

  /** What digits say, read from the left. */
  function ValueOf(digits: string): (n: nat)
    requires AllDigits(digits)
  {
    if digits == "" then 0
    else
      var last := |digits| - 1;
      10 * ValueOf(digits[..last]) + (digits[last] as int - '0' as int)
  }

  /** A number's text says the number. */
  lemma {:induction false} NatTextSaysIt(n: nat)
    ensures ValueOf(NatText(n)) == n
    ensures n > 0 ==> NatText(n)[0] != '0'
  {
    if n < 10 {
      assert [Digit(n)][..0] == "";
    } else {
      NatTextSaysIt(n / 10);
      assert NatText(n)[..|NatText(n)| - 1] == NatText(n / 10);
    }
  }

  lemma {:induction false} PaddedTextSaysIt(n: nat, width: nat)
    requires n < Pow10(width)
    ensures ValueOf(PaddedText(n, width)) == n
    decreases width
  {
    if width > 0 {
      PaddedTextSaysIt(n / 10, width - 1);
      assert PaddedText(n, width)[..width - 1] == PaddedText(n / 10, width - 1);
    }
  }

  lemma {:induction false} NatTextInjective(m: nat, n: nat)
    requires NatText(m) == NatText(n)
    ensures m == n
    decreases m
  {
    var s, t := NatText(m), NatText(n);
    assert s[|s| - 1] == t[|t| - 1];
    if m >= 10 && n >= 10 {
      assert s[..|s| - 1] == NatText(m / 10) && t[..|t| - 1] == NatText(n / 10);
      NatTextInjective(m / 10, n / 10);
    }
  }

  lemma {:induction false} PaddedTextInjective(m: nat, n: nat, width: nat)
    requires PaddedText(m, width) == PaddedText(n, width)
    requires m < Pow10(width) && n < Pow10(width)
    ensures m == n
    decreases width
  {
    if width > 0 {
      var s, t := PaddedText(m, width), PaddedText(n, width);
      assert s[..width - 1] == PaddedText(m / 10, width - 1) && t[..width - 1] == PaddedText(n / 10, width - 1);
      assert s[width - 1] == t[width - 1];
      PaddedTextInjective(m / 10, n / 10, width - 1);
    }
  }

  function Pow10(k: nat): (r: nat)
    ensures r > 0
  {
    if k == 0 then 1 else 10 * Pow10(k - 1)
  }
}
