/** Cursor-based paging through the transaction log of one wallet. */
module WalletHistory {
  import opened Text
  import opened Wallets

  /** Row ids are compared for equality only. */
  type Uuid = nat

  /** One transaction row. A log is in strict creation order, so its order stands for createdAt. */
  datatype Row = Row(id: Uuid, entry: Entry)

  datatype Page = Page(transactions: seq<Row>, hasMore: bool, nextCursor: Option<Uuid>)

  /** Every row's id is new when the row is created. */
  predicate Distinct(rows: seq<Row>) {
    rows == [] || (IndexOfId(rows, rows[|rows| - 1].id) == |rows| - 1 && Distinct(rows[..|rows| - 1]))
  }

  predicate Matches(row: Row, kind: Option<Kind>) {
    kind.None? || row.entry.kind == kind.value
  }

  function Matching(rows: seq<Row>, kind: Option<Kind>): (r: seq<Row>)
    ensures |r| <= |rows|
  {
    if rows == [] then []
    else
      var last := rows[|rows| - 1];
      Matching(rows[..|rows| - 1], kind) + (if Matches(last, kind) then [last] else [])
  }

  function Reverse(rows: seq<Row>): (r: seq<Row>)
    ensures |r| == |rows|
    ensures forall k :: 0 <= k < |r| ==> r[k] == rows[|rows| - 1 - k]
  {
    seq(|rows|, k requires 0 <= k < |rows| => rows[|rows| - 1 - k])
  }

  function IndexOfId(rows: seq<Row>, id: Uuid): (k: nat)
    ensures k <= |rows|
    ensures k < |rows| ==> rows[k].id == id
    ensures forall j :: 0 <= j < k ==> rows[j].id != id
  {
    if rows == [] || rows[0].id == id then 0 else 1 + IndexOfId(rows[1..], id)
  }

  function Take(rows: seq<Row>, count: nat): (r: seq<Row>)
    ensures r <= rows && |r| == if |rows| <= count then |rows| else count
  {
    if |rows| <= count then rows else rows[..count]
  }

  /** The rows after a cursor: those created no later than the cursor row, whether or not that row itself
      matches, without the first of them. */
  function AfterCursor(rows: seq<Row>, kind: Option<Kind>, cursor: Uuid): seq<Row> {
    var at := IndexOfId(rows, cursor);
    var older := if at == |rows| then [] else Reverse(Matching(rows[..at + 1], kind));
    if older == [] then [] else older[1..]
  }

  /** The database query: newest first, from the cursor on, at most `take` rows. */
  function FindMany(rows: seq<Row>, kind: Option<Kind>, take: nat, cursor: Option<Uuid>): seq<Row> {
    Take(if cursor.None? then Reverse(Matching(rows, kind)) else AfterCursor(rows, kind, cursor.value), take)
  }

  /** Asks for one row more than the page holds, to learn whether there are more. */
  function GetTransactions(rows: seq<Row>, kind: Option<Kind>, limit: nat, cursor: Option<Uuid>): Page {
    PageOf(FindMany(rows, kind, limit + 1, cursor), limit)
  }

  function PageOf(transactions: seq<Row>, limit: nat): Page {
    var hasMore := |transactions| > limit;
    var items := if hasMore then transactions[..limit] else transactions;
    Page(items, hasMore, if hasMore && items != [] then Some(items[|items| - 1].id) else None)
  }

  lemma {:induction false} MatchingSplit(rows: seq<Row>, kind: Option<Kind>, p: nat) returns (j: nat)
    requires p < |Matching(rows, kind)|
    ensures j < |rows| && rows[j] == Matching(rows, kind)[p]
    ensures Matching(rows[..j + 1], kind) == Matching(rows, kind)[..p + 1]
  {
    var n := |rows| - 1;
    var all, front := Matching(rows, kind), Matching(rows[..n], kind);
    if p < |front| {
      j := MatchingSplit(rows[..n], kind, p);
      assert rows[..n][..j + 1] == rows[..j + 1] && front[..p + 1] == all[..p + 1];
    } else {
      j := n;
      assert rows[..n + 1] == rows && all[..p + 1] == all;
    }
  }

  lemma {:induction false} UniqueIndex(rows: seq<Row>, j: nat)
    requires Distinct(rows) && j < |rows|
    ensures IndexOfId(rows, rows[j].id) == j
    decreases |rows|
  {
    var front := rows[..|rows| - 1];
    if j < |front| {
      UniqueIndex(front, j);
      assert forall i :: 0 <= i < j ==> rows[i] == front[i];
    }
  }

  lemma ReverseTail(rows: seq<Row>, n: nat)
    requires 0 < n <= |rows|
    ensures Reverse(rows[..|rows| - n + 1])[1..] == Reverse(rows)[n..]
    ensures Reverse(rows)[n - 1] == rows[|rows| - n]
  {}

  lemma CursorRow(original: seq<Row>, rows: seq<Row>, kind: Option<Kind>, p: nat) returns (j: nat)
    requires original <= rows && Distinct(rows) && p < |Matching(original, kind)|
    ensures j < |rows| && IndexOfId(rows, Matching(original, kind)[p].id) == j
    ensures Matching(rows[..j + 1], kind) == Matching(original, kind)[..p + 1]
  {
    j := MatchingSplit(original, kind, p);
    UniqueIndex(rows, j);
    assert rows[..j + 1] == original[..j + 1];
  }

  /** A query whose cursor is row p of the matching rows finds the older ones, newest first, however many
      newer rows have arrived. */
  lemma CursorContinues(original: seq<Row>, rows: seq<Row>, kind: Option<Kind>, p: nat)
    requires original <= rows && Distinct(rows) && p < |Matching(original, kind)|
    ensures var matching := Matching(original, kind);
      AfterCursor(rows, kind, matching[p].id) == Reverse(matching[..p + 1])[1..]
  {
    var j := CursorRow(original, rows, kind, p);
    AfterCursorAt(rows, kind, Matching(original, kind)[p].id, j, Matching(original, kind)[..p + 1]);
  }

  lemma AfterCursorAt(rows: seq<Row>, kind: Option<Kind>, cursor: Uuid, j: nat, older: seq<Row>)
    requires j < |rows| && IndexOfId(rows, cursor) == j && Matching(rows[..j + 1], kind) == older && older != []
    ensures AfterCursor(rows, kind, cursor) == Reverse(older)[1..]
  {}

  /** The page that a reader gets who has read n rows of the expected list so far. */
  predicate IsNextPage(page: Page, expected: seq<Row>, n: nat) {
    var m := n + |page.transactions|;
    && m <= |expected| && page.transactions == expected[n..m]
    && (page.hasMore <==> m < |expected|)
    && (page.hasMore ==> n < m && page.nextCursor == Some(expected[m - 1].id))
  }

  lemma NextPage(expected: seq<Row>, n: nat, limit: nat)
    requires limit >= 1 && n <= |expected|
    ensures IsNextPage(PageOf(Take(expected[n..], limit + 1), limit), expected, n)
  {}

  lemma FirstPage(original: seq<Row>, kind: Option<Kind>, limit: nat)
    requires limit >= 1
    ensures IsNextPage(GetTransactions(original, kind, limit, None), Reverse(Matching(original, kind)), 0)
  {
    var expected := Reverse(Matching(original, kind));
    NextPage(expected, 0, limit);
    assert expected[0..] == expected;
  }

  lemma LaterPage(original: seq<Row>, rows: seq<Row>, kind: Option<Kind>, limit: nat, expected: seq<Row>, n: nat)
    requires limit >= 1 && original <= rows && Distinct(rows)
    requires expected == Reverse(Matching(original, kind)) && 0 < n <= |expected|
    ensures IsNextPage(GetTransactions(rows, kind, limit, Some(expected[n - 1].id)), expected, n)
  {
    FoundAfter(original, rows, kind, expected, n);
    NextPage(expected, n, limit);
  }

  lemma FoundAfter(original: seq<Row>, rows: seq<Row>, kind: Option<Kind>, expected: seq<Row>, n: nat)
    requires original <= rows && Distinct(rows)
    requires expected == Reverse(Matching(original, kind)) && 0 < n <= |expected|
    ensures AfterCursor(rows, kind, expected[n - 1].id) == expected[n..]
  {
    CursorContinues(original, rows, kind, |expected| - n);
    ReverseTail(Matching(original, kind), n);
  }

  /** Rows of the given kind, or all rows. */
  function OfKind(kind: Option<Kind>): Row -> bool {
    (row: Row) => kind == None || kind == Some(row.entry.kind)
  }

  lemma {:induction false} MatchingIsFilter(rows: seq<Row>, kind: Option<Kind>)
    ensures Matching(rows, kind) == Filter(rows, OfKind(kind))
  {
    if rows != [] {
      var front, last := rows[..|rows| - 1], rows[|rows| - 1];
      MatchingIsFilter(front, kind);
      FilterAppend(front, last, OfKind(kind));
      assert rows == front + [last];
    }
  }

  /** A reader follows nextCursor from the first page until hasMore is false, while newer rows arrive: the
      first page is taken from the first `present` rows of the log, later ones from `lengths[0]` rows,
      `lengths[1]` rows and so on. The reader gets exactly what matched at the first fetch, newest first. */
  method FollowCursor(log: seq<Row>, present: nat, lengths: seq<nat>, kind: Option<Kind>, limit: nat)
    returns (read: seq<Row>)
    requires limit >= 1 && Distinct(log) && present <= |log|
    requires forall k :: 0 <= k < |lengths| ==> present <= lengths[k] <= |log|
    ensures read == Reverse(Filter(log[..present], OfKind(kind)))
  {
    ghost var expected := Reverse(Matching(log[..present], kind));
    MatchingIsFilter(log[..present], kind);
    var page := GetTransactions(log[..present], kind, limit, None);
    FirstPage(log[..present], kind, limit);
    ReadOn([], page, expected);
    read := ReadRest(log, present, lengths, kind, limit, page, expected);
  }

  method ReadRest(log: seq<Row>, ghost present: nat, lengths: seq<nat>, kind: Option<Kind>, limit: nat, first: Page,
                  ghost expected: seq<Row>) returns (read: seq<Row>)
    requires limit >= 1 && Distinct(log) && present <= |log|
    requires forall k :: 0 <= k < |lengths| ==> present <= lengths[k] <= |log|
    requires expected == Reverse(Matching(log[..present], kind)) && Progress(first.transactions, first, expected)
    ensures read == expected
  {
    var page, fetch := first, 0;
    read := page.transactions;
    while page.hasMore
      invariant fetch >= 0
      invariant Progress(read, page, expected)
      decreases |expected| - |read|
    {
      var length := if fetch < |lengths| then lengths[fetch] else |log|;
      var next := FetchNext(log, present, length, kind, limit, page.nextCursor, expected, |read|);
      ReadOn(read, next, expected);
      read := read + next.transactions;
      page := next;
      fetch := fetch + 1;
    }
  }

  predicate Progress(read: seq<Row>, page: Page, expected: seq<Row>) {
    && read <= expected
    && (page.hasMore <==> |read| < |expected|)
    && (page.hasMore ==> 0 < |read| && page.nextCursor == Some(expected[|read| - 1].id))
  }

  lemma ReadOn(read: seq<Row>, page: Page, expected: seq<Row>)
    requires read <= expected && IsNextPage(page, expected, |read|)
    ensures Progress(read + page.transactions, page, expected)
    ensures page.hasMore ==> 0 < |page.transactions|
    ensures read == [] ==> read + page.transactions == page.transactions
  {}

  method FetchNext(log: seq<Row>, ghost present: nat, length: nat, kind: Option<Kind>, limit: nat, cursor: Option<Uuid>,
                   ghost expected: seq<Row>, ghost n: nat) returns (page: Page)
    requires limit >= 1 && Distinct(log) && present <= length <= |log|
    requires expected == Reverse(Matching(log[..present], kind))
    requires 0 < n <= |expected| && cursor == Some(expected[n - 1].id)
    ensures IsNextPage(page, expected, n)
  {
    PrefixOfLog(log, present, length);
    LaterPage(log[..present], log[..length], kind, limit, expected, n);
    page := GetTransactions(log[..length], kind, limit, cursor);
  }

  lemma PrefixOfLog(log: seq<Row>, present: nat, length: nat)
    requires present <= length <= |log| && Distinct(log)
    ensures log[..present] <= log[..length] && Distinct(log[..length])
  {
    DistinctPrefix(log, length);
  }

  lemma {:induction false} DistinctPrefix(log: seq<Row>, length: nat)
    requires length <= |log| && Distinct(log)
    ensures Distinct(log[..length])
    decreases |log|
  {
    if length == |log| {
      assert log[..length] == log;
    } else {
      var front := log[..|log| - 1];
      DistinctPrefix(front, length);
      assert front[..length] == log[..length];
    }
  }
}
