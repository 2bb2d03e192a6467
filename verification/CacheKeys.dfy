/** The string keys under which station queries are cached, and how to read them back. */
module CacheKeys {
  import opened Text
  import opened StationStatuses

  const DEFAULT_NEARBY_LIMIT := 50
  const DEFAULT_NEARBY_RADIUS_METERS := 5000
  const DEFAULT_SEARCH_LIMIT := 20

  lemma FreeConcat(a: string, b: string, c: char)
    requires Free(a, c) && Free(b, c)
    ensures Free(a + b, c)
  {}

  lemma DigitsFree(text: string, c: char)
    requires AllDigits(text) && !IsDigit(c)
    ensures Free(text, c)
  {}

  // ----- numbers -----

  const MICRO := 1000000

  /** A coordinate as toFixed(6) shows it: its sign, and its size rounded to millionths, halves up. */
  function Micro(x: real): (bool, nat) {
    if x < 0.0 then (true, NearestMicro(-x)) else (false, NearestMicro(x))
  }

  function NearestMicro(x: real): nat
    requires x >= 0.0
  {
    (x * MICRO as real + 0.5).Floor
  }

  function ToFixed6(x: real): string {
    MicroText(Micro(x))
  }

  function MicroText(m: (bool, nat)): string {
    Sign(m.0) + UnsignedText(m.1)
  }

  function Sign(negative: bool): string { if negative then "-" else "" }

  function UnsignedText(n: nat): (text: string)
    ensures text != "" && IsDigit(text[0])
  {
    NatText(n / MICRO) + "." + PaddedText(n % MICRO, 6)
  }

  lemma MicroTextInjective(m: (bool, nat), n: (bool, nat))
    requires MicroText(m) == MicroText(n)
    ensures m == n
  {
    SignInjective(m.0, UnsignedText(m.1), n.0, UnsignedText(n.1));
    FixedTextInjective(m.1, n.1);
  }

  lemma SignInjective(p: bool, s: string, q: bool, t: string)
    requires s != "" && IsDigit(s[0]) && t != "" && IsDigit(t[0])
    requires Sign(p) + s == Sign(q) + t
    ensures p == q && s == t
  {
    assert (Sign(p) + s)[0] == (if p then '-' else s[0]);
    assert (Sign(q) + t)[0] == (if q then '-' else t[0]);
    assert s == (Sign(p) + s)[|Sign(p)|..] && t == (Sign(q) + t)[|Sign(q)|..];
  }

  lemma FixedTextInjective(m: nat, n: nat)
    requires UnsignedText(m) == UnsignedText(n)
    ensures m == n
  {
    var a, b, c, d := NatText(m / MICRO), PaddedText(m % MICRO, 6), NatText(n / MICRO), PaddedText(n % MICRO, 6);
    var text := UnsignedText(m);
    assert text == a + "." + b && text == c + "." + d;
    assert |b| == 6 && |d| == 6;
    assert a == text[..|text| - 7] && c == text[..|text| - 7];
    assert b == text[|text| - 6..] && d == text[|text| - 6..];
    NatTextInjective(m / MICRO, n / MICRO);
    assert Pow10(6) == MICRO by { assert Pow10(3) == 1000; }
    PaddedTextInjective(m % MICRO, n % MICRO, 6);
  }

  /** A finite decimal with no needless zeros at its end, as a JavaScript number of this size is printed. */
  datatype Decimal = Decimal(whole: nat, fraction: string) {
    predicate Valid() {
      AllDigits(fraction) && (fraction != "" ==> fraction[|fraction| - 1] != '0')
    }

    function Print(): string {
      NatText(whole) + (if fraction == "" then "" else "." + fraction)
    }
  }

  lemma PointPosition(d: Decimal)
    ensures IndexOf(d.Print(), '.') == |NatText(d.whole)|
    ensures d.Print()[..|NatText(d.whole)|] == NatText(d.whole)
    ensures d.fraction == "" <==> |d.Print()| == |NatText(d.whole)|
    ensures d.fraction != "" ==> d.Print()[|NatText(d.whole)| + 1..] == d.fraction
  {
    DigitsFree(NatText(d.whole), '.');
    IndexOfFirst(NatText(d.whole), '.', d.fraction);
    if d.fraction == "" {
      assert d.Print() == NatText(d.whole);
    } else {
      assert d.Print() == NatText(d.whole) + "." + d.fraction;
    }
  }

  lemma DecimalInjective(a: Decimal, b: Decimal)
    requires a.Print() == b.Print()
    ensures a == b
  {
    PointPosition(a);
    PointPosition(b);
    NatTextInjective(a.whole, b.whole);
  }

  // ----- the shape of a key: fixed fields, then optional tagged ones, the operators last -----

  datatype NearbyFields = NearbyFields(latitude: string, longitude: string, radius: string, limit: string,
                                       types: Option<string>, power: Option<string>, statuses: Option<string>,
                                       operators: Option<string>) {
    /** Only the operators may contain a '|'. */
    predicate Valid() {
      && Free(latitude, '|') && Free(longitude, '|') && Free(radius, '|') && Free(limit, '|')
      && OptionFree(types) && OptionFree(power) && OptionFree(statuses)
    }

    function Head(): seq<string> {
      ["lat:" + latitude, "lng:" + longitude, "r:" + radius, "l:" + limit]
    }

    function Front(): seq<string> {
      Head() + (Tagged("ct:", types) + (Tagged("mp:", power) + Tagged("as:", statuses)))
    }

    function Parts(): seq<string> {
      Front() + Tagged("op:", operators)
    }

    function Key(): string {
      Join(Parts(), '|')
    }
  }

  predicate OptionFree(field: Option<string>) {
    field.Some? ==> Free(field.value, '|')
  }

  function Tagged(tag: string, field: Option<string>): seq<string> {
    if field.None? then [] else [tag + field.value]
  }

  /** Takes the next piece off when it carries the tag. */
  function Untag(tag: string, pieces: seq<string>): (Option<string>, seq<string>) {
    if pieces != [] && tag <= pieces[0] then (Some(pieces[0][|tag|..]), pieces[1..]) else (None, pieces)
  }

  datatype Filters = Filters(types: Option<string>, power: Option<string>, statuses: Option<string>,
                             operators: Option<string>)

  function DecodeFilters(pieces: seq<string>): Filters {
    var (types, p1) := Untag("ct:", pieces);
    var (power, p2) := Untag("mp:", p1);
    var (statuses, p3) := Untag("as:", p2);
    Filters(types, power, statuses, if p3 == [] then None else Untag("op:", [Join(p3, '|')]).0)
  }

  function DecodeNearby(key: string): Option<NearbyFields> {
    var (latitude, p1) := Untag("lat:", Split(key, '|'));
    var (longitude, p2) := Untag("lng:", p1);
    var (radius, p3) := Untag("r:", p2);
    var (limit, p4) := Untag("l:", p3);
    var filters := DecodeFilters(p4);
    if latitude.None? || longitude.None? || radius.None? || limit.None? then None
    else Some(NearbyFields(latitude.value, longitude.value, radius.value, limit.value,
                           filters.types, filters.power, filters.statuses, filters.operators))
  }

  lemma UntagUndoesTag(tag: string, field: Option<string>, rest: seq<string>)
    requires tag != "" && (rest == [] || (rest[0] != "" && rest[0][0] != tag[0]))
    ensures Untag(tag, Tagged(tag, field) + rest) == (field, rest)
  {
    if field.Some? {
      assert (tag + field.value)[|tag|..] == field.value;
      assert (Tagged(tag, field) + rest)[1..] == rest;
    } else {
      assert Tagged(tag, field) + rest == rest;
    }
  }

  lemma {:induction false} JoinAppend(parts: seq<string>, last: string, separator: char)
    requires parts != []
    ensures Join(parts + [last], separator) == Join(parts, separator) + [separator] + last
  {
    assert (parts + [last])[1..] == parts[1..] + [last];
    if |parts| > 1 {
      JoinAppend(parts[1..], last, separator);
    } else {
      assert parts[1..] + [last] == [last];
    }
  }

  lemma FreeParts(f: NearbyFields)
    requires f.Valid()
    ensures AllFree(f.Front(), '|')
  {
    FreeConcat("lat:", f.latitude, '|');
    FreeConcat("lng:", f.longitude, '|');
    FreeConcat("r:", f.radius, '|');
    FreeConcat("l:", f.limit, '|');
    if f.types.Some? { FreeConcat("ct:", f.types.value, '|'); }
    if f.power.Some? { FreeConcat("mp:", f.power.value, '|'); }
    if f.statuses.Some? { FreeConcat("as:", f.statuses.value, '|'); }
  }

  /** The pieces of a key: its front fields, then what the operators fall into. */
  lemma KeyPieces(f: NearbyFields) returns (tail: seq<string>)
    requires f.Valid()
    ensures Split(f.Key(), '|') == f.Front() + tail
    ensures f.operators.None? ==> tail == []
    ensures f.operators.Some? ==>
      tail != [] && tail[0] != "" && tail[0][0] == 'o' && Join(tail, '|') == "op:" + f.operators.value
  {
    FreeParts(f);
    SplitUndoesJoin(f.Front(), '|');
    if f.operators.None? {
      tail := [];
      assert f.Parts() == f.Front();
    } else {
      var last := "op:" + f.operators.value;
      tail := Split(last, '|');
      JoinAppend(f.Front(), last, '|');
      SplitConcat(Join(f.Front(), '|'), last, '|');
      JoinUndoesSplit(last, '|');
      assert last[0] == 'o';
      assert tail[0][0] == last[0];
    }
  }

  lemma FiltersDecode(f: NearbyFields, tail: seq<string>)
    requires f.operators.None? ==> tail == []
    requires f.operators.Some? ==>
      tail != [] && tail[0] != "" && tail[0][0] == 'o' && Join(tail, '|') == "op:" + f.operators.value
    ensures DecodeFilters(Tagged("ct:", f.types) + (Tagged("mp:", f.power) + (Tagged("as:", f.statuses) + tail)))
         == Filters(f.types, f.power, f.statuses, f.operators)
  {
    var two := Tagged("as:", f.statuses) + tail;
    var one := Tagged("mp:", f.power) + two;
    UntagUndoesTag("as:", f.statuses, tail);
    UntagUndoesTag("mp:", f.power, two);
    UntagUndoesTag("ct:", f.types, one);
    if f.operators.Some? {
      UntagPresent("op:", f.operators.value, []);
      assert Tagged("op:", f.operators) + [] == ["op:" + f.operators.value];
    }
  }

  lemma FrontUnfolds(f: NearbyFields, tail: seq<string>)
    ensures var filters := Tagged("ct:", f.types) + (Tagged("mp:", f.power) + (Tagged("as:", f.statuses) + tail));
      f.Front() + tail == Tagged("lat:", Some(f.latitude)) + (Tagged("lng:", Some(f.longitude))
                          + (Tagged("r:", Some(f.radius)) + (Tagged("l:", Some(f.limit)) + filters)))
  {
    var a, b, c := Tagged("ct:", f.types), Tagged("mp:", f.power), Tagged("as:", f.statuses);
    assert (a + (b + c)) + tail == a + (b + (c + tail));
  }

  /** A key can be read back. */
  lemma NearbyKeyIsDecodable(f: NearbyFields)
    requires f.Valid()
    ensures DecodeNearby(f.Key()) == Some(f)
  {
    var tail := KeyPieces(f);
    FrontUnfolds(f, tail);
    var filters := Tagged("ct:", f.types) + (Tagged("mp:", f.power) + (Tagged("as:", f.statuses) + tail));
    FiltersDecode(f, tail);
    var three := Tagged("l:", Some(f.limit)) + filters;
    var two := Tagged("r:", Some(f.radius)) + three;
    var one := Tagged("lng:", Some(f.longitude)) + two;
    UntagPresent("l:", f.limit, filters);
    UntagPresent("r:", f.radius, three);
    UntagPresent("lng:", f.longitude, two);
    UntagPresent("lat:", f.latitude, one);
  }

  lemma UntagPresent(tag: string, field: string, rest: seq<string>)
    ensures Untag(tag, Tagged(tag, Some(field)) + rest) == (Some(field), rest)
  {
    assert (tag + field)[|tag|..] == field;
    assert (Tagged(tag, Some(field)) + rest)[1..] == rest;
  }

  // ----- requests and their keys -----

  datatype NearbyRequest = NearbyRequest(latitude: real, longitude: real, radiusMeters: Option<nat>, limit: Option<nat>,
                                         connectorTypes: Option<seq<ConnectorType>>, minimumPowerKw: Option<Decimal>,
                                         availabilityStatuses: Option<seq<Status>>, operatorIds: Option<seq<string>>) {
    /** What the filter-list parser guarantees of operator ids, and the number printer of the power. */
    predicate Valid() {
      AllFree(OrEmpty(operatorIds), ',') && (minimumPowerKw.Some? ==> minimumPowerKw.value.Valid())
    }
  }

  datatype SearchRequest = SearchRequest(query: string, latitude: real, longitude: real, limit: Option<nat>)

  function OrEmpty<T>(list: Option<seq<T>>): seq<T> {
    if list.None? then [] else list.value
  }

  function Names<T>(list: seq<T>, name: T -> string): (r: seq<string>)
    ensures |r| == |list| && forall i :: 0 <= i < |r| ==> r[i] == name(list[i])
  {
    if list == [] then [] else [name(list[0])] + Names(list[1..], name)
  }

  /** The sorted list with commas; an empty list has no field. */
  function SortedField(items: seq<string>): Option<string> {
    if items == [] then None else Some(Join(Sort(items), ','))
  }

  function FieldsOf(r: NearbyRequest): NearbyFields {
    NearbyFields(ToFixed6(r.latitude), ToFixed6(r.longitude),
                 NatText(OrDefault(r.radiusMeters, DEFAULT_NEARBY_RADIUS_METERS)),
                 NatText(OrDefault(r.limit, DEFAULT_NEARBY_LIMIT)),
                 SortedField(Names(OrEmpty(r.connectorTypes), ConnectorTypeName)),
                 PowerField(r.minimumPowerKw),
                 SortedField(Names(OrEmpty(r.availabilityStatuses), StatusName)),
                 SortedField(OrEmpty(r.operatorIds)))
  }

  function NearbyKey(r: NearbyRequest): string {
    FieldsOf(r).Key()
  }

  function SearchKey(r: SearchRequest, normalizedQuery: string): string {
    Join(["q:" + normalizedQuery, "lat:" + ToFixed6(r.latitude), "lng:" + ToFixed6(r.longitude),
          "l:" + NatText(OrDefault(r.limit, DEFAULT_SEARCH_LIMIT))], '|')
  }

  method BuildNearbyCacheKey(request: NearbyRequest) returns (key: string)
    ensures key == NearbyKey(request)
  {
    ghost var f := FieldsOf(request);
    var parts := ["lat:" + ToFixed6(request.latitude), "lng:" + ToFixed6(request.longitude),
                  "r:" + NatText(OrDefault(request.radiusMeters, DEFAULT_NEARBY_RADIUS_METERS)),
                  "l:" + NatText(OrDefault(request.limit, DEFAULT_NEARBY_LIMIT))];
    assert parts == f.Head();
    parts := PushList(parts, "ct:", Names(OrEmpty(request.connectorTypes), ConnectorTypeName), f.types);
    if request.minimumPowerKw.Some? {
      parts := parts + ["mp:" + request.minimumPowerKw.value.Print()];
    }
    assert parts == f.Head() + Tagged("ct:", f.types) + Tagged("mp:", f.power);
    parts := PushList(parts, "as:", Names(OrEmpty(request.availabilityStatuses), StatusName), f.statuses);
    parts := PushList(parts, "op:", OrEmpty(request.operatorIds), f.operators);
    PartsInOrder(f);
    return Join(parts, '|');
  }

  /** A filter list becomes a part only when it is present and not empty. */
  method PushList(parts: seq<string>, tag: string, list: seq<string>, ghost field: Option<string>)
    returns (r: seq<string>)
    requires field == SortedField(list)
    ensures r == parts + Tagged(tag, field)
  {
    r := parts;
    if |list| > 0 {
      r := r + [tag + Join(Sort(list), ',')];
    }
  }

  lemma PartsInOrder(f: NearbyFields)
    ensures f.Parts()
      == f.Head() + Tagged("ct:", f.types) + Tagged("mp:", f.power) + Tagged("as:", f.statuses)
        + Tagged("op:", f.operators)
  {}

  // ----- what equal keys mean -----

  /** The same query: equal rounded coordinates, equal radius and limit after defaults, and equal filters up
      to the order of their lists, where an absent list is an empty one. */
  predicate SameNearbyQuery(a: NearbyRequest, b: NearbyRequest) {
    && Micro(a.latitude) == Micro(b.latitude) && Micro(a.longitude) == Micro(b.longitude)
    && OrDefault(a.radiusMeters, DEFAULT_NEARBY_RADIUS_METERS)
      == OrDefault(b.radiusMeters, DEFAULT_NEARBY_RADIUS_METERS)
    && OrDefault(a.limit, DEFAULT_NEARBY_LIMIT) == OrDefault(b.limit, DEFAULT_NEARBY_LIMIT)
    && multiset(OrEmpty(a.connectorTypes)) == multiset(OrEmpty(b.connectorTypes))
    && a.minimumPowerKw == b.minimumPowerKw
    && multiset(OrEmpty(a.availabilityStatuses)) == multiset(OrEmpty(b.availabilityStatuses))
    && multiset(OrEmpty(a.operatorIds)) == multiset(OrEmpty(b.operatorIds))
  }

  lemma SortKeepsFree(items: seq<string>, c: char)
    requires AllFree(items, c)
    ensures AllFree(Sort(items), c)
  {
    SortSorts(items);
    forall i | 0 <= i < |Sort(items)| ensures Free(Sort(items)[i], c) {
      assert Sort(items)[i] in multiset(Sort(items));
      assert Sort(items)[i] in items;
    }
  }

  lemma {:induction false} JoinFree(parts: seq<string>, separator: char, c: char)
    requires AllFree(parts, c) && separator != c
    ensures Free(Join(parts, separator), c)
  {
    if |parts| > 1 {
      JoinFree(parts[1..], separator, c);
    }
  }

  lemma SortedFieldCanonical(a: seq<string>, b: seq<string>)
    requires AllFree(a, ',') && AllFree(b, ',')
    ensures SortedField(a) == SortedField(b) <==> multiset(a) == multiset(b)
  {
    SortSorts(a);
    SortSorts(b);
    assert |multiset(a)| == |a| && |multiset(b)| == |b|;
    assert |multiset(Sort(a))| == |Sort(a)| && |multiset(Sort(b))| == |Sort(b)|;
    SortCanonical(a, b);
    SortKeepsFree(a, ',');
    SortKeepsFree(b, ',');
    if a != [] && b != [] {
      SplitUndoesJoin(Sort(a), ',');
      SplitUndoesJoin(Sort(b), ',');
    }
  }

  lemma {:induction false} NamesCount<T(!new)>(list: seq<T>, name: T -> string, x: T)
    requires forall y, z :: name(y) == name(z) ==> y == z
    ensures multiset(Names(list, name))[name(x)] == multiset(list)[x]
  {
    if list != [] {
      var first, rest := list[0], list[1..];
      NamesCount(rest, name, x);
      assert multiset(list) == multiset{first} + multiset(rest) by { assert list == [first] + rest; }
      assert multiset(Names(list, name)) == multiset{name(first)} + multiset(Names(rest, name));
    }
  }

  lemma NamesCanonical<T(!new)>(a: seq<T>, b: seq<T>, name: T -> string)
    requires forall y, z :: name(y) == name(z) ==> y == z
    ensures multiset(Names(a, name)) == multiset(Names(b, name)) <==> multiset(a) == multiset(b)
  {
    if multiset(Names(a, name)) == multiset(Names(b, name)) {
      forall x: T ensures multiset(a)[x] == multiset(b)[x] {
        NamesCount(a, name, x);
        NamesCount(b, name, x);
      }
    }
    if multiset(a) == multiset(b) {
      forall s: string ensures multiset(Names(a, name))[s] == multiset(Names(b, name))[s] {
        NamesCountOf(a, b, name, s);
      }
    }
  }

  lemma NamesCountOf<T(!new)>(a: seq<T>, b: seq<T>, name: T -> string, s: string)
    requires forall y, z :: name(y) == name(z) ==> y == z
    requires multiset(a) == multiset(b)
    ensures multiset(Names(a, name))[s] == multiset(Names(b, name))[s]
  {
    if x :| x in a && name(x) == s {
      NamesCount(a, name, x);
      NamesCount(b, name, x);
    } else {
      assert forall x :: x in b ==> x in multiset(a);
      NotAName(a, name, s);
      NotAName(b, name, s);
    }
  }

  lemma NotAName<T(!new)>(list: seq<T>, name: T -> string, s: string)
    requires forall x :: x in list ==> name(x) != s
    ensures multiset(Names(list, name))[s] == 0
  {
    assert forall i :: 0 <= i < |list| ==> list[i] in list;
    assert s !in Names(list, name);
  }

  lemma TypeNamesOk(list: seq<ConnectorType>)
    ensures AllFree(Names(list, ConnectorTypeName), ',') && AllFree(Names(list, ConnectorTypeName), '|')
    ensures forall a: ConnectorType, b: ConnectorType :: ConnectorTypeName(a) == ConnectorTypeName(b) ==> a == b
  {
    forall a: ConnectorType, b: ConnectorType | ConnectorTypeName(a) == ConnectorTypeName(b) ensures a == b {
      assert |ConnectorTypeName(a)| == |ConnectorTypeName(b)|;
      assert ConnectorTypeName(a)[0] == ConnectorTypeName(b)[0];
      if a.TYPE_1? || a.TYPE_2? { assert ConnectorTypeName(a)[5] == ConnectorTypeName(b)[5]; }
    }
  }

  lemma StatusNameFree(s: Status)
    ensures Free(StatusName(s), ',') && Free(StatusName(s), '|')
  {}

  /** The four names have four lengths. */
  lemma StatusNamesOk(list: seq<Status>)
    ensures AllFree(Names(list, StatusName), ',') && AllFree(Names(list, StatusName), '|')
    ensures forall a: Status, b: Status :: StatusName(a) == StatusName(b) ==> a == b
  {
    forall i | 0 <= i < |list| ensures Free(Names(list, StatusName)[i], ',') && Free(Names(list, StatusName)[i], '|') {
      StatusNameFree(list[i]);
    }
    forall a: Status, b: Status | StatusName(a) == StatusName(b) ensures a == b {
      assert |StatusName(a)| == |StatusName(b)|;
    }
  }

  lemma FieldsValid(r: NearbyRequest)
    requires r.Valid()
    ensures FieldsOf(r).Valid()
  {
    MicroTextFree(Micro(r.latitude));
    MicroTextFree(Micro(r.longitude));
    DigitsFree(NatText(OrDefault(r.radiusMeters, DEFAULT_NEARBY_RADIUS_METERS)), '|');
    DigitsFree(NatText(OrDefault(r.limit, DEFAULT_NEARBY_LIMIT)), '|');
    var types, statuses := Names(OrEmpty(r.connectorTypes), ConnectorTypeName),
      Names(OrEmpty(r.availabilityStatuses), StatusName);
    TypeNamesOk(OrEmpty(r.connectorTypes));
    StatusNamesOk(OrEmpty(r.availabilityStatuses));
    SortKeepsFree(types, '|');
    SortKeepsFree(statuses, '|');
    JoinFree(Sort(types), ',', '|');
    JoinFree(Sort(statuses), ',', '|');
    if r.minimumPowerKw.Some? {
      DecimalFree(r.minimumPowerKw.value);
    }
  }

  lemma MicroTextFree(m: (bool, nat))
    ensures Free(MicroText(m), '|')
  {
    DigitsFree(NatText(m.1 / MICRO), '|');
    DigitsFree(PaddedText(m.1 % MICRO, 6), '|');
  }

  lemma DecimalFree(d: Decimal)
    requires d.Valid()
    ensures Free(d.Print(), '|')
  {
    DigitsFree(NatText(d.whole), '|');
    DigitsFree(d.fraction, '|');
  }

  /** Two nearby requests share a cache key exactly when they are the same query. */
  lemma NearbyKeysEqualExactlyForSameQuery(a: NearbyRequest, b: NearbyRequest)
    requires a.Valid() && b.Valid()
    ensures NearbyKey(a) == NearbyKey(b) <==> SameNearbyQuery(a, b)
  {
    FieldsValid(a);
    FieldsValid(b);
    NearbyKeyIsDecodable(FieldsOf(a));
    NearbyKeyIsDecodable(FieldsOf(b));
    FieldsEqualExactlyForSameQuery(a, b);
  }

  lemma FieldsEqualExactlyForSameQuery(a: NearbyRequest, b: NearbyRequest)
    requires a.Valid() && b.Valid()
    ensures FieldsOf(a) == FieldsOf(b) <==> SameNearbyQuery(a, b)
  {
    CoordinateCanonical(a.latitude, b.latitude);
    CoordinateCanonical(a.longitude, b.longitude);
    DefaultedCanonical(a.radiusMeters, b.radiusMeters, DEFAULT_NEARBY_RADIUS_METERS);
    DefaultedCanonical(a.limit, b.limit, DEFAULT_NEARBY_LIMIT);
    TypesCanonical(OrEmpty(a.connectorTypes), OrEmpty(b.connectorTypes));
    PowerCanonical(a.minimumPowerKw, b.minimumPowerKw);
    StatusesCanonical(OrEmpty(a.availabilityStatuses), OrEmpty(b.availabilityStatuses));
    SortedFieldCanonical(OrEmpty(a.operatorIds), OrEmpty(b.operatorIds));
  }

  lemma DefaultedCanonical(m: Option<nat>, n: Option<nat>, fallback: nat)
    ensures NatText(OrDefault(m, fallback)) == NatText(OrDefault(n, fallback))
      <==> OrDefault(m, fallback) == OrDefault(n, fallback)
  {
    NumberCanonical(OrDefault(m, fallback), OrDefault(n, fallback));
  }

  function PowerField(power: Option<Decimal>): Option<string> {
    if power.None? then None else Some(power.value.Print())
  }

  lemma PowerCanonical(a: Option<Decimal>, b: Option<Decimal>)
    ensures PowerField(a) == PowerField(b) <==> a == b
  {
    if a.Some? && b.Some? && a.value.Print() == b.value.Print() {
      DecimalInjective(a.value, b.value);
    }
  }

  lemma CoordinateCanonical(x: real, y: real)
    ensures ToFixed6(x) == ToFixed6(y) <==> Micro(x) == Micro(y)
  {
    if ToFixed6(x) == ToFixed6(y) {
      MicroTextInjective(Micro(x), Micro(y));
    }
  }

  lemma NumberCanonical(m: nat, n: nat)
    ensures NatText(m) == NatText(n) <==> m == n
  {
    if NatText(m) == NatText(n) {
      NatTextInjective(m, n);
    }
  }

  lemma TypesCanonical(a: seq<ConnectorType>, b: seq<ConnectorType>)
    ensures SortedField(Names(a, ConnectorTypeName)) == SortedField(Names(b, ConnectorTypeName))
      <==> multiset(a) == multiset(b)
  {
    TypeNamesOk(a);
    TypeNamesOk(b);
    SortedFieldCanonical(Names(a, ConnectorTypeName), Names(b, ConnectorTypeName));
    NamesCanonical(a, b, ConnectorTypeName);
  }

  lemma StatusesCanonical(a: seq<Status>, b: seq<Status>)
    ensures SortedField(Names(a, StatusName)) == SortedField(Names(b, StatusName)) <==> multiset(a) == multiset(b)
  {
    StatusNamesOk(a);
    StatusNamesOk(b);
    SortedFieldCanonical(Names(a, StatusName), Names(b, StatusName));
    NamesCanonical(a, b, StatusName);
  }

  predicate SameSearchQuery(a: SearchRequest, p: string, b: SearchRequest, q: string) {
    && p == q && Micro(a.latitude) == Micro(b.latitude) && Micro(a.longitude) == Micro(b.longitude)
    && OrDefault(a.limit, DEFAULT_SEARCH_LIMIT) == OrDefault(b.limit, DEFAULT_SEARCH_LIMIT)
  }

  /** The last three pieces of a search key are its numbers; what stands before them is the query, even
      when the query holds separators itself. */
  lemma SearchKeyPieces(r: SearchRequest, q: string)
    ensures Split(SearchKey(r, q), '|')
         == Split("q:" + q, '|') + ["lat:" + ToFixed6(r.latitude), "lng:" + ToFixed6(r.longitude),
                                    "l:" + NatText(OrDefault(r.limit, DEFAULT_SEARCH_LIMIT))]
  {
    var latitude, longitude := "lat:" + ToFixed6(r.latitude), "lng:" + ToFixed6(r.longitude);
    var limit := "l:" + NatText(OrDefault(r.limit, DEFAULT_SEARCH_LIMIT));
    MicroTextFree(Micro(r.latitude));
    MicroTextFree(Micro(r.longitude));
    DigitsFree(NatText(OrDefault(r.limit, DEFAULT_SEARCH_LIMIT)), '|');
    FreeConcat("lat:", ToFixed6(r.latitude), '|');
    FreeConcat("lng:", ToFixed6(r.longitude), '|');
    FreeConcat("l:", NatText(OrDefault(r.limit, DEFAULT_SEARCH_LIMIT)), '|');
    SplitBeforeThree("q:" + q, latitude, longitude, limit, '|');
  }

  lemma SplitBeforeThree(head: string, a: string, b: string, c: string, separator: char)
    requires Free(a, separator) && Free(b, separator) && Free(c, separator)
    ensures Split(Join([head, a, b, c], separator), separator) == Split(head, separator) + [a, b, c]
  {
    assert AllFree([a, b, c], separator);
    SplitUndoesJoin([a, b, c], separator);
    SplitConcat(head, Join([a, b, c], separator), separator);
    assert [head, a, b, c][1..] == [a, b, c];
  }

  lemma SearchKeyParts(a: SearchRequest, p: string, b: SearchRequest, q: string)
    requires SearchKey(a, p) == SearchKey(b, q)
    ensures p == q && ToFixed6(a.latitude) == ToFixed6(b.latitude) && ToFixed6(a.longitude) == ToFixed6(b.longitude)
    ensures NatText(OrDefault(a.limit, DEFAULT_SEARCH_LIMIT)) == NatText(OrDefault(b.limit, DEFAULT_SEARCH_LIMIT))
  {
    var m, n := NatText(OrDefault(a.limit, DEFAULT_SEARCH_LIMIT)), NatText(OrDefault(b.limit, DEFAULT_SEARCH_LIMIT));
    SearchKeyPieces(a, p);
    SearchKeyPieces(b, q);
    LastThree(Split("q:" + p, '|'), "lat:" + ToFixed6(a.latitude), "lng:" + ToFixed6(a.longitude), "l:" + m,
              Split("q:" + q, '|'), "lat:" + ToFixed6(b.latitude), "lng:" + ToFixed6(b.longitude), "l:" + n);
    JoinUndoesSplit("q:" + p, '|');
    JoinUndoesSplit("q:" + q, '|');
    SameTail("q:", p, q);
    SameTail("lat:", ToFixed6(a.latitude), ToFixed6(b.latitude));
    SameTail("lng:", ToFixed6(a.longitude), ToFixed6(b.longitude));
    SameTail("l:", m, n);
  }

  /** Two searches share a cache key exactly when they are the same query. */
  lemma SearchKeysEqualExactlyForSameQuery(a: SearchRequest, p: string, b: SearchRequest, q: string)
    ensures SearchKey(a, p) == SearchKey(b, q) <==> SameSearchQuery(a, p, b, q)
  {
    CoordinateCanonical(a.latitude, b.latitude);
    CoordinateCanonical(a.longitude, b.longitude);
    DefaultedCanonical(a.limit, b.limit, DEFAULT_SEARCH_LIMIT);
    if SearchKey(a, p) == SearchKey(b, q) {
      SearchKeyParts(a, p, b, q);
    }
  }

  lemma LastThree(s: seq<string>, a: string, b: string, c: string, t: seq<string>, d: string, e: string, f: string)
    requires s + [a, b, c] == t + [d, e, f]
    ensures s == t && a == d && b == e && c == f
  {
    var all := s + [a, b, c];
    assert |all| == |s| + 3 == |t| + 3;
    assert s == all[..|s|] && t == all[..|t|];
    assert all[|s|] == a == d && all[|s| + 1] == b == e && all[|s| + 2] == c == f;
  }

  lemma SameTail(tag: string, s: string, t: string)
    requires tag + s == tag + t
    ensures s == t
  {
    assert s == (tag + s)[|tag|..] && t == (tag + t)[|tag|..];
  }

  // ----- coordinates of at most six decimals -----

  predicate SixDecimals(x: real) {
    (x * MICRO as real).Floor as real == x * MICRO as real
  }

  /** For coordinates of at most six decimals, rounding loses nothing. */
  lemma SixDecimalsAreExact(x: real, y: real)
    requires SixDecimals(x) && SixDecimals(y) && Micro(x) == Micro(y)
    ensures x == y
  {
    MicroOfSixDecimals(x);
    MicroOfSixDecimals(y);
  }

  lemma MicroOfSixDecimals(x: real)
    requires SixDecimals(x)
    ensures Micro(x).1 as real == (if x < 0.0 then -x else x) * MICRO as real
  {
    var k := (x * MICRO as real).Floor;
    assert x * MICRO as real == k as real;
    assert (-x) * MICRO as real == (-k) as real;
    assert (k as real + 0.5).Floor == k;
    assert ((-k) as real + 0.5).Floor == -k;
  }

  /** Finer coordinates are not told apart: two different queries can share a key. */
  lemma FinerCoordinatesCollide()
    ensures exists a: NearbyRequest, b: NearbyRequest | a.Valid() && b.Valid() && a.latitude != b.latitude ::
      NearbyKey(a) == NearbyKey(b)
  {
    var a := NearbyRequest(40.0, 44.0, None, None, None, None, None, None);
    var b := a.(latitude := 40.0000001);
    assert Micro(40.0) == Micro(40.0000001) == (false, 40000000);
    NearbyKeysEqualExactlyForSameQuery(a, b);
  }

  // ----- what the keys leave implicit, and what the numbers in them say -----

  /** A request that leaves out radius and limit is the one for 5000 metres and 50 stations. */
  lemma NearbyDefaults(r: NearbyRequest)
    ensures NearbyKey(r.(radiusMeters := None)) == NearbyKey(r.(radiusMeters := Some(5000)))
    ensures NearbyKey(r.(limit := None)) == NearbyKey(r.(limit := Some(50)))
  {}

  /** A search that leaves out the limit is the one for 20 stations. */
  lemma SearchDefault(r: SearchRequest, query: string)
    ensures SearchKey(r.(limit := None), query) == SearchKey(r.(limit := Some(20)), query)
  {}

  /** A printed coordinate has its sign, digits that say its whole part, and six that say the millionths of the
      nearest multiple; of two equally near ones it is the one away from zero. */
  lemma CoordinateSaysIt(x: real) returns (whole: string, millionths: string)
    ensures AllDigits(whole) && AllDigits(millionths) && |millionths| == 6
    ensures ToFixed6(x) == (if x < 0.0 then "-" else "") + whole + "." + millionths
    ensures var printed := ValueOf(whole) as real + ValueOf(millionths) as real / 1000000.0;
      var size := if x < 0.0 then -x else x;
      size - 0.0000005 < printed <= size + 0.0000005
  {
    var n := Micro(x).1;
    whole, millionths := MicrosSayIt(n);
    assert ToFixed6(x) == Sign(x < 0.0) + (whole + "." + millionths);
  }

  lemma MicrosSayIt(n: nat) returns (whole: string, millionths: string)
    ensures AllDigits(whole) && AllDigits(millionths) && |millionths| == 6
    ensures UnsignedText(n) == whole + "." + millionths
    ensures 1000000 * ValueOf(whole) + ValueOf(millionths) == n
  {
    whole, millionths := NatText(n / MICRO), PaddedText(n % MICRO, 6);
    NatTextSaysIt(n / MICRO);
    assert Pow10(6) == 1000000;
    PaddedTextSaysIt(n % MICRO, 6);
  }
}
