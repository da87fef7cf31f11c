/**
  The loopback paths that carry a query: the lobby search and the event poll.
  Splitting a path and decoding its parts gives the query back.
 */
module Query {
  import opened Wrappers
  import opened Strings
  import opened Unicode
  import opened Metadata

  const GAMES_PATH_PREFIX := "/v1/games"

  type U8 = n: int | 0 <= n < 0x100

  // ---------- Percent-encoding ----------

  /** The unreserved characters of RFC 3986, section 2.3. */
  predicate IsUnreserved(b: Byte) {
    (0x41 <= b <= 0x5A) || (0x61 <= b <= 0x7A) || (0x30 <= b <= 0x39) || b == 0x2D || b == 0x2E || b == 0x5F || b == 0x7E
  }

  type HexDigit = n: int | 0 <= n < 16

  function UpperHex(n: HexDigit): char {
    if n < 10 then (0x30 + n) as char else (0x41 + n - 10) as char
  }

  function EncodedByte(b: Byte): string {
    if IsUnreserved(b) then [b as char] else ['%', UpperHex(b / 16), UpperHex(b % 16)]
  }

  function Encoded(bytes: seq<Byte>): string {
    if bytes == [] then "" else EncodedByte(bytes[0]) + Encoded(bytes[1..])
  }

  method EncodeQuery(value: string) returns (encoded: string)
    ensures encoded == Encoded(Utf8(value))
  {
    hide EncodedByte;
    encoded := "";
    var bytes := Utf8(value);
    assert bytes[0..] == bytes;
    for i := 0 to |bytes|
      invariant encoded + Encoded(bytes[i..]) == Encoded(bytes)
    {
      var b := bytes[i];
      assert bytes[i..][1..] == bytes[i + 1..];
      OneByte(b);
      if IsUnreserved(b) {
        encoded := encoded + [b as char];
      } else {
        encoded := encoded + ['%', UpperHex(b / 16), UpperHex(b % 16)];
      }
    }
  }

  lemma OneByte(b: Byte)
    ensures EncodedByte(b) == if IsUnreserved(b) then [b as char] else ['%', UpperHex(b / 16), UpperHex(b % 16)]
  {
  }

  /** A hexadecimal digit of either case, or -1. */
  function HexOf(c: char): int {
    if '0' <= c <= '9' then c as int - 0x30
    else if 'A' <= c <= 'F' then c as int - 0x41 + 10
    else if 'a' <= c <= 'f' then c as int - 0x61 + 10
    else -1
  }

  /** Percent-decoding as RFC 3986, section 2.1, has it. */
  function Decoded(s: string): Option<seq<Byte>> {
    if s == "" then Some([])
    else if s[0] == '%' then
      if |s| < 3 || HexOf(s[1]) < 0 || HexOf(s[2]) < 0 then None
      else
        var later :- Decoded(s[3..]);
        Some([HexOf(s[1]) * 16 + HexOf(s[2])] + later)
    else if s[0] >= '\U{80}' then None
    else
      var later :- Decoded(s[1..]);
      Some([s[0] as int] + later)
  }

  const UPPER_HEX_DIGITS := "0123456789ABCDEF"

  /** One byte is written as itself if it is unreserved, and otherwise as `%` and two upper-case digits. */
  lemma ByteIsWritten(b: Byte)
    ensures var c := b as char;
      var plain := 'A' <= c <= 'Z' || 'a' <= c <= 'z' || '0' <= c <= '9' || c == '-' || c == '.' || c == '_' || c == '~';
      Encoded([b]) == if plain then [c] else ['%', UPPER_HEX_DIGITS[b / 16], UPPER_HEX_DIGITS[b % 16]]
  {
    assert [b][1..] == [] && EncodedByte(b) + [] == EncodedByte(b);
    UpperHexIs(b / 16);
    UpperHexIs(b % 16);
    hide UpperHex;
    assert Encoded([b]) == EncodedByte(b);
  }

  /** And more bytes one after the other. */
  lemma {:induction false} BytesAreWrittenInOrder(a: seq<Byte>, b: seq<Byte>)
    ensures Encoded(a + b) == Encoded(a) + Encoded(b)
  {
    hide EncodedByte;
    if a == [] {
      assert a + b == b;
    } else {
      assert (a + b)[1..] == a[1..] + b;
      BytesAreWrittenInOrder(a[1..], b);
    }
  }

  lemma UpperHexIs(n: HexDigit)
    ensures UpperHex(n) == UPPER_HEX_DIGITS[n]
  {
  }

  /** Characters that may stand in a query without dividing it. */
  predicate IsPlain(s: string) {
    forall i :: 0 <= i < |s| ==> s[i] != '?' && s[i] != '&' && s[i] != '=' && s[i] != '#'
  }

  lemma EncodedByteDecodes(b: Byte, later: string)
    ensures IsPlain(EncodedByte(b))
    ensures Decoded(EncodedByte(b) + later) ==
            if Decoded(later).Some? then Some([b] + Decoded(later).value) else None
  {
    var s := EncodedByte(b) + later;
    if IsUnreserved(b) {
      assert s[1..] == later;
    } else {
      assert s[3..] == later;
    }
  }

  /** Any bytes survive the query string, and nothing in them divides it. */
  lemma {:induction false} DecodingInvertsEncoding(bytes: seq<Byte>)
    ensures Decoded(Encoded(bytes)) == Some(bytes)
    ensures IsPlain(Encoded(bytes))
  {
    hide EncodedByte, Decoded;
    if bytes == [] {
      DecodedEmpty();
    } else {
      EncodedByteDecodes(bytes[0], Encoded(bytes[1..]));
      DecodingInvertsEncoding(bytes[1..]);
      assert [bytes[0]] + bytes[1..] == bytes;
    }
  }

  lemma DecodedEmpty()
    ensures Decoded("") == Some([])
  {
  }

  // ---------- Reading a path ----------

  datatype Field = Field(name: string, value: seq<Byte>)

  /** `name=value`, the value percent-decoded. */
  function ReadField(s: string): Option<Field> {
    var (name, value) :- SplitOnce(s, '=');
    var bytes :- Decoded(value);
    Some(Field(name, bytes))
  }

  /** The fields between the `&`s. */
  function ReadFields(s: string): Option<seq<Field>>
    decreases |s|
  {
    match SplitOnce(s, '&')
    case None =>
      var field :- ReadField(s);
      Some([field])
    case Some((first, others)) =>
      var field :- ReadField(first);
      SplitShrinks(s, '&');
      var later :- ReadFields(others);
      Some([field] + later)
  }

  lemma {:induction false} SplitShrinks(s: string, separator: char)
    ensures SplitOnce(s, separator).Some? ==> |SplitOnce(s, separator).value.1| < |s|
  {
    if s != "" && s[0] != separator {
      SplitShrinks(s[1..], separator);
    }
  }

  /** What stands before the first `?`, and the fields after it. */
  function ReadPath(path: string): Option<(string, seq<Field>)> {
    var (base, query) :- SplitOnce(path, '?');
    var fields :- ReadFields(query);
    Some((base, fields))
  }

  // ---------- Writing a path ----------

  function FieldText(f: Field): string {
    f.name + ['='] + Encoded(f.value)
  }

  function FieldsText(fields: seq<Field>): string
    requires fields != []
  {
    if |fields| == 1 then FieldText(fields[0]) else FieldText(fields[0]) + ['&'] + FieldsText(fields[1..])
  }

  lemma FieldIsRead(f: Field)
    requires IsPlain(f.name)
    ensures ReadField(FieldText(f)) == Some(f)
    ensures '&' !in FieldText(f) && '?' !in FieldText(f)
  {
    DecodingInvertsEncoding(f.value);
    SplitFindsSeparator(f.name, '=', Encoded(f.value));
  }

  lemma {:induction false} FieldsAreRead(fields: seq<Field>)
    requires fields != [] && forall f :: f in fields ==> IsPlain(f.name)
    ensures ReadFields(FieldsText(fields)) == Some(fields)
  {
    hide FieldText, ReadField, IsPlain;
    FieldIsRead(fields[0]);
    if |fields| == 1 {
      NoSeparator(FieldText(fields[0]), '&');
      assert fields == [fields[0]];
    } else {
      SplitFindsSeparator(FieldText(fields[0]), '&', FieldsText(fields[1..]));
      FieldsAreRead(fields[1..]);
      assert fields == [fields[0]] + fields[1..];
    }
  }

  lemma {:induction false} NoSeparator(s: string, separator: char)
    requires separator !in s
    ensures SplitOnce(s, separator).None?
  {
    if s != "" {
      NoSeparator(s[1..], separator);
    }
  }

  lemma PathIsRead(base: string, fields: seq<Field>)
    requires '?' !in base && fields != [] && forall f :: f in fields ==> IsPlain(f.name)
    ensures ReadPath(base + ['?'] + FieldsText(fields)) == Some((base, fields))
  {
    hide FieldsText, ReadFields;
    SplitFindsSeparator(base, '?', FieldsText(fields));
    FieldsAreRead(fields);
  }

  lemma {:induction false} FieldsTextAppends(fields: seq<Field>, f: Field)
    requires fields != []
    ensures FieldsText(fields + [f]) == FieldsText(fields) + ['&'] + FieldText(f)
  {
    hide FieldText;
    if |fields| == 1 {
      assert (fields + [f])[1..] == [f];
    } else {
      assert (fields + [f])[1..] == fields[1..] + [f];
      FieldsTextAppends(fields[1..], f);
    }
  }

  // ---------- The paths of the SDK ----------

  datatype LobbyQuery = LobbyQuery(hasFreeSlot: bool, limit: U8)

  function BoolText(b: bool): string {
    if b then "true" else "false"
  }

  function DecimalText(n: nat): string {
    if n < 10 then [(0x30 + n) as char] else DecimalText(n / 10) + [(0x30 + n % 10) as char]
  }

  lemma {:induction false} DecimalReads(n: nat)
    ensures AllDigits(DecimalText(n)) && Number(DecimalText(n)) == n
    decreases n
  {
    var s := DecimalText(n);
    if n < 10 {
      assert s[..0] == "";
    } else {
      DecimalReads(n / 10);
      assert s[..|s| - 1] == DecimalText(n / 10);
    }
  }

  /** Text whose characters all stand for themselves in a query. */
  predicate IsVerbatim(s: string) {
    forall i :: 0 <= i < |s| ==> s[i] < '\U{80}' && IsUnreserved(s[i] as int)
  }

  lemma {:induction false} VerbatimEncodes(s: string)
    requires IsVerbatim(s)
    ensures Encoded(Utf8(s)) == s && IsPlain(s)
  {
    if s != "" {
      VerbatimEncodes(s[1..]);
      assert Utf8(s)[1..] == Utf8(s[1..]);
    }
  }

  /** The fields of a search: the two options, then the filters in the map's order. */
  function SearchFields(query: LobbyQuery, filters: map<string, string>, order: seq<string>): (fields: seq<Field>)
    requires forall k :: k in order ==> k in filters
    ensures |fields| >= 2
  {
    [Field("has_free_slot", Utf8(BoolText(query.hasFreeSlot))), Field("limit", Utf8(DecimalText(query.limit)))]
    + FilterFields(filters, order)
  }

  function FilterFields(filters: map<string, string>, order: seq<string>): seq<Field>
    requires forall k :: k in order ==> k in filters
  {
    if order == [] then []
    else
      var n := |order| - 1;
      FilterFields(filters, order[..n]) + [Field("meta." + order[n], Utf8(filters[order[n]]))]
  }

  function SearchBase(gameId: string): string {
    GAMES_PATH_PREFIX + "/" + gameId + "/lobbies/search"
  }

  function SearchText(gameId: string, query: LobbyQuery, filters: map<string, string>, order: seq<string>): string
    requires forall k :: k in order ==> k in filters
  {
    SearchBase(gameId) + ['?'] + FieldsText(SearchFields(query, filters, order))
  }

  lemma OptionsText(query: LobbyQuery)
    ensures FieldsText([Field("has_free_slot", Utf8(BoolText(query.hasFreeSlot))), Field("limit", Utf8(DecimalText(query.limit)))])
         == "has_free_slot=" + BoolText(query.hasFreeSlot) + "&limit=" + DecimalText(query.limit)
  {
    OptionsAreVerbatim(query);
    hide Encoded, Utf8, BoolText, DecimalText, IsVerbatim, IsPlain, FieldText, FieldsText;
    var free, limit := Field("has_free_slot", Utf8(BoolText(query.hasFreeSlot))), Field("limit", Utf8(DecimalText(query.limit)));
    TwoFields(free, limit);
    VerbatimField("has_free_slot", BoolText(query.hasFreeSlot));
    VerbatimField("limit", DecimalText(query.limit));
    assert ['&'] + ("limit" + ['='] + DecimalText(query.limit)) == "&limit=" + DecimalText(query.limit);
    assert "has_free_slot" + ['='] == "has_free_slot=";
  }

  lemma TwoFields(a: Field, b: Field)
    ensures FieldsText([a, b]) == FieldText(a) + (['&'] + FieldText(b))
  {
    hide FieldText;
    assert [a, b][1..] == [b];
  }

  lemma VerbatimField(name: string, value: string)
    requires IsVerbatim(value)
    ensures FieldText(Field(name, Utf8(value))) == name + ['='] + value
  {
    VerbatimEncodes(value);
  }

  lemma OptionsAreVerbatim(query: LobbyQuery)
    ensures IsVerbatim(BoolText(query.hasFreeSlot)) && IsVerbatim(DecimalText(query.limit))
  {
    DecimalReads(query.limit);
  }

  /** `order` is the order in which the map of filters iterates. */
  method SearchPath(gameId: string, query: LobbyQuery, filters: map<string, string>, order: seq<string>)
    returns (path: string)
    requires forall k :: k in order ==> k in filters
    ensures path == SearchText(gameId, query, filters, order)
    ensures IsGameId(gameId) && AreFilters(filters, order) ==> SearchTold(path, gameId, query, filters, order)
  {
    hide FieldsText, FieldText, Encoded, SearchBase, SearchFields, Utf8, SearchTold, AreFilters, IsGameId;
    if IsGameId(gameId) && AreFilters(filters, order) {
      SearchPathTells(gameId, query, filters, order);
    }
    path := GAMES_PATH_PREFIX + "/" + gameId + "/lobbies/search?has_free_slot=" + BoolText(query.hasFreeSlot)
          + "&limit=" + DecimalText(query.limit);
    SearchStarts(gameId, query, filters, path);
    assert order[..0] == [];
    for i := 0 to |order|
      invariant path == SearchBase(gameId) + ['?'] + FieldsText(SearchFields(query, filters, order[..i]))
    {
      var key := order[i];
      var value := EncodeQuery(filters[key]);
      assert order[..i + 1] == order[..i] + [key];
      ghost var before, f := SearchFields(query, filters, order[..i]), Field("meta." + key, Utf8(filters[key]));
      OneMoreField(query, filters, order[..i], key);
      FieldsTextAppends(before, f);
      FilterText(key, filters[key]);
      Reassociate(FieldsText(before), ['&'], FieldText(f));
      Reassociate(SearchBase(gameId) + ['?'], FieldsText(before), ['&'] + FieldText(f));
      path := path + ("&meta." + key + "=" + value);
    }
    assert order[..|order|] == order;
  }

  lemma SearchWords(gameId: string, free: string, limit: string)
    ensures GAMES_PATH_PREFIX + "/" + gameId + "/lobbies/search?has_free_slot=" + free + "&limit=" + limit
         == SearchBase(gameId) + ['?'] + ("has_free_slot=" + free + "&limit=" + limit)
  {
    assert "/lobbies/search?has_free_slot=" == "/lobbies/search" + ['?'] + "has_free_slot=";
  }

  lemma SearchStarts(gameId: string, query: LobbyQuery, filters: map<string, string>, path: string)
    requires path == GAMES_PATH_PREFIX + "/" + gameId + "/lobbies/search?has_free_slot=" + BoolText(query.hasFreeSlot)
          + "&limit=" + DecimalText(query.limit)
    ensures path == SearchBase(gameId) + ['?'] + FieldsText(SearchFields(query, filters, []))
  {
    OptionsText(query);
    hide FieldsText, BoolText, DecimalText, Utf8, SearchBase;
    SearchWords(gameId, BoolText(query.hasFreeSlot), DecimalText(query.limit));
    var options := [Field("has_free_slot", Utf8(BoolText(query.hasFreeSlot))), Field("limit", Utf8(DecimalText(query.limit)))];
    assert SearchFields(query, filters, []) == options;
  }

  lemma OneMoreField(query: LobbyQuery, filters: map<string, string>, order: seq<string>, key: string)
    requires key in filters && forall k :: k in order ==> k in filters
    ensures SearchFields(query, filters, order + [key])
         == SearchFields(query, filters, order) + [Field("meta." + key, Utf8(filters[key]))]
  {
    hide Utf8, BoolText, DecimalText;
    assert (order + [key])[..|order|] == order;
    var f := Field("meta." + key, Utf8(filters[key]));
    var options := SearchFields(query, filters, []);
    assert SearchFields(query, filters, order) == options + FilterFields(filters, order);
    assert options + (FilterFields(filters, order) + [f]) == options + FilterFields(filters, order) + [f];
  }

  lemma Reassociate(a: string, b: string, c: string)
    ensures a + b + c == a + (b + c)
  {
  }

  lemma FilterText(key: string, value: string)
    ensures ['&'] + FieldText(Field("meta." + key, Utf8(value))) == "&meta." + key + "=" + Encoded(Utf8(value))
  {
    hide Encoded, Utf8;
  }

  // ---------- A path determines its query ----------

  const MAX_GAME_ID_LEN := 256

  predicate IsGameIdChar(c: char) {
    ('A' <= c <= 'Z') || ('a' <= c <= 'z') || ('0' <= c <= '9') || c == '_' || c == '-' || c == '.'
  }

  /** The game ids that pass validation. */
  predicate IsGameId(id: string) {
    0 < |id| <= MAX_GAME_ID_LEN && forall i :: 0 <= i < |id| ==> IsGameIdChar(id[i])
  }

  /** Filters that pass validation, with every key in the order. */
  ghost predicate AreFilters(filters: map<string, string>, order: seq<string>) {
    && (forall k :: k in order <==> k in filters)
    && (forall k :: k in filters ==> IsKey(k))
  }

  lemma KeysArePlain(key: string)
    requires IsKey(key)
    ensures IsPlain("meta." + key)
  {
    var s := "meta." + key;
    forall i | 0 <= i < |s|
      ensures s[i] != '?' && s[i] != '&' && s[i] != '=' && s[i] != '#'
    {
      assert i >= 5 ==> IsKeyChar(key[i - 5]);
    }
  }

  lemma {:induction false} FiltersInOrder(filters: map<string, string>, order: seq<string>)
    requires forall k :: k in order ==> k in filters
    ensures |FilterFields(filters, order)| == |order|
    ensures forall i :: 0 <= i < |order| ==>
      FilterFields(filters, order)[i] == Field("meta." + order[i], Utf8(filters[order[i]]))
  {
    hide Utf8;
    if order != [] {
      FiltersInOrder(filters, order[..|order| - 1]);
    }
  }

  lemma SearchNamesArePlain(query: LobbyQuery, filters: map<string, string>, order: seq<string>)
    requires AreFilters(filters, order)
    ensures forall f :: f in SearchFields(query, filters, order) ==> IsPlain(f.name)
  {
    hide Utf8, IsPlain, IsKey, BoolText, DecimalText;
    var fields := SearchFields(query, filters, order);
    forall j | 0 <= j < |fields|
      ensures IsPlain(fields[j].name)
    {
      OptionNamesArePlain();
      if j >= 2 {
        FiltersInOrder(filters, order);
        assert order[j - 2] in filters;
        KeysArePlain(order[j - 2]);
      }
    }
  }

  lemma OptionNamesArePlain()
    ensures IsPlain("has_free_slot") && IsPlain("limit")
  {
  }

  lemma RoutesArePlain(gameId: string)
    requires IsGameId(gameId)
    ensures '?' !in SearchBase(gameId) && '?' !in EventsBase(gameId)
  {
  }

  /** Cutting a search path at `?`, `&` and `=` and decoding gives its fields. */
  lemma SearchPathIsRead(gameId: string, query: LobbyQuery, filters: map<string, string>, order: seq<string>)
    requires IsGameId(gameId) && AreFilters(filters, order)
    ensures ReadPath(SearchText(gameId, query, filters, order)) == Some((SearchBase(gameId), SearchFields(query, filters, order)))
  {
    RoutesArePlain(gameId);
    SearchNamesArePlain(query, filters, order);
    hide SearchBase, FieldsText, IsPlain, ReadPath;
    PathIsRead(SearchBase(gameId), SearchFields(query, filters, order));
  }

  /** Two searches with the same path are the same search. */
  lemma SearchPathDeterminesQuery(
    gameId: string, query: LobbyQuery, filters: map<string, string>, order: seq<string>,
    gameId': string, query': LobbyQuery, filters': map<string, string>, order': seq<string>)
    requires IsGameId(gameId) && AreFilters(filters, order)
    requires IsGameId(gameId') && AreFilters(filters', order')
    requires SearchText(gameId, query, filters, order) == SearchText(gameId', query', filters', order')
    ensures gameId == gameId' && query == query' && filters == filters'
  {
    hide SearchText, SearchBase, SearchFields, IsGameId, ReadPath;
    SearchPathIsRead(gameId, query, filters, order);
    SearchPathIsRead(gameId', query', filters', order');
    SameBase(gameId, gameId');
    SameOptions(query, filters, order, query', filters', order');
    SameFilters(query, filters, order, query', filters', order');
    SameFilters(query', filters', order', query, filters, order);
  }

  lemma SameBase(gameId: string, gameId': string)
    requires SearchBase(gameId) == SearchBase(gameId')
    ensures gameId == gameId'
  {
    var start := GAMES_PATH_PREFIX + "/";
    assert |gameId| == |gameId'|;
    assert SearchBase(gameId)[|start|..|start| + |gameId|] == gameId;
    assert SearchBase(gameId')[|start|..|start| + |gameId|] == gameId';
  }

  lemma SameOptions(
    query: LobbyQuery, filters: map<string, string>, order: seq<string>,
    query': LobbyQuery, filters': map<string, string>, order': seq<string>)
    requires AreFilters(filters, order) && AreFilters(filters', order')
    requires SearchFields(query, filters, order) == SearchFields(query', filters', order')
    ensures query == query'
  {
    hide Utf8, DecimalText, Number, AllDigits, FilterFields;
    assert SearchFields(query, filters, order)[0].value == Utf8(BoolText(query.hasFreeSlot));
    assert SearchFields(query, filters, order)[1].value == Utf8(DecimalText(query.limit));
    assert SearchFields(query', filters', order')[0].value == Utf8(BoolText(query'.hasFreeSlot));
    assert SearchFields(query', filters', order')[1].value == Utf8(DecimalText(query'.limit));
    Utf8IsInjective(BoolText(query.hasFreeSlot), BoolText(query'.hasFreeSlot));
    Utf8IsInjective(DecimalText(query.limit), DecimalText(query'.limit));
    assert |BoolText(query.hasFreeSlot)| == |BoolText(query'.hasFreeSlot)|;
    DecimalReads(query.limit);
    DecimalReads(query'.limit);
  }

  /** Every filter of the one search is a filter of the other. */
  lemma SameFilters(
    query: LobbyQuery, filters: map<string, string>, order: seq<string>,
    query': LobbyQuery, filters': map<string, string>, order': seq<string>)
    requires AreFilters(filters, order) && AreFilters(filters', order')
    requires SearchFields(query, filters, order) == SearchFields(query', filters', order')
    ensures forall k :: k in filters ==> k in filters' && filters'[k] == filters[k]
  {
    hide Utf8, DecimalText, BoolText;
    assert SearchFields(query, filters, order)[2..] == FilterFields(filters, order);
    assert SearchFields(query', filters', order')[2..] == FilterFields(filters', order');
    FiltersInOrder(filters, order);
    FiltersInOrder(filters', order');
    forall k | k in filters
      ensures k in filters' && filters'[k] == filters[k]
    {
      var i :| 0 <= i < |order| && order[i] == k;
      assert ("meta." + order[i])[5..] == order[i] && ("meta." + order'[i])[5..] == order'[i];
      assert k == order'[i] && order'[i] in order';
      Utf8IsInjective(filters[k], filters'[k]);
    }
  }

  /** What the metadata checks accept may be searched for. */
  lemma {:induction false} AcceptedKeysAreKeys(pairs: seq<Pair>)
    requires FirstFault(pairs).None?
    ensures forall k :: k in MapOf(pairs) ==> IsKey(k)
  {
    NoFaultMeansValid(pairs);
    hide IsKey, FirstFault;
    forall k | k in MapOf(pairs)
      ensures IsKey(k)
    {
      MapHasTheKeys(pairs, k);
      var i :| 0 <= i < |pairs| && pairs[i].key == k;
      assert PairIsValid(pairs[i]);
    }
  }

  /** A number as it is written: digits, none of them a leading zero. */
  ghost predicate IsWritten(text: string, n: nat) {
    AllDigits(text) && Number(text) == n && text != "" && (|text| > 1 ==> text[0] != '0')
  }

  /**
    What a search path says to whoever cuts it at `?`, `&` and `=` and decodes:
    the route, whether a free slot is asked for, the limit, and for each key in
    the order its value.
   */
  ghost predicate SearchTold(path: string, gameId: string, query: LobbyQuery, filters: map<string, string>, order: seq<string>)
    requires forall k :: k in order ==> k in filters
  {
    var read := ReadPath(path);
    && read.Some?
    && read.value.0 == "/v1/games/" + gameId + "/lobbies/search"
    && (var fields := read.value.1;
        && |fields| == 2 + |order|
        && fields[0] == Field("has_free_slot", Utf8(if query.hasFreeSlot then "true" else "false"))
        && fields[1].name == "limit"
        && (exists text :: fields[1].value == Utf8(text) && IsWritten(text, query.limit))
        && (forall i :: 0 <= i < |order| ==> fields[2 + i] == Field("meta." + order[i], Utf8(filters[order[i]]))))
  }

  lemma {:induction false} DecimalIsWritten(n: nat)
    ensures IsWritten(DecimalText(n), n) && (n > 0 ==> DecimalText(n)[0] != '0')
    decreases n
  {
    DecimalReads(n);
    hide AllDigits, Number;
    if n >= 10 {
      DecimalIsWritten(n / 10);
    }
  }

  lemma SearchPathTells(gameId: string, query: LobbyQuery, filters: map<string, string>, order: seq<string>)
    requires IsGameId(gameId) && AreFilters(filters, order)
    ensures SearchTold(SearchText(gameId, query, filters, order), gameId, query, filters, order)
  {
    SearchBaseIs(gameId);
    hide ReadPath, SearchText, SearchBase, Utf8, FilterFields, DecimalText, IsWritten, IsGameId;
    SearchPathIsRead(gameId, query, filters, order);
    DecimalIsWritten(query.limit);
    var fields := SearchFields(query, filters, order);
    assert fields[1].value == Utf8(DecimalText(query.limit));
    FiltersInOrder(filters, order);
    assert fields[2..] == FilterFields(filters, order);
    forall i | 0 <= i < |order|
      ensures fields[2 + i] == Field("meta." + order[i], Utf8(filters[order[i]]))
    {
      assert fields[2 + i] == FilterFields(filters, order)[i];
    }
  }

  lemma SearchBaseIs(gameId: string)
    ensures SearchBase(gameId) == "/v1/games/" + gameId + "/lobbies/search"
  {
    assert GAMES_PATH_PREFIX + "/" == "/v1/games/";
  }

  // ---------- The event poll ----------

  function EventsBase(gameId: string): string {
    GAMES_PATH_PREFIX + "/" + gameId + "/lobbies/events"
  }

  /** Either no query at all, or one field that decodes to the cursor's bytes. */
  method EventsPath(gameId: string, cursor: Option<string>) returns (path: string)
    requires IsGameId(gameId)
    ensures cursor.None? ==> path == "/v1/games/" + gameId + "/lobbies/events" && '?' !in path
    ensures cursor.Some? ==>
      ReadPath(path) == Some(("/v1/games/" + gameId + "/lobbies/events", [Field("after", Utf8(cursor.value))]))
    ensures path == EventsText(gameId, cursor)
  {
    hide ReadPath, Encoded, Utf8;
    assert GAMES_PATH_PREFIX + "/" == "/v1/games/";
    EventsPathIsRead(gameId, cursor);
    path := GAMES_PATH_PREFIX + "/" + gameId + "/lobbies/events";
    if cursor.Some? {
      var encoded := EncodeQuery(cursor.value);
      path := path + "?after=" + encoded;
    }
  }

  function EventsText(gameId: string, cursor: Option<string>): string {
    if cursor.None? then EventsBase(gameId) else EventsBase(gameId) + "?after=" + Encoded(Utf8(cursor.value))
  }

  lemma EventsPathIsRead(gameId: string, cursor: Option<string>)
    requires IsGameId(gameId)
    ensures '?' !in EventsBase(gameId)
    ensures cursor.Some? ==> ReadPath(EventsText(gameId, cursor)) == Some((EventsBase(gameId), [Field("after", Utf8(cursor.value))]))
  {
    if cursor.Some? {
      var f := Field("after", Utf8(cursor.value));
      AfterText(EventsBase(gameId), cursor.value);
      AfterIsPlain();
      hide Encoded, Utf8, EventsBase, ReadPath, IsGameId, FieldsText, IsPlain;
      RoutesArePlain(gameId);
      PathIsRead(EventsBase(gameId), [f]);
    }
  }

  lemma AfterIsPlain()
    ensures IsPlain("after")
  {
  }

  lemma AfterText(base: string, cursor: string)
    ensures base + "?after=" + Encoded(Utf8(cursor)) == base + ['?'] + FieldsText([Field("after", Utf8(cursor))])
  {
    hide Encoded, Utf8;
    assert "?after=" == ['?'] + ("after" + ['=']);
  }

  /** Whatever a cursor holds, no other cursor gives the same path. */
  lemma EventsPathDeterminesCursor(gameId: string, cursor: Option<string>, cursor': Option<string>)
    requires IsGameId(gameId)
    requires EventsText(gameId, cursor) == EventsText(gameId, cursor')
    ensures cursor == cursor'
  {
    hide Utf8, Encoded, ReadPath, EventsBase;
    EventsPathIsRead(gameId, cursor);
    EventsPathIsRead(gameId, cursor');
    if cursor.Some? && cursor'.Some? {
      assert [Field("after", Utf8(cursor.value))][0] == [Field("after", Utf8(cursor'.value))][0];
      Utf8IsInjective(cursor.value, cursor'.value);
    }
  }
}
