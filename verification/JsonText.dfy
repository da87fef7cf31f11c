/**
  The JSON reader of the Unity bindings, as functions from a text to a tree and
  what is left of the text; and the texts it is meant to read, as documents
  that keep every spelling choice. Texts are UTF-16 code units.
 */
module JsonText {

  type Unit = c: int | 0 <= c < 0x1_0000
  type Text = seq<Unit>

  const QUOTE: Unit := 0x22
  const COMMA: Unit := 0x2C
  const SLASH: Unit := 0x2F
  const COLON: Unit := 0x3A
  const LBRACKET: Unit := 0x5B
  const BACKSLASH: Unit := 0x5C
  const RBRACKET: Unit := 0x5D
  const LBRACE: Unit := 0x7B
  const RBRACE: Unit := 0x7D
  const LOWER_U: Unit := 0x75
  const TRUE: Text := [0x74, 0x72, 0x75, 0x65]
  const FALSE: Text := [0x66, 0x61, 0x6C, 0x73, 0x65]
  const NULL: Text := [0x6E, 0x75, 0x6C, 0x6C]

  datatype Json =
    | Null
    | Bool(flag: bool)
    | Number(digits: Text)
    | String(chars: Text)
    | Array(items: seq<Json>)
    | Object(members: map<Text, Json>)

  datatype Parsed<+T> = Malformed | Ok(value: T, rest: Text)

  // ---------- The reader ----------

  predicate IsSpace(c: Unit) {
    c == 0x20 || c == 0x09 || c == 0x0A || c == 0x0D
  }

  predicate IsNumberUnit(c: Unit) {
    (0x30 <= c <= 0x39) || c == 0x2E || c == 0x65 || c == 0x45 || c == 0x2B || c == 0x2D
  }

  function SkipSpace(s: Text): (r: Text)
    ensures |r| <= |s|
  {
    if s != [] && IsSpace(s[0]) then SkipSpace(s[1..]) else s
  }

  /** What an escape letter other than `u` stands for. */
  function EscapeMeaning(letter: Unit): int {
    if letter == QUOTE || letter == BACKSLASH || letter == SLASH then letter
    else if letter == 0x62 then 0x08
    else if letter == 0x66 then 0x0C
    else if letter == 0x6E then 0x0A
    else if letter == 0x72 then 0x0D
    else if letter == 0x74 then 0x09
    else -1
  }

  function HexDigit(c: Unit): int {
    if 0x30 <= c <= 0x39 then c - 0x30
    else if 0x41 <= c <= 0x46 then c - 0x41 + 10
    else if 0x61 <= c <= 0x66 then c - 0x61 + 10
    else -1
  }

  predicate IsParseWhite(c: Unit) {
    c == 0x20 || 0x09 <= c <= 0x0D
  }

  /** Where the run of white space at `i` ends. */
  function AfterWhite(s: Text, i: nat): (j: nat)
    requires i <= |s|
    ensures i <= j <= |s|
    decreases |s| - i
  {
    if i < |s| && IsParseWhite(s[i]) then AfterWhite(s, i + 1) else i
  }

  /** Where the run of hexadecimal digits at `i` ends. */
  function AfterHex(s: Text, i: nat): (j: nat)
    requires i <= |s|
    ensures i <= j <= |s|
    ensures forall k :: i <= k < j ==> HexDigit(s[k]) >= 0
    decreases |s| - i
  {
    if i < |s| && HexDigit(s[i]) >= 0 then AfterHex(s, i + 1) else i
  }

  function HexNumber(digits: Text): (n: int)
    requires forall k :: 0 <= k < |digits| ==> HexDigit(digits[k]) >= 0
    ensures 0 <= n && (|digits| <= 4 ==> n < [1, 0x10, 0x100, 0x1000, 0x1_0000][|digits|])
  {
    if digits == [] then 0
    else HexNumber(digits[..|digits| - 1]) * 16 + HexDigit(digits[|digits| - 1])
  }

  /**
    `int.TryParse` with `NumberStyles.HexNumber` on four units: digits, with
    white space around them and NULs at the end allowed; -1 when it refuses.
   */
  function HexValue(four: Text): (n: int)
    requires |four| == 4
    ensures -1 <= n < 0x1_0000
  {
    var start := AfterWhite(four, 0);
    var end := AfterHex(four, start);
    var tail := AfterWhite(four, end);
    if start == end || exists k :: tail <= k < 4 && four[k] != 0 then -1
    else HexNumber(four[start..end])
  }

  /** After a backslash. */
  function PEscape(s: Text): (r: Parsed<Unit>)
    ensures r.Ok? ==> |r.rest| < |s|
  {
    if s == [] then Malformed
    else if s[0] == LOWER_U then
      if |s| < 5 || HexValue(s[1..5]) < 0 then Malformed else Ok(HexValue(s[1..5]), s[5..])
    else if EscapeMeaning(s[0]) < 0 then Malformed
    else Ok(EscapeMeaning(s[0]), s[1..])
  }

  /** After the opening quote. */
  function PString(s: Text, done: Text): (r: Parsed<Text>)
    ensures r.Ok? ==> |r.rest| < |s|
    decreases |s|
  {
    if s == [] then Malformed
    else if s[0] == QUOTE then Ok(done, s[1..])
    else if s[0] != BACKSLASH then PString(s[1..], done + [s[0]])
    else
      var c := PEscape(s[1..]);
      if c.Malformed? then Malformed else PString(c.rest, done + [c.value])
  }

  /** How many number units `s` begins with. */
  function NumberRun(s: Text): (n: nat)
    ensures n <= |s|
    ensures forall k :: 0 <= k < n ==> IsNumberUnit(s[k])
    ensures n < |s| ==> !IsNumberUnit(s[n])
  {
    if s != [] && IsNumberUnit(s[0]) then 1 + NumberRun(s[1..]) else 0
  }

  function PLiteral(s: Text, literal: Text, value: Json): (r: Parsed<Json>)
    requires literal != []
    ensures r.Ok? ==> |r.rest| < |s|
  {
    if literal <= s then Ok(value, s[|literal|..]) else Malformed
  }

  function PValue(s: Text): (r: Parsed<Json>)
    ensures r.Ok? ==> |r.rest| < |s|
    decreases |s|, 0
  {
    if s == [] then Malformed
    else if s[0] == LBRACE then PObject(s[1..])
    else if s[0] == LBRACKET then PArray(s[1..])
    else if s[0] == QUOTE then
      var chars := PString(s[1..], []);
      if chars.Ok? then Ok(String(chars.value), chars.rest) else Malformed
    else if s[0] == TRUE[0] then PLiteral(s, TRUE, Bool(true))
    else if s[0] == FALSE[0] then PLiteral(s, FALSE, Bool(false))
    else if s[0] == NULL[0] then PLiteral(s, NULL, Null)
    else
      var n := NumberRun(s);
      if n == 0 then Malformed else Ok(Number(s[..n]), s[n..])
  }

  /** After the opening brace. */
  function PObject(s: Text): (r: Parsed<Json>)
    ensures r.Ok? ==> |r.rest| < |s|
    decreases |s|, 2
  {
    var s := SkipSpace(s);
    if s != [] && s[0] == RBRACE then Ok(Object(map[]), s[1..]) else PMembers(s, map[])
  }

  /** One member, with the white space around its parts. */
  function PMember(s: Text): (r: Parsed<(Text, Json)>)
    ensures r.Ok? ==> |r.rest| < |s|
    decreases |s|, 0
  {
    var s := SkipSpace(s);
    if s == [] || s[0] != QUOTE then Malformed
    else
      var name := PString(s[1..], []);
      if name.Malformed? then Malformed
      else
        var s := SkipSpace(name.rest);
        if s == [] || s[0] != COLON then Malformed
        else
          var value := PValue(SkipSpace(s[1..]));
          if value.Malformed? then Malformed
          else Ok((name.value, value.value), SkipSpace(value.rest))
  }

  /** The members still to come; a name seen before is overwritten. */
  function PMembers(s: Text, done: map<Text, Json>): (r: Parsed<Json>)
    ensures r.Ok? ==> |r.rest| < |s|
    decreases |s|, 1
  {
    var member := PMember(s);
    if member.Malformed? then Malformed
    else
      var s := member.rest;
      var done := done[member.value.0 := member.value.1];
      if s == [] then Malformed
      else if s[0] == COMMA then PMembers(s[1..], done)
      else if s[0] == RBRACE then Ok(Object(done), s[1..])
      else Malformed
  }

  /** After the opening bracket. */
  function PArray(s: Text): (r: Parsed<Json>)
    ensures r.Ok? ==> |r.rest| < |s|
    decreases |s|, 2
  {
    var s := SkipSpace(s);
    if s != [] && s[0] == RBRACKET then Ok(Array([]), s[1..]) else PItems(s, [])
  }

  function PItems(s: Text, done: seq<Json>): (r: Parsed<Json>)
    ensures r.Ok? ==> |r.rest| < |s|
    decreases |s|, 1
  {
    var value := PValue(SkipSpace(s));
    if value.Malformed? then Malformed
    else
      var s := SkipSpace(value.rest);
      var done := done + [value.value];
      if s == [] then Malformed
      else if s[0] == COMMA then PItems(s[1..], done)
      else if s[0] == RBRACKET then Ok(Array(done), s[1..])
      else Malformed
  }

  /** A whole document: one value, white space around it, nothing else. */
  function PDocument(text: Text): Parsed<Json> {
    var value := PValue(SkipSpace(text));
    if value.Ok? && SkipSpace(value.rest) == [] then Ok(value.value, []) else Malformed
  }

  // ---------- Documents ----------

  /** One character of a string, as it may be written. */
  datatype Piece = Plain(c: Unit) | Escape(letter: Unit) | Hex(digits: Text) {
    predicate Valid() {
      match this
      case Plain(c) => c != QUOTE && c != BACKSLASH
      case Escape(letter) => letter != LOWER_U && EscapeMeaning(letter) >= 0
      case Hex(digits) => |digits| == 4 && HexValue(digits) >= 0
    }

    function Text(): Text {
      match this
      case Plain(c) => [c]
      case Escape(letter) => [BACKSLASH, letter]
      case Hex(digits) => [BACKSLASH, LOWER_U] + digits
    }

    function Char(): Unit
      requires Valid()
    {
      match this
      case Plain(c) => c
      case Escape(letter) => EscapeMeaning(letter)
      case Hex(digits) => HexValue(digits)
    }
  }

  predicate AllSpace(s: Text) {
    forall i :: 0 <= i < |s| ==> IsSpace(s[i])
  }

  predicate PiecesValid(pieces: seq<Piece>) {
    forall i :: 0 <= i < |pieces| ==> pieces[i].Valid()
  }

  function PiecesText(pieces: seq<Piece>): Text {
    if pieces == [] then [] else pieces[0].Text() + PiecesText(pieces[1..])
  }

  function PiecesChars(pieces: seq<Piece>): Text
    requires PiecesValid(pieces)
  {
    if pieces == [] then [] else [pieces[0].Char()] + PiecesChars(pieces[1..])
  }

  /** A value with every choice of spelling: white space, escapes, the order of members. */
  datatype Doc =
    | DNull
    | DBool(flag: bool)
    | DNumber(digits: Text)
    | DString(pieces: seq<Piece>)
    | DEmptyArray(space: Text)
    | DArray(items: Items)
    | DEmptyObject(space: Text)
    | DObject(members: Members)

  datatype Items =
    | LastItem(before: Text, item: Doc, after: Text)
    | MoreItems(before: Text, item: Doc, after: Text, others: Items)

  datatype Members =
    | LastMember(before: Text, name: seq<Piece>, middle: Text, lead: Text, item: Doc, after: Text)
    | MoreMembers(before: Text, name: seq<Piece>, middle: Text, lead: Text, item: Doc, after: Text, others: Members)

  predicate Valid(d: Doc) {
    match d
    case DNumber(digits) => digits != [] && forall i :: 0 <= i < |digits| ==> IsNumberUnit(digits[i])
    case DString(pieces) => PiecesValid(pieces)
    case DEmptyArray(space) => AllSpace(space)
    case DEmptyObject(space) => AllSpace(space)
    case DArray(items) => ItemsValid(items)
    case DObject(members) => MembersValid(members)
    case _ => true
  }

  predicate ItemsValid(items: Items) {
    AllSpace(items.before) && AllSpace(items.after) && Valid(items.item) && (items.MoreItems? ==> ItemsValid(items.others))
  }

  predicate MembersValid(members: Members) {
    && AllSpace(members.before) && AllSpace(members.middle) && AllSpace(members.lead) && AllSpace(members.after)
    && PiecesValid(members.name) && Valid(members.item)
    && (members.MoreMembers? ==> MembersValid(members.others))
  }

  function Written(d: Doc): Text {
    match d
    case DNull => NULL
    case DBool(flag) => if flag then TRUE else FALSE
    case DNumber(digits) => digits
    case DString(pieces) => [QUOTE] + (PiecesText(pieces) + [QUOTE])
    case DEmptyArray(space) => [LBRACKET] + (space + [RBRACKET])
    case DArray(items) => [LBRACKET] + (ItemsWritten(items) + [RBRACKET])
    case DEmptyObject(space) => [LBRACE] + (space + [RBRACE])
    case DObject(members) => [LBRACE] + (MembersWritten(members) + [RBRACE])
  }

  function ItemsWritten(items: Items): Text {
    items.before + (Written(items.item) + (items.after
    + if items.MoreItems? then [COMMA] + ItemsWritten(items.others) else []))
  }

  function NameWritten(members: Members): Text {
    [QUOTE] + (PiecesText(members.name) + [QUOTE])
  }

  function MembersWritten(members: Members): Text {
    members.before + (NameWritten(members) + (members.middle + ([COLON] + (members.lead
    + (Written(members.item) + (members.after
    + if members.MoreMembers? then [COMMA] + MembersWritten(members.others) else []))))))
  }

  /** The tree a document stands for. */
  function Meaning(d: Doc): Json
    requires Valid(d)
  {
    match d
    case DNull => Null
    case DBool(flag) => Bool(flag)
    case DNumber(digits) => Number(digits)
    case DString(pieces) => String(PiecesChars(pieces))
    case DEmptyArray(_) => Array([])
    case DArray(items) => Array(ItemsMeaning(items))
    case DEmptyObject(_) => Object(map[])
    case DObject(members) => Object(MembersMeaning(members, map[]))
  }

  function ItemsMeaning(items: Items): seq<Json>
    requires ItemsValid(items)
  {
    [Meaning(items.item)] + if items.MoreItems? then ItemsMeaning(items.others) else []
  }

  /** Members one after the other, onto those already there: the last of a name counts. */
  function MembersMeaning(members: Members, done: map<Text, Json>): map<Text, Json>
    requires MembersValid(members)
  {
    var done := done[PiecesChars(members.name) := Meaning(members.item)];
    if members.MoreMembers? then MembersMeaning(members.others, done) else done
  }
}
