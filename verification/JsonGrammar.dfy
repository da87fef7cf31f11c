/**
  The reader reads every document as the tree it stands for, and it reads
  nothing but documents.
 */
module JsonGrammar {
  import opened JsonText

  // ---------- Documents are read ----------

  lemma {:induction false} SpaceIsSkipped(space: Text, s: Text)
    requires AllSpace(space) && (s == [] || !IsSpace(s[0]))
    ensures SkipSpace(space + s) == s
  {
    if space == [] {
      assert space + s == s;
    } else {
      assert (space + s)[1..] == space[1..] + s;
      SpaceIsSkipped(space[1..], s);
    }
  }

  lemma {:induction false} PiecesAreRead(pieces: seq<Piece>, post: Text, done: Text)
    requires PiecesValid(pieces)
    ensures PString(PiecesText(pieces) + ([QUOTE] + post), done) == Ok(done + PiecesChars(pieces), post)
    decreases pieces
  {
    hide PString, Piece.Text, Piece.Char, HexValue;
    var s := PiecesText(pieces) + ([QUOTE] + post);
    if pieces == [] {
      assert s == [QUOTE] + post;
      assert done + [] == done;
      QuoteEndsString(post, done);
    } else {
      var p, later := pieces[0], PiecesText(pieces[1..]) + ([QUOTE] + post);
      assert s == p.Text() + later;
      OnePieceIsRead(p, later, done);
      PiecesAreRead(pieces[1..], post, done + [p.Char()]);
      assert done + [p.Char()] + PiecesChars(pieces[1..]) == done + PiecesChars(pieces);
    }
  }

  lemma QuoteEndsString(post: Text, done: Text)
    ensures PString([QUOTE] + post, done) == Ok(done, post)
  {
    assert ([QUOTE] + post)[1..] == post;
  }

  lemma OnePieceIsRead(p: Piece, later: Text, done: Text)
    requires p.Valid()
    ensures PString(p.Text() + later, done) == PString(later, done + [p.Char()])
  {
    hide HexValue;
    var s := p.Text() + later;
    match p
    case Plain(c) => assert s[1..] == later;
    case Escape(letter) => assert s[1..][1..] == later;
    case Hex(digits) => assert s[1..][1..5] == digits && s[1..][5..] == later;
  }

  lemma {:induction false} DigitsAreRead(digits: Text, post: Text)
    requires forall i :: 0 <= i < |digits| ==> IsNumberUnit(digits[i])
    requires post == [] || !IsNumberUnit(post[0])
    ensures NumberRun(digits + post) == |digits|
  {
    if digits == [] {
      assert digits + post == post;
    } else {
      assert (digits + post)[1..] == digits[1..] + post;
      DigitsAreRead(digits[1..], post);
    }
  }

  /** A number must not be followed by what could be more of it. */
  predicate Ends(d: Doc, post: Text) {
    d.DNumber? ==> post == [] || !IsNumberUnit(post[0])
  }

  lemma WrittenBegins(d: Doc)
    requires Valid(d)
    ensures Written(d) != [] && !IsSpace(Written(d)[0]) && Written(d)[0] != RBRACKET
  {
  }

  lemma SpaceEndsNumbers(d: Doc, space: Text, x: Text)
    requires AllSpace(space) && x != [] && !IsNumberUnit(x[0])
    ensures Ends(d, space + x)
  {
  }

  lemma {:induction false} DocumentsAreRead(d: Doc, post: Text)
    requires Valid(d) && Ends(d, post)
    ensures PValue(Written(d) + post) == Ok(Meaning(d), post)
    decreases d, 1
  {
    match d
    case DArray(items) =>
      ArrayIsRead(items, post);
      BracketIsRead(LBRACKET, ItemsWritten(items), RBRACKET, post);
    case DObject(members) =>
      ObjectIsRead(members, post);
      BracketIsRead(LBRACE, MembersWritten(members), RBRACE, post);
    case _ =>
      LeafIsRead(d, post);
  }

  lemma BracketIsRead(open: Unit, inside: Text, close: Unit, post: Text)
    requires open == LBRACKET || open == LBRACE
    ensures PValue([open] + (inside + [close]) + post)
         == if open == LBRACKET then PArray(inside + ([close] + post)) else PObject(inside + ([close] + post))
  {
    hide PArray, PObject;
    var s := [open] + (inside + [close]) + post;
    assert s[0] == open && s[1..] == inside + ([close] + post);
  }

  lemma LeafIsRead(d: Doc, post: Text)
    requires Valid(d) && Ends(d, post) && !d.DArray? && !d.DObject?
    ensures PValue(Written(d) + post) == Ok(Meaning(d), post)
  {
    hide PString, PiecesText, PiecesChars, PArray, PObject, NumberRun, IsNumberUnit;
    var s := Written(d) + post;
    match d
    case DNull => assert NULL <= s && s[4..] == post;
    case DBool(flag) =>
      if flag {
        assert TRUE <= s && s[4..] == post;
      } else {
        assert FALSE <= s && s[5..] == post;
      }
    case DNumber(digits) => NumberIsRead(digits, post);
    case DString(pieces) =>
      assert s[1..] == PiecesText(pieces) + ([QUOTE] + post);
      PiecesAreRead(pieces, post, []);
      assert [] + PiecesChars(pieces) == PiecesChars(pieces);
    case DEmptyArray(space) =>
      BracketIsRead(LBRACKET, space, RBRACKET, post);
      EmptyIsRead(space, post);
    case DEmptyObject(space) =>
      BracketIsRead(LBRACE, space, RBRACE, post);
      EmptyIsRead(space, post);
  }

  lemma NumberIsRead(digits: Text, post: Text)
    requires Valid(DNumber(digits)) && Ends(DNumber(digits), post)
    ensures PValue(digits + post) == Ok(Number(digits), post)
  {
    hide PString, PArray, PObject;
    var s := digits + post;
    DigitsAreRead(digits, post);
    assert s[0] == digits[0];
    assert s[..|digits|] == digits && s[|digits|..] == post;
  }

  lemma EmptyIsRead(space: Text, post: Text)
    requires AllSpace(space)
    ensures PArray(space + ([RBRACKET] + post)) == Ok(Array([]), post)
    ensures PObject(space + ([RBRACE] + post)) == Ok(Object(map[]), post)
  {
    hide PMembers, PItems;
    SpaceIsSkipped(space, [RBRACKET] + post);
    SpaceIsSkipped(space, [RBRACE] + post);
    assert ([RBRACKET] + post)[1..] == post == ([RBRACE] + post)[1..];
  }

  lemma {:induction false} ArrayIsRead(items: Items, post: Text)
    requires ItemsValid(items)
    ensures PArray(ItemsWritten(items) + ([RBRACKET] + post)) == Ok(Array(ItemsMeaning(items)), post)
    decreases items, 2
  {
    hide PItems, Written, ItemsMeaning;
    var s := ItemsWritten(items) + ([RBRACKET] + post);
    var tail := if items.MoreItems? then [COMMA] + ItemsWritten(items.others) else [];
    var rest := Written(items.item) + (items.after + tail) + ([RBRACKET] + post);
    WrittenBegins(items.item);
    assert s == items.before + rest;
    SpaceIsSkipped(items.before, rest);
    ItemsAreRead(items, post, []);
    SkippingTwice(s);
    SkippingFirst(s, []);
    assert [] + ItemsMeaning(items) == ItemsMeaning(items);
  }

  lemma {:induction false} SkippingTwice(s: Text)
    ensures SkipSpace(SkipSpace(s)) == SkipSpace(s)
  {
    if s != [] && IsSpace(s[0]) {
      SkippingTwice(s[1..]);
    }
  }

  lemma {:induction false} SkippingFirst(s: Text, done: seq<Json>)
    ensures PItems(SkipSpace(s), done) == PItems(s, done)
  {
    SkippingTwice(s);
  }

  lemma SkippingFirstMember(s: Text, done: map<Text, Json>)
    ensures PMembers(SkipSpace(s), done) == PMembers(s, done)
  {
    SkippingTwice(s);
    assert PMember(SkipSpace(s)) == PMember(s);
  }

  /** What follows the first item. */
  function TailOfItems(items: Items, post: Text): Text {
    if items.MoreItems? then [COMMA] + (ItemsWritten(items.others) + ([RBRACKET] + post)) else [RBRACKET] + post
  }

  lemma ItemsFallApart(items: Items, post: Text)
    ensures ItemsWritten(items) + ([RBRACKET] + post)
         == items.before + (Written(items.item) + (items.after + TailOfItems(items, post)))
  {
    hide Written;
  }

  lemma {:induction false} ItemsAreRead(items: Items, post: Text, done: seq<Json>)
    requires ItemsValid(items)
    ensures PItems(ItemsWritten(items) + ([RBRACKET] + post), done) == Ok(Array(done + ItemsMeaning(items)), post)
    decreases items, 1
  {
    hide PValue, Written, Meaning, IsSpace, IsNumberUnit, ItemsWritten;
    var tail := TailOfItems(items, post);
    var rest := Written(items.item) + (items.after + tail);
    ItemsFallApart(items, post);
    WrittenBegins(items.item);
    SpaceIsSkipped(items.before, rest);
    DelimitersAreNeither();
    SpaceEndsNumbers(items.item, items.after, tail);
    DocumentsAreRead(items.item, items.after + tail);
    SpaceIsSkipped(items.after, tail);
    var done' := done + [Meaning(items.item)];
    if items.MoreItems? {
      ItemsAreRead(items.others, post, done');
      assert tail[1..] == ItemsWritten(items.others) + ([RBRACKET] + post);
      assert done' + ItemsMeaning(items.others) == done + ItemsMeaning(items);
    } else {
      assert tail[1..] == post;
      assert ItemsMeaning(items) == [Meaning(items.item)];
    }
  }

  lemma DelimitersAreNeither()
    ensures !IsSpace(COMMA) && !IsSpace(COLON) && !IsSpace(QUOTE) && !IsSpace(RBRACKET) && !IsSpace(RBRACE)
    ensures !IsNumberUnit(COMMA) && !IsNumberUnit(RBRACKET) && !IsNumberUnit(RBRACE)
  {
  }

  lemma {:induction false} ObjectIsRead(members: Members, post: Text)
    requires MembersValid(members)
    ensures PObject(MembersWritten(members) + ([RBRACE] + post)) == Ok(Object(MembersMeaning(members, map[])), post)
    decreases members, 2
  {
    hide PMembers, MembersMeaning, Written, IsSpace;
    var s := MembersWritten(members) + ([RBRACE] + post);
    var rest := s[|members.before|..];
    assert s == members.before + rest && rest[0] == QUOTE;
    DelimitersAreNeither();
    SpaceIsSkipped(members.before, rest);
    MembersAreRead(members, post, map[]);
    SkippingFirstMember(s, map[]);
  }

  /** What follows the value of the first member. */
  function TailOf(members: Members, post: Text): Text {
    if members.MoreMembers? then [COMMA] + (MembersWritten(members.others) + ([RBRACE] + post)) else [RBRACE] + post
  }

  lemma Reassociate(a: Text, b: Text, c: Text)
    ensures a + b + c == a + (b + c)
  {
  }

  lemma MemberReassociates(before: Text, name: Text, middle: Text, lead: Text, item: Text, after: Text, more: Text, end: Text)
    ensures before + (([QUOTE] + (name + [QUOTE])) + (middle + ([COLON] + (lead + (item + (after + more)))))) + end
         == before + ([QUOTE] + (name + ([QUOTE] + (middle + ([COLON] + (lead + (item + (after + (more + end)))))))))
  {
    var s6 := after + more;
    Reassociate(after, more, end);
    var s5 := item + s6;
    Reassociate(item, s6, end);
    var s4 := lead + s5;
    Reassociate(lead, s5, end);
    var s3 := [COLON] + s4;
    Reassociate([COLON], s4, end);
    var s2 := middle + s3;
    Reassociate(middle, s3, end);
    var quoted := [QUOTE] + (name + [QUOTE]);
    Reassociate(quoted, s2, end);
    Reassociate([QUOTE], name + [QUOTE], s2 + end);
    Reassociate(name, [QUOTE], s2 + end);
    Reassociate(before, quoted + s2, end);
  }

  lemma MembersFallApart(members: Members, post: Text)
    ensures MembersWritten(members) + ([RBRACE] + post)
         == members.before + ([QUOTE] + (PiecesText(members.name) + ([QUOTE] + (members.middle
            + ([COLON] + (members.lead + (Written(members.item) + (members.after + TailOf(members, post)))))))))
  {
    hide Written, PiecesText;
    var more := if members.MoreMembers? then [COMMA] + MembersWritten(members.others) else [];
    var end := [RBRACE] + post;
    MemberReassociates(members.before, PiecesText(members.name), members.middle, members.lead,
                       Written(members.item), members.after, more, end);
    assert more + end == TailOf(members, post) by {
      if members.MoreMembers? {
        Reassociate([COMMA], MembersWritten(members.others), end);
      } else {
        assert more + end == end;
      }
    }
  }

  lemma {:induction false} MembersAreRead(members: Members, post: Text, done: map<Text, Json>)
    requires MembersValid(members)
    ensures PMembers(MembersWritten(members) + ([RBRACE] + post), done)
         == Ok(Object(MembersMeaning(members, done)), post)
    decreases members, 1
  {
    hide PValue, PString, Written, Meaning, IsSpace, IsNumberUnit, PiecesText, PiecesChars, PiecesValid, MembersWritten;
    var tail := TailOf(members, post);
    var s4 := Written(members.item) + (members.after + tail);
    var s3 := [COLON] + (members.lead + s4);
    var s2 := PiecesText(members.name) + ([QUOTE] + (members.middle + s3));
    var s1 := [QUOTE] + s2;
    MembersFallApart(members, post);
    DelimitersAreNeither();
    SpaceIsSkipped(members.before, s1);
    assert s1[1..] == s2;
    PiecesAreRead(members.name, members.middle + s3, []);
    assert [] + PiecesChars(members.name) == PiecesChars(members.name);
    SpaceIsSkipped(members.middle, s3);
    assert s3[1..] == members.lead + s4;
    WrittenBegins(members.item);
    SpaceIsSkipped(members.lead, s4);
    SpaceEndsNumbers(members.item, members.after, tail);
    DocumentsAreRead(members.item, members.after + tail);
    SpaceIsSkipped(members.after, tail);
    var done' := done[PiecesChars(members.name) := Meaning(members.item)];
    if members.MoreMembers? {
      assert tail[1..] == MembersWritten(members.others) + ([RBRACE] + post);
      MembersAreRead(members.others, post, done');
    } else {
      assert tail[1..] == post;
    }
  }

  // ---------- Nothing else is read ----------

  function SpaceOf(s: Text): Text {
    s[..|s| - |SkipSpace(s)|]
  }

  lemma {:induction false} SpaceIsInFront(s: Text)
    ensures AllSpace(SpaceOf(s)) && s == SpaceOf(s) + SkipSpace(s)
    ensures SkipSpace(s) != [] ==> !IsSpace(SkipSpace(s)[0])
  {
    if s != [] && IsSpace(s[0]) {
      SpaceIsInFront(s[1..]);
      assert SpaceOf(s) == [s[0]] + SpaceOf(s[1..]);
    }
  }

  /** The first piece of a string that is read past it. */
  lemma {:induction false} FirstPiece(s: Text, done: Text) returns (p: Piece, later: Text)
    requires PString(s, done).Ok? && s[0] != QUOTE
    ensures p.Valid() && s == p.Text() + later && |later| < |s|
    ensures PString(s, done) == PString(later, done + [p.Char()])
  {
    hide HexValue;
    if s[0] != BACKSLASH {
      p, later := Plain(s[0]), s[1..];
    } else if s[1..][0] == LOWER_U {
      p, later := Hex(s[1..][1..5]), s[1..][5..];
    } else {
      p, later := Escape(s[1]), s[1..][1..];
    }
  }

  lemma {:induction false} StringIsPieces(s: Text, done: Text) returns (pieces: seq<Piece>)
    requires PString(s, done).Ok?
    ensures PiecesValid(pieces)
    ensures s == PiecesText(pieces) + ([QUOTE] + PString(s, done).rest)
    ensures PString(s, done).value == done + PiecesChars(pieces)
    decreases |s|
  {
    hide PString, Piece.Text, Piece.Char, Piece.Valid;
    StringHasAnEnd(s, done);
    if s[0] == QUOTE {
      pieces := [];
      assert done + PiecesChars([]) == done;
    } else {
      var p, later := FirstPiece(s, done);
      var others := StringIsPieces(later, done + [p.Char()]);
      pieces := [p] + others;
      assert pieces[1..] == others;
      assert done + [p.Char()] + PiecesChars(others) == done + PiecesChars(pieces);
    }
  }

  lemma StringHasAnEnd(s: Text, done: Text)
    requires PString(s, done).Ok?
    ensures s != [] && (s[0] == QUOTE ==> PString(s, done) == Ok(done, s[1..]))
  {
  }

  lemma NumberIsRun(s: Text)
    requires s != [] && NumberRun(s) > 0
    ensures var n := NumberRun(s);
      Valid(DNumber(s[..n])) && s == s[..n] + s[n..] && Ends(DNumber(s[..n]), s[n..])
  {
  }

  /** Whatever is read is a document, read as what it stands for. */
  lemma {:induction false} OnlyDocumentsAreRead(s: Text) returns (d: Doc)
    requires PValue(s).Ok?
    ensures Valid(d) && s == Written(d) + PValue(s).rest
    ensures Meaning(d) == PValue(s).value && Ends(d, PValue(s).rest)
    decreases |s|, 0
  {
    hide PObject, PArray, Written, Valid, Meaning;
    if s != [] && s[0] == LBRACE {
      assert s == [LBRACE] + s[1..];
      d := ObjectIsDocument(s[1..]);
    } else if s != [] && s[0] == LBRACKET {
      assert s == [LBRACKET] + s[1..];
      d := ArrayIsDocument(s[1..]);
    } else {
      d := LeafIsDocument(s);
    }
  }

  lemma {:induction false} LeafIsDocument(s: Text) returns (d: Doc)
    requires PValue(s).Ok? && (s == [] || (s[0] != LBRACE && s[0] != LBRACKET))
    ensures Valid(d) && s == Written(d) + PValue(s).rest
    ensures Meaning(d) == PValue(s).value && Ends(d, PValue(s).rest)
  {
    hide PString, PiecesText, PiecesChars, PiecesValid, NumberRun;
    if s[0] == QUOTE {
      var pieces := StringIsPieces(s[1..], []);
      d := DString(pieces);
      assert [] + PiecesChars(pieces) == PiecesChars(pieces);
    } else if s[0] == TRUE[0] {
      d := DBool(true);
    } else if s[0] == FALSE[0] {
      d := DBool(false);
    } else if s[0] == NULL[0] {
      d := DNull;
    } else {
      NumberIsRun(s);
      d := DNumber(s[..NumberRun(s)]);
    }
  }

  lemma BracketsComeTogether(open: Unit, inside: Text, close: Unit, s: Text, rest: Text)
    requires s == inside + ([close] + rest)
    ensures [open] + s == [open] + (inside + [close]) + rest
  {
  }

  lemma {:induction false} ArrayIsDocument(s: Text) returns (d: Doc)
    requires PArray(s).Ok?
    ensures Valid(d) && !d.DNumber? && [LBRACKET] + s == Written(d) + PArray(s).rest
    ensures Meaning(d) == PArray(s).value
    decreases |s|, 2
  {
    hide PItems, ItemsWritten, ItemsMeaning, ItemsValid, IsSpace, SkipSpace, AllSpace;
    var t := SkipSpace(s);
    SpaceIsInFront(s);
    if t != [] && t[0] == RBRACKET {
      assert t == [RBRACKET] + t[1..];
      BracketsComeTogether(LBRACKET, SpaceOf(s), RBRACKET, s, t[1..]);
      d := DEmptyArray(SpaceOf(s));
    } else {
      SkippingFirst(s, []);
      var items := ItemsAreItems(s, []);
      assert [] + ItemsMeaning(items) == ItemsMeaning(items);
      BracketsComeTogether(LBRACKET, ItemsWritten(items), RBRACKET, s, PItems(s, []).rest);
      d := DArray(items);
    }
  }

  lemma {:induction false} ItemsAreItems(s: Text, done: seq<Json>) returns (items: Items)
    requires PItems(s, done).Ok?
    ensures ItemsValid(items)
    ensures s == ItemsWritten(items) + ([RBRACKET] + PItems(s, done).rest)
    ensures PItems(s, done).value == Array(done + ItemsMeaning(items))
    decreases |s|, 1
  {
    hide PValue, Written, Valid, Meaning, IsSpace, AllSpace, ItemsWritten, SkipSpace;
    var before, s1 := SpaceOf(s), SkipSpace(s);
    SpaceIsInFront(s);
    var d := OnlyDocumentsAreRead(s1);
    var s2 := PValue(s1).rest;
    var after, s3 := SpaceOf(s2), SkipSpace(s2);
    SpaceIsInFront(s2);
    if s3[0] == COMMA {
      var others := ItemsAreItems(s3[1..], done + [PValue(s1).value]);
      items := MoreItems(before, d, after, others);
      assert done + [PValue(s1).value] + ItemsMeaning(others) == done + ItemsMeaning(items);
      assert s3 == [COMMA] + s3[1..];
      ItemsComeTogether(items, s, s1, s2, s3, PItems(s, done).rest);
    } else {
      items := LastItem(before, d, after);
      assert ItemsMeaning(items) == [PValue(s1).value];
      assert s3 == [RBRACKET] + s3[1..];
      ItemsComeTogether(items, s, s1, s2, s3, s3[1..]);
    }
  }

  lemma ItemsComeTogether(items: Items, s: Text, s1: Text, s2: Text, s3: Text, rest: Text)
    requires s == items.before + s1 && s1 == Written(items.item) + s2 && s2 == items.after + s3
    requires s3 == TailOfItems(items, rest)
    ensures s == ItemsWritten(items) + ([RBRACKET] + rest)
  {
    ItemsFallApart(items, rest);
  }

  lemma {:induction false} ObjectIsDocument(s: Text) returns (d: Doc)
    requires PObject(s).Ok?
    ensures Valid(d) && !d.DNumber? && [LBRACE] + s == Written(d) + PObject(s).rest
    ensures Meaning(d) == PObject(s).value
    decreases |s|, 2
  {
    hide PMembers, MembersWritten, MembersMeaning, MembersValid, IsSpace, SkipSpace, AllSpace;
    var t := SkipSpace(s);
    SpaceIsInFront(s);
    if t != [] && t[0] == RBRACE {
      assert t == [RBRACE] + t[1..];
      BracketsComeTogether(LBRACE, SpaceOf(s), RBRACE, s, t[1..]);
      d := DEmptyObject(SpaceOf(s));
    } else {
      SkippingFirstMember(s, map[]);
      var members := MembersAreMembers(s, map[]);
      BracketsComeTogether(LBRACE, MembersWritten(members), RBRACE, s, PMembers(s, map[]).rest);
      d := DObject(members);
    }
  }

  /** One member, and what follows it. */
  function MemberWritten(m: Members, rest: Text): Text {
    m.before + ([QUOTE] + (PiecesText(m.name) + ([QUOTE] + (m.middle
    + ([COLON] + (m.lead + (Written(m.item) + (m.after + rest))))))))
  }

  lemma {:induction false} MemberIsMember(s: Text) returns (m: Members)
    requires PMember(s).Ok?
    ensures m.LastMember? && MembersValid(m)
    ensures s == MemberWritten(m, PMember(s).rest)
    ensures PMember(s).value == (PiecesChars(m.name), Meaning(m.item))
    decreases |s|, 0
  {
    hide PValue, PString, Written, Valid, Meaning, IsSpace, SkipSpace, AllSpace, PiecesText, PiecesChars, PiecesValid;
    var s1 := SkipSpace(s);
    SpaceIsInFront(s);
    var pieces := StringIsPieces(s1[1..], []);
    var name := PString(s1[1..], []);
    assert [] + PiecesChars(pieces) == PiecesChars(pieces);
    var s2 := SkipSpace(name.rest);
    SpaceIsInFront(name.rest);
    assert s2 == [COLON] + s2[1..];
    var s3 := SkipSpace(s2[1..]);
    SpaceIsInFront(s2[1..]);
    var d := OnlyDocumentsAreRead(s3);
    var after := PValue(s3).rest;
    SpaceIsInFront(after);
    m := LastMember(SpaceOf(s), pieces, SpaceOf(name.rest), SpaceOf(s2[1..]), d, SpaceOf(after));
  }

  lemma {:induction false} MembersAreMembers(s: Text, done: map<Text, Json>) returns (members: Members)
    requires PMembers(s, done).Ok?
    ensures MembersValid(members)
    ensures s == MembersWritten(members) + ([RBRACE] + PMembers(s, done).rest)
    ensures PMembers(s, done).value == Object(MembersMeaning(members, done))
    decreases |s|, 1
  {
    hide PMember, Written, Valid, Meaning, AllSpace, PiecesText, PiecesChars, PiecesValid, MembersWritten;
    var m := MemberIsMember(s);
    var rest, pair := PMember(s).rest, PMember(s).value;
    if rest[0] == COMMA {
      var others := MembersAreMembers(rest[1..], done[pair.0 := pair.1]);
      members := MoreMembers(m.before, m.name, m.middle, m.lead, m.item, m.after, others);
    } else {
      members := m;
    }
    MembersFallApart(members, PMembers(s, done).rest);
    assert rest == TailOf(members, PMembers(s, done).rest);
  }

  // ---------- The whole reader ----------

  /** `text` is the document `d`, with white space around it. */
  ghost predicate Spells(text: Text, d: Doc) {
    Valid(d) && exists before, after :: AllSpace(before) && AllSpace(after) && text == before + (Written(d) + after)
  }

  /**
    The reader answers a tree exactly on the texts of documents, and then the
    tree that document stands for.
   */
  lemma ReadsExactlyDocuments(text: Text, j: Json)
    ensures PDocument(text) == Ok(j, []) <==> exists d :: Spells(text, d) && Meaning(d) == j
  {
    hide PValue, Written, Meaning;
    forall d | Spells(text, d)
      ensures PDocument(text) == Ok(Meaning(d), [])
    {
      SpelledIsRead(text, d);
    }
    if PDocument(text) == Ok(j, []) {
      var d := ReadIsSpelled(text);
    }
  }

  lemma SpelledIsRead(text: Text, d: Doc)
    requires Spells(text, d)
    ensures PDocument(text) == Ok(Meaning(d), [])
  {
    hide PValue, Written, Meaning;
    var before, after :| AllSpace(before) && AllSpace(after) && text == before + (Written(d) + after);
    WrittenBegins(d);
    SpaceIsSkipped(before, Written(d) + after);
    assert after == [] || !IsNumberUnit(after[0]);
    DocumentsAreRead(d, after);
    assert after + [] == after;
    SpaceIsSkipped(after, []);
  }

  lemma ReadIsSpelled(text: Text) returns (d: Doc)
    requires PDocument(text).Ok?
    ensures Spells(text, d) && Meaning(d) == PDocument(text).value
  {
    hide PValue, Written, Meaning, IsSpace;
    var s := SkipSpace(text);
    SpaceIsInFront(text);
    d := OnlyDocumentsAreRead(s);
    SpaceIsInFront(PValue(s).rest);
    assert PValue(s).rest == SpaceOf(PValue(s).rest) + [];
  }
}
