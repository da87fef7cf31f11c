/**
  The characters of the reader and the writer, told by their literals: which
  escapes mean what, what is white space, what a number may hold, and how the
  writer spells each character.
 */
module JsonCodes {
  import opened JsonText
  import opened JsonWriter

  const LOWER_DIGITS := "0123456789abcdef"
  const UPPER_DIGITS := "0123456789ABCDEF"

  function Code(c: char): Unit
    requires c < '\U{80}'
  {
    c as int
  }

  // ---------- The reader ----------

  /** What stands for what after a backslash; `\u` takes four digits and anything else is refused. */
  lemma EscapesMean(letter: Unit, later: Text)
    requires letter != Code('u')
    ensures PEscape([letter] + later)
         == if letter in {Code('"'), Code('\\'), Code('/')} then Ok(letter, later)
            else if letter == Code('b') then Ok(8, later)
            else if letter == Code('t') then Ok(9, later)
            else if letter == Code('n') then Ok(10, later)
            else if letter == Code('f') then Ok(12, later)
            else if letter == Code('r') then Ok(13, later)
            else Malformed
  {
    assert ([letter] + later)[1..] == later;
  }

  predicate IsDigitOf(c: Unit, n: Nibble) {
    c == Code(LOWER_DIGITS[n]) || c == Code(UPPER_DIGITS[n])
  }

  lemma DigitOf(c: Unit, n: Nibble)
    ensures IsDigitOf(c, n) ==> HexDigit(c) == n
  {
  }

  /** Four hexadecimal digits of either case stand for the number they write. */
  lemma FourDigitsMean(four: Text, a: Nibble, b: Nibble, c: Nibble, d: Nibble, later: Text)
    requires |four| == 4
    requires IsDigitOf(four[0], a) && IsDigitOf(four[1], b) && IsDigitOf(four[2], c) && IsDigitOf(four[3], d)
    ensures PEscape([Code('u')] + four + later) == Ok(((a as int * 16 + b) * 16 + c) * 16 + d, later)
  {
    DigitOf(four[0], a);
    DigitOf(four[1], b);
    DigitOf(four[2], c);
    DigitOf(four[3], d);
    FourHex(four);
    hide HexDigit, HexValue;
    var s := [Code('u')] + four + later;
    assert s[1..5] == four && s[5..] == later;
  }

  lemma FourHex(four: Text)
    requires |four| == 4 && forall i :: 0 <= i < 4 ==> HexDigit(four[i]) >= 0
    ensures HexValue(four)
         == ((HexDigit(four[0]) * 16 + HexDigit(four[1])) * 16 + HexDigit(four[2])) * 16 + HexDigit(four[3])
  {
    assert AfterHex(four, 3) == 4 && AfterHex(four, 2) == 4;
    assert AfterHex(four, 1) == 4 && AfterHex(four, 0) == 4;
    assert !IsParseWhite(four[0]);
    assert four[0..4] == four && four[..3][..2] == four[..2] && four[..2][..1] == four[..1] && four[..1][..0] == [];
    assert HexNumber(four[..1]) == HexDigit(four[0]);
    assert HexNumber(four[..2]) == HexDigit(four[0]) * 16 + HexDigit(four[1]);
    assert HexNumber(four[..3]) == (HexDigit(four[0]) * 16 + HexDigit(four[1])) * 16 + HexDigit(four[2]);
    assert HexValue(four) == HexNumber(four);
  }

  /** Fewer digits are taken too, with white space around them but with nothing else. */
  lemma WhiteMayStandAround(w: Unit, d: Unit)
    requires HexDigit(d) >= 0 && HexDigit(w) < 0
    ensures HexValue([w, d, d, w]) == if w == 0x20 || 9 <= w <= 13 then HexDigit(d) * 17 else -1
  {
    var four := [w, d, d, w];
    assert AfterHex(four, 3) == 3 && AfterHex(four, 2) == 3 && AfterHex(four, 1) == 3 && AfterHex(four, 0) == 0;
    assert !IsParseWhite(d) && AfterWhite(four, 1) == 1;
    if IsParseWhite(w) {
      assert AfterWhite(four, 0) == 1 && AfterWhite(four, 4) == 4 && AfterWhite(four, 3) == 4;
      TwoHex(d, four);
    } else {
      assert AfterWhite(four, 0) == 0;
    }
  }

  lemma TwoHex(d: Unit, four: Text)
    requires HexDigit(d) >= 0 && |four| == 4 && four[1..3] == [d, d]
    ensures HexNumber(four[1..3]) == HexDigit(d) * 17
  {
    assert [d, d][..1] == [d] && [d][..0] == [];
    assert HexNumber([d]) == HexDigit(d);
  }

  /** NULs may stand behind the digits; between two of them neither they nor white space may. */
  lemma NulsMayStandBehind(d: Unit)
    requires HexDigit(d) >= 0
    ensures HexValue([0x20, d, d, 0]) == HexDigit(d) * 17
    ensures HexValue([d, 0x20, d, d]) == HexValue([d, 0, d, d]) == HexValue([0, d, d, d]) == -1
  {
    var behind, apart, cut, front: Text := [0x20, d, d, 0], [d, 0x20, d, d], [d, 0, d, d], [0, d, d, d];
    assert !IsParseWhite(d);
    assert AfterWhite(behind, 1) == 1 && AfterWhite(behind, 0) == 1;
    assert AfterHex(behind, 3) == 3 && AfterHex(behind, 2) == 3 && AfterHex(behind, 1) == 3 && AfterWhite(behind, 3) == 3;
    TwoHex(d, behind);
    assert AfterWhite(apart, 0) == 0 && AfterHex(apart, 1) == 1 && AfterHex(apart, 0) == 1;
    assert AfterWhite(apart, 2) == 2 && AfterWhite(apart, 1) == 2 && apart[2] != 0;
    assert AfterWhite(cut, 0) == 0 && AfterHex(cut, 1) == 1 && AfterHex(cut, 0) == 1 && AfterWhite(cut, 1) == 1 && cut[2] != 0;
    assert AfterWhite(front, 0) == 0 && AfterHex(front, 0) == 0;
  }

  const EMPTY_ARRAY: Text := [Code('['), Code(']')]

  /** White space is space, tab, line feed and carriage return: nothing else may stand in front of a document. */
  lemma SpaceIs(c: Unit)
    ensures PDocument([c] + EMPTY_ARRAY) == Ok(Array([]), []) <==> c in {0x20, 0x09, 0x0A, 0x0D}
  {
    var s := [c] + EMPTY_ARRAY;
    assert s[1..] == EMPTY_ARRAY && EMPTY_ARRAY[1..] == [Code(']')] && [Code(']')][1..] == [];
    assert SkipSpace(EMPTY_ARRAY) == EMPTY_ARRAY && SkipSpace([Code(']')]) == [Code(']')];
    assert PValue(EMPTY_ARRAY) == Ok(Array([]), []);
    if !IsSpace(c) {
      assert SkipSpace(s) == s;
      NotAnArray(c);
    }
  }

  lemma NotAnArray(c: Unit)
    ensures PValue([c] + EMPTY_ARRAY) != Ok(Array([]), [])
  {
    var s := [c] + EMPTY_ARRAY;
    if c == LBRACKET {
      assert s[1..] == EMPTY_ARRAY && EMPTY_ARRAY[0] == LBRACKET && SkipSpace(EMPTY_ARRAY) == EMPTY_ARRAY;
      assert PArray(EMPTY_ARRAY) == PItems(EMPTY_ARRAY, []);
      ItemsAreNotEmpty(EMPTY_ARRAY, []);
    } else if c == LBRACE {
      ObjectsAreNotArrays(s[1..]);
    }
  }

  lemma {:induction false} ItemsAreNotEmpty(s: Text, done: seq<Json>)
    ensures PItems(s, done).Ok? ==> PItems(s, done).value.Array? && PItems(s, done).value.items != []
    decreases |s|
  {
    hide PValue, SkipSpace;
    var value := PValue(SkipSpace(s));
    if value.Ok? {
      var rest := SkipSpace(value.rest);
      if rest != [] && rest[0] == COMMA {
        ItemsAreNotEmpty(rest[1..], done + [value.value]);
      }
    }
  }

  lemma ObjectsAreNotArrays(s: Text)
    ensures PObject(s).Ok? ==> PObject(s).value.Object?
  {
    MembersAreObjects(SkipSpace(s), map[]);
  }

  lemma {:induction false} MembersAreObjects(s: Text, done: map<Text, Json>)
    ensures PMembers(s, done).Ok? ==> PMembers(s, done).value.Object?
    decreases |s|
  {
    hide PMember;
    var member := PMember(s);
    if member.Ok? && member.rest != [] && member.rest[0] == COMMA {
      MembersAreObjects(member.rest[1..], done[member.value.0 := member.value.1]);
    }
  }

  /** A number is made of digits, dots, signs and the letters of an exponent. */
  lemma NumberUnitsAre(c: Unit)
    ensures PDocument([c]) == Ok(Number([c]), [])
       <==> Code('0') <= c <= Code('9') || c in {Code('.'), Code('e'), Code('E'), Code('+'), Code('-')}
  {
    assert [c][1..] == [] && SkipSpace([c][1..]) == [];
    if IsNumberUnit(c) {
      assert NumberRun([c]) == 1 && [c][..1] == [c];
    }
  }

  /** The words and the shortest documents of each kind. */
  lemma WordsMean()
    ensures PDocument([Code('t'), Code('r'), Code('u'), Code('e')]) == Ok(Bool(true), [])
    ensures PDocument([Code('f'), Code('a'), Code('l'), Code('s'), Code('e')]) == Ok(Bool(false), [])
    ensures PDocument([Code('n'), Code('u'), Code('l'), Code('l')]) == Ok(Null, [])
    ensures PDocument([Code('"'), Code('"')]) == Ok(String([]), [])
    ensures PDocument([Code('{'), Code('}')]) == Ok(Object(map[]), [])
  {
    hide PItems, PMembers, NumberRun, PEscape;
    assert PValue(TRUE) == Ok(Bool(true), []) && PValue(FALSE) == Ok(Bool(false), []) && PValue(NULL) == Ok(Null, []);
    var quotes, braces: Text := [QUOTE, QUOTE], [LBRACE, RBRACE];
    assert quotes[1..] == [QUOTE] && [QUOTE][1..] == [] && PString([QUOTE], []) == Ok([], []);
    assert braces[1..] == [RBRACE] && [RBRACE][1..] == [] && SkipSpace([RBRACE]) == [RBRACE];
    assert PValue(quotes) == Ok(String([]), []) && PValue(braces) == Ok(Object(map[]), []);
  }

  // ---------- The writer ----------

  /** How the writer spells one character. */
  lemma CharactersAreWritten(c: Unit)
    ensures Quoted([c]) == [Code('"')] + (Spelling(c) + [Code('"')])
  {
    assert [c][1..] == [] && PiecesOf([]) == [] && PiecesText([]) == [];
    assert PiecesOf([c]) == [PieceOf(c)] && [PieceOf(c)][1..] == [];
    assert PieceOf(c).Text() + [] == PieceOf(c).Text();
    if c < 0x20 {
      LowerHexIs(c / 16);
      LowerHexIs(c % 16);
    }
  }

  function Spelling(c: Unit): Text {
    if c == Code('"') then [Code('\\'), Code('"')]
    else if c == Code('\\') then [Code('\\'), Code('\\')]
    else if c == 10 then [Code('\\'), Code('n')]
    else if c == 13 then [Code('\\'), Code('r')]
    else if c == 9 then [Code('\\'), Code('t')]
    else if c < 32 then
      [Code('\\'), Code('u'), Code('0'), Code('0'), Code(LOWER_DIGITS[c / 16]), Code(LOWER_DIGITS[c % 16])]
    else [c]
  }

  lemma LowerHexIs(n: Nibble)
    ensures LowerHex(n) == Code(LOWER_DIGITS[n])
  {
  }

  /** And more characters one after the other. */
  lemma {:induction false} CharactersAreWrittenInOrder(a: Text, b: Text)
    ensures PiecesText(PiecesOf(a + b)) == PiecesText(PiecesOf(a)) + PiecesText(PiecesOf(b))
  {
    hide PieceOf, Piece.Text;
    if a == [] {
      assert a + b == b && PiecesText(PiecesOf([])) == [];
    } else {
      assert (a + b)[1..] == a[1..] + b;
      CharactersAreWrittenInOrder(a[1..], b);
      assert PiecesOf(a + b)[1..] == PiecesOf(a[1..] + b) && PiecesOf(a)[1..] == PiecesOf(a[1..]);
    }
  }
}
