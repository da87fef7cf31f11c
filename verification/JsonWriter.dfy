/**
  The JSON the Unity bindings write: objects whose values are strings. Reading
  it back gives the dictionary that was written.
 */
module JsonWriter {
  import opened JsonText
  import opened JsonGrammar

  const LINE_FEED: Unit := 0x0A
  const RETURN: Unit := 0x0D
  const TAB: Unit := 0x09

  type Nibble = n: int | 0 <= n < 16

  function LowerHex(n: Nibble): Unit {
    if n < 10 then 0x30 + n else 0x61 + n - 10
  }

  /** How one character is written. */
  function PieceOf(c: Unit): Piece {
    if c == QUOTE then Escape(QUOTE)
    else if c == BACKSLASH then Escape(BACKSLASH)
    else if c == LINE_FEED then Escape(0x6E)
    else if c == RETURN then Escape(0x72)
    else if c == TAB then Escape(0x74)
    else if c < 0x20 then Hex([0x30, 0x30, LowerHex(c / 16), LowerHex(c % 16)])
    else Plain(c)
  }

  function PiecesOf(value: Text): seq<Piece> {
    if value == [] then [] else [PieceOf(value[0])] + PiecesOf(value[1..])
  }

  function Quoted(value: Text): Text {
    [QUOTE] + (PiecesText(PiecesOf(value)) + [QUOTE])
  }

  lemma {:induction false} PiecesTextAppends(pieces: seq<Piece>, p: Piece)
    ensures PiecesText(pieces + [p]) == PiecesText(pieces) + p.Text()
  {
    if pieces == [] {
      assert [p][1..] == [];
      assert PiecesText([]) + p.Text() == p.Text() + PiecesText([]);
    } else {
      assert (pieces + [p])[1..] == pieces[1..] + [p];
      PiecesTextAppends(pieces[1..], p);
    }
  }

  lemma {:induction false} PiecesOfAppends(value: Text, c: Unit)
    ensures PiecesOf(value + [c]) == PiecesOf(value) + [PieceOf(c)]
  {
    if value == [] {
      assert (value + [c])[1..] == [];
    } else {
      assert (value + [c])[1..] == value[1..] + [c];
      PiecesOfAppends(value[1..], c);
    }
  }

  lemma NoPieces()
    ensures PiecesText(PiecesOf([])) == []
  {
  }

  method AppendString(json: Text, value: Text) returns (out: Text)
    ensures out == json + Quoted(value)
  {
    hide PiecesText, PiecesOf;
    out := json + [QUOTE];
    NoPieces();
    for i := 0 to |value|
      invariant out == json + ([QUOTE] + PiecesText(PiecesOf(value[..i])))
    {
      var c := value[i];
      assert value[..i + 1] == value[..i] + [c];
      PiecesOfAppends(value[..i], c);
      PiecesTextAppends(PiecesOf(value[..i]), PieceOf(c));
      if c == QUOTE {
        out := out + [BACKSLASH, QUOTE];
      } else if c == BACKSLASH {
        out := out + [BACKSLASH, BACKSLASH];
      } else if c == LINE_FEED {
        out := out + [BACKSLASH, 0x6E];
      } else if c == RETURN {
        out := out + [BACKSLASH, 0x72];
      } else if c == TAB {
        out := out + [BACKSLASH, 0x74];
      } else if c < 0x20 {
        out := out + [BACKSLASH, LOWER_U] + [0x30, 0x30, LowerHex(c / 16), LowerHex(c % 16)];
      } else {
        out := out + [c];
      }
    }
    assert value[..|value|] == value;
    out := out + [QUOTE];
  }

  datatype Pair = Pair(key: Text, value: Text)

  function PairsText(pairs: seq<Pair>): Text {
    if pairs == [] then []
    else Quoted(pairs[0].key) + ([COLON] + (Quoted(pairs[0].value)
         + if |pairs| > 1 then [COMMA] + PairsText(pairs[1..]) else []))
  }

  function ObjectText(pairs: seq<Pair>): Text {
    [LBRACE] + (PairsText(pairs) + [RBRACE])
  }

  lemma {:induction false} PairsTextAppends(pairs: seq<Pair>, p: Pair)
    ensures PairsText(pairs + [p])
         == PairsText(pairs) + (if pairs == [] then [] else [COMMA]) + (Quoted(p.key) + ([COLON] + Quoted(p.value)))
  {
    hide Quoted;
    if pairs != [] {
      assert (pairs + [p])[1..] == pairs[1..] + [p];
      PairsTextAppends(pairs[1..], p);
    }
  }

  /** A dictionary as it enumerates; a null one writes as an empty object. */
  method AppendObject(json: Text, pairs: seq<Pair>) returns (out: Text)
    ensures out == json + ObjectText(pairs)
  {
    hide Quoted;
    out := json + [LBRACE];
    var first := true;
    for i := 0 to |pairs|
      invariant first <==> i == 0
      invariant out == json + ([LBRACE] + PairsText(pairs[..i]))
    {
      assert pairs[..i + 1] == pairs[..i] + [pairs[i]];
      PairsTextAppends(pairs[..i], pairs[i]);
      if !first {
        out := out + [COMMA];
      }
      first := false;
      out := AppendString(out, pairs[i].key);
      out := out + [COLON];
      out := AppendString(out, pairs[i].value);
    }
    assert pairs[..|pairs|] == pairs;
    out := out + [RBRACE];
  }

  // ---------- Reading it back ----------

  lemma ControlReads(c: Unit)
    requires c < 0x20
    ensures HexValue([0x30, 0x30, LowerHex(c / 16), LowerHex(c % 16)]) == c
  {
    var four: Text := [0x30, 0x30, LowerHex(c / 16), LowerHex(c % 16)];
    assert AfterHex(four, 3) == 4 && AfterHex(four, 2) == 4;
    assert AfterHex(four, 1) == 4 && AfterHex(four, 0) == 4;
    assert four[0..4] == four && four[..3][..2] == four[..2] && four[..2][..1] == four[..1] && four[..1][..0] == [];
    assert HexNumber(four[..1]) == 0 && HexNumber(four[..2]) == 0 && HexNumber(four[..3]) == c / 16;
  }

  lemma PieceReads(c: Unit)
    ensures PieceOf(c).Valid() && PieceOf(c).Char() == c
  {
    hide HexValue;
    if c < 0x20 {
      ControlReads(c);
    }
  }

  lemma {:induction false} PiecesRead(value: Text)
    ensures PiecesValid(PiecesOf(value)) && PiecesChars(PiecesOf(value)) == value
  {
    hide PieceOf, Piece.Valid, Piece.Char;
    if value != [] {
      PieceReads(value[0]);
      PiecesRead(value[1..]);
      assert PiecesOf(value)[1..] == PiecesOf(value[1..]);
    }
  }

  function MembersOf(pairs: seq<Pair>): Members
    requires pairs != []
  {
    var name, item := PiecesOf(pairs[0].key), DString(PiecesOf(pairs[0].value));
    if |pairs| == 1 then LastMember([], name, [], [], item, [])
    else MoreMembers([], name, [], [], item, [], MembersOf(pairs[1..]))
  }

  function DocOf(pairs: seq<Pair>): Doc {
    if pairs == [] then DEmptyObject([]) else DObject(MembersOf(pairs))
  }

  /** Pairs one after the other, onto those already there. */
  function MapOf(pairs: seq<Pair>, done: map<Text, Json>): map<Text, Json> {
    if pairs == [] then done else MapOf(pairs[1..], done[pairs[0].key := String(pairs[0].value)])
  }

  lemma BlanksVanish(name: Text, colon: Text, value: Text, tail: Text)
    ensures [] + (name + ([] + (colon + ([] + (value + ([] + tail)))))) == name + (colon + (value + tail))
  {
    var none: Text := [];
    assert none + tail == tail;
    assert none + (value + tail) == value + tail;
    assert none + (colon + (value + tail)) == colon + (value + tail);
  }

  lemma {:induction false} PairsAreMembers(pairs: seq<Pair>, done: map<Text, Json>)
    requires pairs != []
    ensures MembersValid(MembersOf(pairs))
    ensures MembersWritten(MembersOf(pairs)) == PairsText(pairs)
    ensures MembersMeaning(MembersOf(pairs), done) == MapOf(pairs, done)
    decreases pairs
  {
    hide PiecesText, PiecesChars, PiecesOf, PiecesValid;
    var p := pairs[0];
    BlanksVanish(Quoted(p.key), [COLON], Quoted(p.value), if |pairs| > 1 then [COMMA] + PairsText(pairs[1..]) else []);
    PiecesRead(p.key);
    PiecesRead(p.value);
    if |pairs| > 1 {
      PairsAreMembers(pairs[1..], done[p.key := String(p.value)]);
    } else {
      assert pairs[1..] == [];
    }
  }

  lemma {:induction false} MapOfHas(pairs: seq<Pair>, done: map<Text, Json>)
    requires forall i, j :: 0 <= i < j < |pairs| ==> pairs[i].key != pairs[j].key
    ensures forall i :: 0 <= i < |pairs| ==>
      pairs[i].key in MapOf(pairs, done) && MapOf(pairs, done)[pairs[i].key] == String(pairs[i].value)
    ensures forall k :: k in MapOf(pairs, done) <==> k in done || exists i :: 0 <= i < |pairs| && pairs[i].key == k
    ensures forall k :: k in done && (forall i :: 0 <= i < |pairs| ==> pairs[i].key != k) ==>
      MapOf(pairs, done)[k] == done[k]
    decreases pairs
  {
    if pairs != [] {
      var others := pairs[1..];
      assert forall i :: 0 <= i < |others| ==> others[i] == pairs[i + 1];
      MapOfHas(others, done[pairs[0].key := String(pairs[0].value)]);
    }
  }

  /**
    Whatever strings a dictionary holds, and in whatever order it enumerates,
    the object it is written as is read back as that dictionary.
   */
  lemma WrittenObjectsAreRead(pairs: seq<Pair>, dictionary: map<Text, Text>)
    requires forall i, j :: 0 <= i < j < |pairs| ==> pairs[i].key != pairs[j].key
    requires forall k, v :: (k in dictionary && dictionary[k] == v) <==> Pair(k, v) in pairs
    ensures PDocument(ObjectText(pairs)) == Ok(Object(map k | k in dictionary :: String(dictionary[k])), [])
  {
    hide PDocument, ObjectText, MapOf;
    DictionaryIsRead(pairs);
    MapOfHas(pairs, map[]);
    var read, meant := MapOf(pairs, map[]), map k | k in dictionary :: String(dictionary[k]);
    forall k
      ensures k in read <==> k in meant
      ensures k in meant ==> read[k] == meant[k]
    {
      if k in dictionary {
        assert Pair(k, dictionary[k]) in pairs;
      }
      if k in read {
        var i :| 0 <= i < |pairs| && pairs[i].key == k;
        assert pairs[i] == Pair(k, pairs[i].value);
      }
    }
    assert read == meant;
  }

  lemma DictionaryIsRead(pairs: seq<Pair>)
    ensures PDocument(ObjectText(pairs)) == Ok(Object(MapOf(pairs, map[])), [])
  {
    hide PDocument, PairsText;
    if pairs != [] {
      PairsAreMembers(pairs, map[]);
    } else {
      assert PairsText([]) == [] by { EmptyPairs(); }
    }
    var d, text := DocOf(pairs), ObjectText(pairs);
    assert text == [] + (Written(d) + []);
    SpelledIsRead(text, d);
  }

  lemma EmptyPairs()
    ensures PairsText([]) == []
  {
  }

  /** A written string reads back as itself, with anything at all in it. */
  lemma WrittenStringsAreRead(value: Text, post: Text)
    ensures PValue(Quoted(value) + post) == Ok(String(value), post)
  {
    hide PValue;
    PiecesRead(value);
    DocumentsAreRead(DString(PiecesOf(value)), post);
  }
}
