/**
  The parse methods of the Unity JSON reader, which move an index along the
  text. Each agrees with its function of `JsonText` on the text from the index
  on, ends, and leaves the index within the text, whether it succeeds or not.
 */
module JsonReader {
  import opened JsonText

  /** `ok`, `value` and the index `next` say about `text` what `parsed` says about its rest. */
  ghost predicate Agrees<T>(text: Text, next: nat, ok: bool, value: T, parsed: Parsed<T>) {
    next <= |text| && (ok <==> parsed.Ok?) && (ok ==> parsed == Ok(value, text[next..]))
  }

  method Parse(text: Text) returns (ok: bool, value: Json)
    ensures ok <==> PDocument(text).Ok?
    ensures ok ==> PDocument(text) == Ok(value, [])
  {
    hide PValue, SkipSpace;
    assert text[0..] == text;
    var index := SkipWhitespace(text, 0);
    ok, value, index := ParseValue(text, index);
    if !ok {
      return;
    }
    index := SkipWhitespace(text, index);
    if index != |text| {
      ok := false;
    }
  }

  method SkipWhitespace(text: Text, index: nat) returns (next: nat)
    requires index <= |text|
    ensures index <= next <= |text|
    ensures text[next..] == SkipSpace(text[index..])
  {
    next := index;
    while next < |text|
      invariant index <= next <= |text|
      invariant SkipSpace(text[next..]) == SkipSpace(text[index..])
    {
      assert text[next..][1..] == text[next + 1..];
      if !IsSpace(text[next]) {
        return;
      }
      next := next + 1;
    }
  }

  method ParseValue(text: Text, index: nat) returns (ok: bool, value: Json, next: nat)
    requires index <= |text|
    ensures Agrees(text, next, ok, value, PValue(text[index..])) && index <= next
    decreases |text| - index, 0
  {
    hide PObject, PArray, PString, NumberRun, PLiteral;
    value, next := Null, index;
    if index >= |text| {
      return false, value, next;
    }
    assert text[index..][1..] == text[index + 1..];
    var c := text[index];
    if c == LBRACE {
      ok, value, next := ParseObject(text, index);
    } else if c == LBRACKET {
      ok, value, next := ParseArray(text, index);
    } else if c == QUOTE {
      var chars: Text;
      ok, chars, next := ParseString(text, index);
      value := String(chars);
    } else if c == TRUE[0] {
      ok, value, next := Expect(text, index, TRUE, Bool(true));
    } else if c == FALSE[0] {
      ok, value, next := Expect(text, index, FALSE, Bool(false));
    } else if c == NULL[0] {
      ok, value, next := Expect(text, index, NULL, Null);
    } else {
      var digits: Text;
      ok, digits, next := ParseNumber(text, index);
      var n := NumberRun(text[index..]);
      assert text[index..][..n] == text[index..next] && text[index..][n..] == text[next..];
      value := Number(digits);
    }
  }

  method ParseObject(text: Text, index: nat) returns (ok: bool, value: Json, next: nat)
    requires index < |text|
    ensures Agrees(text, next, ok, value, PObject(text[index + 1..])) && index < next
    decreases |text| - index - 1, 1
  {
    hide PValue, PString, PMember, SkipSpace;
    value, next := Null, index + 1;
    var members: map<Text, Json> := map[];
    next := SkipWhitespace(text, next);
    assert next < |text| ==> text[next..][1..] == text[next + 1..];
    if next < |text| && text[next] == RBRACE {
      return true, Object(members), next + 1;
    }
    ghost var parsed := PMembers(text[next..], members);
    assert parsed == PObject(text[index + 1..]);
    while true
      invariant index < next <= |text|
      invariant PMembers(text[next..], members) == parsed
      decreases |text| - next
    {
      var read, member, afterMember := ParseMember(text, next);
      next := afterMember;
      if !read {
        return false, value, next;
      }
      members := members[member.0 := member.1];
      if next >= |text| {
        return false, value, next;
      }
      assert text[next..][1..] == text[next + 1..];
      if text[next] == COMMA {
        next := next + 1;
        continue;
      }
      if text[next] == RBRACE {
        return true, Object(members), next + 1;
      }
      return false, value, next;
    }
  }

  /** One turn of the loop of `ParseObject`, up to the comma or the brace. */
  method ParseMember(text: Text, index: nat) returns (ok: bool, member: (Text, Json), next: nat)
    requires index <= |text|
    ensures Agrees(text, next, ok, member, PMember(text[index..])) && index <= next
    decreases |text| - index, 0
  {
    hide PValue, PString, SkipSpace;
    member := ([], Null);
    next := SkipWhitespace(text, index);
    if next >= |text| || text[next] != QUOTE {
      return false, member, next;
    }
    assert text[next..][1..] == text[next + 1..];
    var named, name, afterName := ParseString(text, next);
    next := afterName;
    if !named {
      return false, member, next;
    }
    next := SkipWhitespace(text, next);
    if next >= |text| || text[next] != COLON {
      return false, member, next;
    }
    assert text[next..][1..] == text[next + 1..];
    next := SkipWhitespace(text, next + 1);
    var read, item, afterItem := ParseValue(text, next);
    next := afterItem;
    if !read {
      return false, member, next;
    }
    next := SkipWhitespace(text, next);
    return true, (name, item), next;
  }

  method ParseArray(text: Text, index: nat) returns (ok: bool, value: Json, next: nat)
    requires index < |text|
    ensures Agrees(text, next, ok, value, PArray(text[index + 1..])) && index < next
    decreases |text| - index - 1, 1
  {
    hide PValue, SkipSpace;
    value, next := Null, index + 1;
    var items: seq<Json> := [];
    next := SkipWhitespace(text, next);
    assert next < |text| ==> text[next..][1..] == text[next + 1..];
    if next < |text| && text[next] == RBRACKET {
      return true, Array(items), next + 1;
    }
    ghost var parsed := PItems(text[next..], items);
    assert parsed == PArray(text[index + 1..]);
    while true
      invariant index < next <= |text|
      invariant PItems(text[next..], items) == parsed
      decreases |text| - next
    {
      next := SkipWhitespace(text, next);
      var read, item, afterItem := ParseValue(text, next);
      next := afterItem;
      if !read {
        return false, value, next;
      }
      items := items + [item];
      next := SkipWhitespace(text, next);
      if next >= |text| {
        return false, value, next;
      }
      assert text[next..][1..] == text[next + 1..];
      if text[next] == COMMA {
        next := next + 1;
        continue;
      }
      if text[next] == RBRACKET {
        return true, Array(items), next + 1;
      }
      return false, value, next;
    }
  }

  method ParseString(text: Text, index: nat) returns (ok: bool, value: Text, next: nat)
    requires index < |text|
    ensures Agrees(text, next, ok, value, PString(text[index + 1..], [])) && index < next
  {
    hide HexValue;
    value, next := [], index + 1;
    while true
      invariant index < next <= |text|
      invariant PString(text[next..], value) == PString(text[index + 1..], [])
      decreases |text| - next
    {
      ghost var s := text[next..];
      if next >= |text| {
        return false, value, next;
      }
      var c := text[next];
      next := next + 1;
      assert s[1..] == text[next..];
      if c == QUOTE {
        return true, value, next;
      }
      if c != BACKSLASH {
        value := value + [c];
        continue;
      }
      hide PEscape;
      var known, meant, afterEscape := ParseEscape(text, next);
      next := afterEscape;
      if !known {
        return false, value, next;
      }
      value := value + [meant];
    }
  }

  /** The part of the loop of `ParseString` that follows a backslash. */
  method ParseEscape(text: Text, index: nat) returns (ok: bool, value: Unit, next: nat)
    requires index <= |text|
    ensures Agrees(text, next, ok, value, PEscape(text[index..])) && index <= next
  {
    hide HexValue;
    value, next := 0, index;
    if next >= |text| {
      return false, value, next;
    }
    var escape := text[next];
    next := next + 1;
    assert text[index..][1..] == text[next..];
    if escape == LOWER_U {
      if next + 4 > |text| {
        return false, value, next;
      }
      assert text[index..][1..5] == text[next..next + 4] && text[index..][5..] == text[next + 4..];
      var code := HexValue(text[next..next + 4]);
      if code < 0 {
        return false, value, next;
      }
      return true, code, next + 4;
    }
    var meaning := EscapeMeaning(escape);
    if meaning < 0 {
      return false, value, next;
    }
    return true, meaning, next;
  }

  method ParseNumber(text: Text, index: nat) returns (ok: bool, value: Text, next: nat)
    requires index <= |text|
    ensures index <= next <= |text|
    ensures next == index + NumberRun(text[index..])
    ensures ok <==> next > index
    ensures value == text[index..next]
  {
    next := index;
    assert text[index..][..0] == [];
    if next < |text| && (text[next] == 0x2D || text[next] == 0x2B) {
      assert text[index..][1..] == text[index + 1..];
      next := next + 1;
    }
    while next < |text|
      invariant index <= next <= |text|
      invariant NumberRun(text[index..]) == next - index + NumberRun(text[next..])
    {
      if !IsNumberUnit(text[next]) {
        break;
      }
      assert text[next..][1..] == text[next + 1..];
      next := next + 1;
    }
    return next != index, text[index..next], next;
  }

  method Expect(text: Text, index: nat, literal: Text, meant: Json) returns (ok: bool, value: Json, next: nat)
    requires index <= |text| && literal != []
    ensures Agrees(text, next, ok, value, PLiteral(text[index..], literal, meant)) && index <= next
  {
    value := meant;
    if index + |literal| > |text| || text[index..index + |literal|] != literal {
      return false, value, index;
    }
    assert text[index..][|literal|..] == text[index + |literal|..];
    return true, value, index + |literal|;
  }
}
