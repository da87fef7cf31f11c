/**
  Lobby metadata: the check the SDK makes in Rust, on UTF-8, and the one the
  Unity bindings make in C#, on UTF-16.
 */
module Metadata {
  import opened Wrappers
  import opened Unicode

  const MAX_PAIRS := 16
  const MAX_KEY_LEN := 32
  const MAX_VALUE_LEN := 128
  const MAX_BYTES := 2048

  /** a-z, 0-9 and `_`, as a byte or as a code unit. */
  predicate IsKeyCode(n: int) {
    (0x61 <= n <= 0x7A) || (0x30 <= n <= 0x39) || n == 0x5F
  }

  predicate IsKeyChar(c: char) {
    IsKeyCode(c as int)
  }

  /** The rule both sides are meant to enforce, on characters. */
  predicate IsKey(key: string) {
    0 < |key| <= MAX_KEY_LEN && forall i :: 0 <= i < |key| ==> IsKeyChar(key[i])
  }

  // ---------- Rust ----------

  function IsMetadataKey(key: string): bool {
    var bytes := Utf8(key);
    bytes != [] && |bytes| <= MAX_KEY_LEN && forall i :: 0 <= i < |bytes| ==> IsKeyCode(bytes[i])
  }

  datatype Refusal = MalformedKey(key: string) | LongValue(key: string) | TooManyPairs(pairs: nat) | TooManyBytes(bytes: nat)

  datatype Checked = Accepted(metadata: map<string, string>) | Refused(why: Refusal)

  datatype Pair = Pair(key: string, value: string)

  predicate PairIsValid(p: Pair) {
    IsKey(p.key) && |p.value| <= MAX_VALUE_LEN
  }

  /** A later pair replaces an earlier one of the same key. */
  function MapOf(pairs: seq<Pair>): map<string, string> {
    if pairs == [] then map[]
    else
      var n := |pairs| - 1;
      MapOf(pairs[..n])[pairs[n].key := pairs[n].value]
  }

  /** What is wrong with the first pair that is wrong. */
  function FirstFault(pairs: seq<Pair>): Option<Refusal> {
    if pairs == [] then None
    else if !IsKey(pairs[0].key) then Some(MalformedKey(pairs[0].key))
    else if |pairs[0].value| > MAX_VALUE_LEN then Some(LongValue(pairs[0].key))
    else FirstFault(pairs[1..])
  }

  lemma FirstByteFollowsTheRule(c: char)
    ensures IsKeyCode(Utf8Char(c)[0]) <==> IsKeyChar(c)
    ensures IsKeyChar(c) ==> |Utf8Char(c)| == 1
  {
  }

  lemma {:induction false} KeyBytes(key: string)
    ensures (forall i :: 0 <= i < |Utf8(key)| ==> IsKeyCode(Utf8(key)[i]))
       <==> (forall i :: 0 <= i < |key| ==> IsKeyChar(key[i]))
    ensures (forall i :: 0 <= i < |key| ==> IsKeyChar(key[i])) ==> |Utf8(key)| == |key|
  {
    if key != "" {
      hide Utf8Char, IsKeyCode, IsKeyChar;
      KeyBytes(key[1..]);
      var first, others := Utf8Char(key[0]), Utf8(key[1..]);
      FirstByteFollowsTheRule(key[0]);
      assert Utf8(key)[0] == first[0];
      assert forall i :: 0 <= i < |others| ==> Utf8(key)[|first| + i] == others[i];
      assert forall i :: 0 < i < |key| ==> key[i] == key[1..][i - 1];
    }
  }

  /** The byte check is the rule on characters. */
  lemma BytesFollowTheRule(key: string)
    ensures IsMetadataKey(key) <==> IsKey(key)
  {
    KeyBytes(key);
  }

  /** `jsonBytes` is the length of what serde makes of a map. */
  method MetadataArg(pairs: seq<Pair>, jsonBytes: map<string, string> -> nat) returns (checked: Checked)
    ensures FirstFault(pairs).Some? ==> checked == Refused(FirstFault(pairs).value)
    ensures FirstFault(pairs).None? ==>
      var m := MapOf(pairs);
      checked == if |m| > 16 then Refused(TooManyPairs(|m|))
                 else if jsonBytes(m) > 2048 then Refused(TooManyBytes(jsonBytes(m)))
                 else Accepted(m)
  {
    hide IsKey, IsMetadataKey;
    var metadata: map<string, string> := map[];
    assert pairs[0..] == pairs;
    for i := 0 to |pairs|
      invariant metadata == MapOf(pairs[..i])
      invariant FirstFault(pairs[i..]) == FirstFault(pairs)
    {
      var p := pairs[i];
      assert pairs[i..][1..] == pairs[i + 1..];
      assert pairs[..i + 1][..i] == pairs[..i];
      BytesFollowTheRule(p.key);
      if !IsMetadataKey(p.key) {
        return Refused(MalformedKey(p.key));
      }
      if |p.value| > MAX_VALUE_LEN {
        return Refused(LongValue(p.key));
      }
      metadata := metadata[p.key := p.value];
    }
    assert pairs[..|pairs|] == pairs;
    if |metadata| > MAX_PAIRS {
      return Refused(TooManyPairs(|metadata|));
    }
    var bytes := jsonBytes(metadata);
    if bytes > MAX_BYTES {
      return Refused(TooManyBytes(bytes));
    }
    return Accepted(metadata);
  }

  // ---------- C# ----------

  /** A dictionary entry as it enumerates; its value may be null. */
  datatype Entry = Entry(key: seq<Unit>, value: Option<seq<Unit>>)

  predicate IsLowSurrogate(u: Unit) {
    0xDC00 <= u <= 0xDFFF
  }

  function NotLow(value: seq<Unit>): nat {
    if value == [] then 0 else (if IsLowSurrogate(value[0]) then 0 else 1) + NotLow(value[1..])
  }

  method CodePoints(value: seq<Unit>) returns (count: nat)
    ensures count == NotLow(value)
  {
    count := 0;
    assert value[0..] == value;
    for i := 0 to |value|
      invariant count + NotLow(value[i..]) == NotLow(value)
    {
      assert value[i..][1..] == value[i + 1..];
      if !IsLowSurrogate(value[i]) {
        count := count + 1;
      }
    }
  }

  predicate AreKeyUnits(key: seq<Unit>) {
    0 < |key| <= MAX_KEY_LEN && forall i :: 0 <= i < |key| ==> IsKeyCode(key[i])
  }

  method IsMetadataKeyUnits(key: seq<Unit>) returns (allowed: bool)
    ensures allowed <==> AreKeyUnits(key)
  {
    if key == [] || |key| > MAX_KEY_LEN {
      return false;
    }
    for i := 0 to |key|
      invariant forall j :: 0 <= j < i ==> IsKeyCode(key[j])
    {
      if !IsKeyCode(key[i]) {
        return false;
      }
    }
    return true;
  }

  predicate EntryIsValid(e: Entry) {
    AreKeyUnits(e.key) && e.value.Some? && NotLow(e.value.value) <= MAX_VALUE_LEN
  }

  predicate EntriesAreValid(entries: seq<Entry>) {
    |entries| <= MAX_PAIRS && forall i :: 0 <= i < |entries| ==> EntryIsValid(entries[i])
  }

  /** `None` is a null dictionary, which is no metadata at all. */
  method TryCheckMetadata(entries: Option<seq<Entry>>) returns (ok: bool)
    ensures entries.None? ==> ok
    ensures entries.Some? ==> (ok <==> EntriesAreValid(entries.value))
    ensures entries.Some? && |entries.value| > 16 ==> !ok
    ensures entries.Some? && ok ==> forall i :: 0 <= i < |entries.value| ==> entries.value[i].value.Some?
  {
    if entries.None? {
      return true;
    }
    if |entries.value| > MAX_PAIRS {
      return false;
    }
    for i := 0 to |entries.value|
      invariant forall j :: 0 <= j < i ==> EntryIsValid(entries.value[j])
    {
      var e := entries.value[i];
      var named := IsMetadataKeyUnits(e.key);
      if !named || e.value.None? {
        return false;
      }
      var count := CodePoints(e.value.value);
      if count > MAX_VALUE_LEN {
        return false;
      }
    }
    return true;
  }

  // ---------- The two agree ----------

  lemma {:induction false} NotLowAppends(a: seq<Unit>, b: seq<Unit>)
    ensures NotLow(a + b) == NotLow(a) + NotLow(b)
  {
    if a == [] {
      assert a + b == b;
    } else {
      assert (a + b)[1..] == a[1..] + b;
      NotLowAppends(a[1..], b);
    }
  }

  /** Units that are not low surrogates are as many as the characters. */
  lemma {:induction false} CodePointsAreChars(value: string)
    ensures NotLow(Utf16(value)) == |value|
  {
    if value != "" {
      var first := Utf16Char(value[0]);
      OneUnitACharacter(value[0]);
      hide Utf16Char;
      NotLowAppends(first, Utf16(value[1..]));
      CodePointsAreChars(value[1..]);
    }
  }

  lemma OneUnitACharacter(c: char)
    ensures NotLow(Utf16Char(c)) == 1
  {
    var u := Utf16Char(c);
    assert !IsLowSurrogate(u[0]);
    if |u| == 2 {
      assert IsLowSurrogate(u[1]) && u[1..] == [u[1]] && u[1..][1..] == [];
      assert NotLow(u[1..]) == 0;
    } else {
      assert u[1..] == [];
    }
  }

  lemma FirstUnitFollowsTheRule(c: char)
    ensures IsKeyCode(Utf16Char(c)[0]) <==> IsKeyChar(c)
    ensures IsKeyChar(c) ==> |Utf16Char(c)| == 1
  {
  }

  lemma {:induction false} KeyUnits(key: string)
    ensures (forall i :: 0 <= i < |Utf16(key)| ==> IsKeyCode(Utf16(key)[i]))
       <==> (forall i :: 0 <= i < |key| ==> IsKeyChar(key[i]))
    ensures (forall i :: 0 <= i < |key| ==> IsKeyChar(key[i])) ==> |Utf16(key)| == |key|
    ensures |Utf16(key)| >= |key|
  {
    if key != "" {
      hide Utf16Char, IsKeyCode, IsKeyChar;
      KeyUnits(key[1..]);
      var first, others := Utf16Char(key[0]), Utf16(key[1..]);
      FirstUnitFollowsTheRule(key[0]);
      assert Utf16(key)[0] == first[0];
      assert forall i :: 0 <= i < |others| ==> Utf16(key)[|first| + i] == others[i];
      assert forall i :: 0 < i < |key| ==> key[i] == key[1..][i - 1];
    }
  }

  lemma UnitsFollowTheRule(p: Pair)
    ensures EntryIsValid(EntryOf(p)) <==> PairIsValid(p)
  {
    KeyUnits(p.key);
    CodePointsAreChars(p.value);
  }

  function EntryOf(p: Pair): Entry {
    Entry(Utf16(p.key), Some(Utf16(p.value)))
  }

  lemma {:induction false} NoFaultMeansValid(pairs: seq<Pair>)
    ensures FirstFault(pairs).None? <==> forall i :: 0 <= i < |pairs| ==> PairIsValid(pairs[i])
  {
    hide IsKey;
    if pairs != [] {
      NoFaultMeansValid(pairs[1..]);
      assert forall i :: 0 < i < |pairs| ==> pairs[i] == pairs[1..][i - 1];
    }
  }

  ghost predicate DistinctKeys(pairs: seq<Pair>) {
    forall i, j :: 0 <= i < j < |pairs| ==> pairs[i].key != pairs[j].key
  }

  ghost predicate HasKey(pairs: seq<Pair>, key: string) {
    exists i :: 0 <= i < |pairs| && pairs[i].key == key
  }

  lemma {:induction false} MapHasTheKeys(pairs: seq<Pair>, key: string)
    ensures key in MapOf(pairs) <==> HasKey(pairs, key)
  {
    if pairs != [] {
      var n := |pairs| - 1;
      MapHasTheKeys(pairs[..n], key);
      if HasKey(pairs[..n], key) {
        var i :| 0 <= i < n && pairs[..n][i].key == key;
        assert pairs[i].key == key;
      }
      if HasKey(pairs, key) && pairs[n].key != key {
        var i :| 0 <= i < |pairs| && pairs[i].key == key;
        assert pairs[..n][i].key == key;
      }
    }
  }

  /** A key has the value of the last pair that has it. */
  lemma {:induction false} LastPairCounts(pairs: seq<Pair>, key: string) returns (i: nat)
    requires key in MapOf(pairs)
    ensures i < |pairs| && pairs[i].key == key && MapOf(pairs)[key] == pairs[i].value
    ensures forall j :: i < j < |pairs| ==> pairs[j].key != key
  {
    var n := |pairs| - 1;
    if pairs[n].key == key {
      i := n;
    } else {
      i := LastPairCounts(pairs[..n], key);
      assert forall j :: 0 <= j < n ==> pairs[..n][j] == pairs[j];
    }
  }

  /** The rule for a key, written out. */
  predicate FollowsTheRule(key: string) {
    1 <= |key| <= 32
    && forall i :: 0 <= i < |key| ==> 'a' <= key[i] <= 'z' || '0' <= key[i] <= '9' || key[i] == '_'
  }

  lemma KeysFollowTheRule(key: string)
    ensures IsKey(key) <==> FollowsTheRule(key)
  {
    assert forall i :: 0 <= i < |key| ==>
      (IsKeyChar(key[i]) <==> 'a' <= key[i] <= 'z' || '0' <= key[i] <= '9' || key[i] == '_');
  }

  /** What is reported is what is wrong with the first pair that breaks a rule, its key before its value. */
  lemma {:induction false} FirstFaultIsReported(pairs: seq<Pair>) returns (i: nat)
    ensures FirstFault(pairs).None? ==>
      forall j :: 0 <= j < |pairs| ==> FollowsTheRule(pairs[j].key) && |pairs[j].value| <= 128
    ensures FirstFault(pairs).Some? ==>
      && i < |pairs|
      && (forall j :: 0 <= j < i ==> FollowsTheRule(pairs[j].key) && |pairs[j].value| <= 128)
      && (if !FollowsTheRule(pairs[i].key) then FirstFault(pairs) == Some(MalformedKey(pairs[i].key))
          else |pairs[i].value| > 128 && FirstFault(pairs) == Some(LongValue(pairs[i].key)))
  {
    hide IsKey, FollowsTheRule;
    i := 0;
    if pairs != [] {
      KeysFollowTheRule(pairs[0].key);
      if IsKey(pairs[0].key) && |pairs[0].value| <= MAX_VALUE_LEN {
        var k := FirstFaultIsReported(pairs[1..]);
        assert forall j :: 0 < j < |pairs| ==> pairs[j] == pairs[1..][j - 1];
        i := k + 1;
      }
    }
  }

  lemma {:induction false} DistinctKeysAreCounted(pairs: seq<Pair>)
    requires DistinctKeys(pairs)
    ensures |MapOf(pairs)| == |pairs|
  {
    if pairs != [] {
      var n := |pairs| - 1;
      DistinctKeysAreCounted(pairs[..n]);
      var before := MapOf(pairs[..n]);
      MapHasTheKeys(pairs[..n], pairs[n].key);
      assert pairs[n].key !in before;
      assert MapOf(pairs).Keys == before.Keys + {pairs[n].key};
    }
  }

  /**
    For any dictionary of strings, the C# check accepts exactly what the Rust
    checks on each pair and on their number accept; only the byte total is left
    to Rust.
   */
  lemma {:induction false} BothChecksAgree(pairs: seq<Pair>, entries: seq<Entry>)
    requires DistinctKeys(pairs)
    requires |entries| == |pairs| && forall i :: 0 <= i < |pairs| ==> entries[i] == EntryOf(pairs[i])
    ensures EntriesAreValid(entries) <==> FirstFault(pairs).None? && |MapOf(pairs)| <= 16
  {
    hide EntryIsValid, PairIsValid, EntryOf, DistinctKeys;
    NoFaultMeansValid(pairs);
    DistinctKeysAreCounted(pairs);
    forall i | 0 <= i < |pairs|
      ensures EntryIsValid(entries[i]) <==> PairIsValid(pairs[i])
    {
      UnitsFollowTheRule(pairs[i]);
    }
  }
}
