/**
  A string of Unicode scalar values, which is what a Rust `str` and a Dafny
  string are, as the bytes of UTF-8 and as the code units of UTF-16.
 */
module Unicode {

  type Byte = b: int | 0 <= b < 0x100
  type Unit = u: int | 0 <= u < 0x1_0000

  function Utf8Char(c: char): (b: seq<Byte>)
    ensures 1 <= |b| <= 4
  {
    var n := c as int;
    if n < 0x80 then [n]
    else if n < 0x800 then [0xC0 + n / 0x40, 0x80 + n % 0x40]
    else if n < 0x1_0000 then [0xE0 + n / 0x40 / 0x40, 0x80 + n / 0x40 % 0x40, 0x80 + n % 0x40]
    else [0xF0 + n / 0x40 / 0x40 / 0x40, 0x80 + n / 0x40 / 0x40 % 0x40, 0x80 + n / 0x40 % 0x40, 0x80 + n % 0x40]
  }

  function Utf8(s: string): seq<Byte> {
    if s == "" then [] else Utf8Char(s[0]) + Utf8(s[1..])
  }

  function Utf16Char(c: char): (u: seq<Unit>)
    ensures 1 <= |u| <= 2
  {
    var n := c as int;
    if n < 0x1_0000 then [n] else [0xD800 + (n - 0x1_0000) / 0x400, 0xDC00 + (n - 0x1_0000) % 0x400]
  }

  function Utf16(s: string): seq<Unit> {
    if s == "" then [] else Utf16Char(s[0]) + Utf16(s[1..])
  }

  // ---------- UTF-8 can be read back ----------

  /** How long the first character is, by its first byte. */
  lemma FirstByteTells(c: char)
    ensures var b := Utf8Char(c);
      |b| == if b[0] < 0x80 then 1 else if b[0] < 0xE0 then 2 else if b[0] < 0xF0 then 3 else 4
  {
  }

  lemma SameBytesSameChar(c: char, d: char)
    requires Utf8Char(c) == Utf8Char(d)
    ensures c == d
  {
    var b, n, m := Utf8Char(c), c as int, d as int;
    assert b[0] == Utf8Char(d)[0] && b[|b| - 1] == Utf8Char(d)[|b| - 1];
    if |b| == 2 {
      assert n / 0x40 == m / 0x40 && n % 0x40 == m % 0x40;
    } else if |b| == 3 {
      assert b[1] == Utf8Char(d)[1];
      assert n / 0x40 / 0x40 == m / 0x40 / 0x40 && n / 0x40 % 0x40 == m / 0x40 % 0x40;
      assert n / 0x40 == m / 0x40 && n % 0x40 == m % 0x40;
    } else if |b| == 4 {
      assert b[1] == Utf8Char(d)[1] && b[2] == Utf8Char(d)[2];
      assert n / 0x40 / 0x40 == m / 0x40 / 0x40;
      assert n / 0x40 == m / 0x40 && n % 0x40 == m % 0x40;
    }
  }

  /** Different strings have different bytes. */
  lemma {:induction false} Utf8IsInjective(a: string, b: string)
    requires Utf8(a) == Utf8(b)
    ensures a == b
  {
    hide Utf8Char;
    if a != "" && b != "" {
      FirstByteTells(a[0]);
      FirstByteTells(b[0]);
      var first := Utf8Char(a[0]);
      assert Utf8(a)[0] == first[0] && Utf8(b)[0] == Utf8Char(b[0])[0];
      assert Utf8(a)[..|first|] == first && Utf8(b)[..|first|] == Utf8Char(b[0]);
      SameBytesSameChar(a[0], b[0]);
      assert Utf8(a)[|first|..] == Utf8(a[1..]) && Utf8(b)[|first|..] == Utf8(b[1..]);
      Utf8IsInjective(a[1..], b[1..]);
    }
  }

  lemma {:induction false} Utf8Appends(a: string, b: string)
    ensures Utf8(a + b) == Utf8(a) + Utf8(b)
  {
    if a == "" {
      assert a + b == b;
    } else {
      assert (a + b)[1..] == a[1..] + b;
      Utf8Appends(a[1..], b);
    }
  }

  // ---------- The layouts ----------

  predicate IsContinuation(b: Byte) {
    0x80 <= b <= 0xBF
  }

  /** The bits so far, and six more from a continuation byte. */
  function Joined(high: int, b: Byte): int {
    high * 64 + (b as int - 0x80)
  }

  /**
    The bytes are those of RFC 3629, section 3: the first tells how many follow,
    each of the others carries six bits, and together they are the character.
   */
  lemma Utf8Layout(c: char)
    ensures var n, b := c as int, Utf8Char(c);
      && (forall i :: 0 < i < |b| ==> IsContinuation(b[i]))
      && if n < 0x80 then b == [n]
         else if n < 0x800 then |b| == 2 && 0xC0 <= b[0] <= 0xDF && n == Joined(b[0] - 0xC0, b[1])
         else if n < 0x1_0000 then |b| == 3 && 0xE0 <= b[0] <= 0xEF && n == Joined(Joined(b[0] - 0xE0, b[1]), b[2])
         else |b| == 4 && 0xF0 <= b[0] <= 0xF7 && n == Joined(Joined(Joined(b[0] - 0xF0, b[1]), b[2]), b[3])
  {
  }

  /** The units are those of RFC 2781, section 2.1: one, or a high and a low surrogate. */
  lemma Utf16Layout(c: char)
    ensures var n, u := c as int, Utf16Char(c);
      if n < 0x1_0000 then u == [n]
      else
        |u| == 2 && 0xD800 <= u[0] <= 0xDBFF && 0xDC00 <= u[1] <= 0xDFFF
        && n == (u[0] as int - 0xD800) * 0x400 + (u[1] as int - 0xDC00) + 0x1_0000
  {
  }
}
