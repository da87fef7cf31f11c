/** Strings across the C ABI: whole or not at all. */
module NativeBuffer {

  type Byte = b: int | 0 <= b < 0x100
  type Bytes = seq<Byte>

  const ERR_BAD_BUFFER := -2
  const ERR_BUFFER_TOO_SMALL := -3
  const ERR_UNAVAILABLE := -4

  const MAX_BUFFER_SIZE := 4 * 1024 * 1024

  /**
    Copies `value` and its NUL, or nothing: on overflow the buffer is left an
    empty C string. A value that holds a NUL is no C string.
   */
  method WriteStr(value: Bytes, buf: array?<Byte>, len: nat) returns (code: int)
    requires buf != null ==> len <= buf.Length
    modifies buf
    ensures code == if buf == null || len == 0 then ERR_BAD_BUFFER
                    else if 0 in value then ERR_UNAVAILABLE
                    else if |value| + 1 > len then ERR_BUFFER_TOO_SMALL
                    else |value|
    ensures code >= 0 ==> buf[..] == value + [0] + old(buf[..])[|value| + 1..]
    ensures code == ERR_BUFFER_TOO_SMALL ==> buf[..] == [0] + old(buf[..])[1..]
    ensures buf != null && (code == ERR_BAD_BUFFER || code == ERR_UNAVAILABLE) ==> buf[..] == old(buf[..])
  {
    if buf == null || len == 0 {
      return ERR_BAD_BUFFER;
    }
    if 0 in value {
      return ERR_UNAVAILABLE;
    }
    var bytes: Bytes := value + [0];
    if |bytes| > len {
      buf[0] := 0;
      return ERR_BUFFER_TOO_SMALL;
    }
    forall i | 0 <= i < |bytes| {
      buf[i] := bytes[i];
    }
    code := |bytes| - 1;
  }
}
