/** Small value types shared by the modules of the model. */
module Base {

  /** A Go byte. */
  type Byte = b: int | 0 <= b < 256

  /** A value that may be absent (a Go nil pointer or nil slice). */
  datatype Option<T> = None | Some(value: T)

  /** The three ways a Go call can end: a value, an error value, or a
      run-time panic (nil dereference, index or slice out of range). */
  datatype Outcome<T, E> = Ok(value: T) | Fail(err: E) | Panic

  /** Go's int32 conversion: the value modulo 2^32, read back as a signed
      32-bit integer. */
  function ToInt32(x: int): (r: int)
    ensures -0x8000_0000 <= r < 0x8000_0000
    ensures (x - r) % 0x1_0000_0000 == 0
    ensures -0x8000_0000 <= x < 0x8000_0000 ==> r == x
  {
    var m := x % 0x1_0000_0000;
    if m < 0x8000_0000 then m else m - 0x1_0000_0000
  }

  /** The index of the first `true` among the first `limit` elements of `s`,
      or `limit` when there is none. */
  function FirstTrue(s: seq<bool>, limit: nat): (k: nat)
    requires limit <= |s|
    ensures k <= limit
    ensures forall j :: 0 <= j < k ==> !s[j]
    ensures k < limit ==> s[k]
    decreases limit
  {
    if limit == 0 then 0
    else
      var k := FirstTrue(s, limit - 1);
      if k < limit - 1 then k else if s[limit - 1] then limit - 1 else limit
  }
}
