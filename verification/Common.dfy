/** Types shared by the component models. */
module Common {
  datatype Option<+T> = None | Some(value: T)

  /** An octet of a wire format or of a text buffer. */
  type Byte = b: int | 0 <= b < 256

  const DWORD_RANGE := 0x1_0000_0000

  type Dword = d: int | 0 <= d < DWORD_RANGE

  const QWORD_RANGE := 0x1_0000_0000_0000_0000

  function Filled<T>(x: T, n: nat): (s: seq<T>)
    ensures |s| == n && forall i :: 0 <= i < n ==> s[i] == x
  {
    seq(n, _ => x)
  }

  function Min(a: nat, b: nat): nat {
    if a < b then a else b
  }

  /** memcpy of `items` to offset `at`. */
  function Overwritten<T>(d: seq<T>, at: nat, items: seq<T>): (r: seq<T>)
    requires at + |items| <= |d|
    ensures |r| == |d|
  {
    seq(|d|, i requires 0 <= i < |d| => if at <= i < at + |items| then items[i - at] else d[i])
  }
}
