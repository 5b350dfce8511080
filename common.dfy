/** Types shared by the fade engine, the ArtDmx sender and the ArtDmx receiver. */
module Common {

  /** An unsigned 8-bit value: a DMX channel level or one byte on the wire. */
  type uint8 = x: int | 0 <= x < 256

  /** Number of slots in one DMX universe. */
  const DMX_SLOTS: int := 512

  datatype Option<+T> = None | Some(value: T)

  datatype Result<+T, +E> = Ok(value: T) | Err(error: E)

  function Min(a: int, b: int): (m: int)
    ensures m <= a && m <= b && (m == a || m == b)
  {
    if a <= b then a else b
  }

  function Max(a: int, b: int): (m: int)
    ensures m >= a && m >= b && (m == a || m == b)
  {
    if a >= b then a else b
  }

  /** "Art-Net" followed by a zero byte: the first eight bytes of every Art-Net packet. */
  const ARTNET_ID: seq<uint8> := [0x41, 0x72, 0x74, 0x2D, 0x4E, 0x65, 0x74, 0x00]

  /** The ArtDmx OpCode. */
  const OP_DMX: int := 0x5000

  /** A 16-bit number from its high and low bytes. */
  function Be16(hi: uint8, lo: uint8): (v: nat)
    ensures v < 0x1_0000 && v / 256 == hi && v % 256 == lo
  {
    256 * hi + lo
  }

  /** Quotient and remainder are determined by any decomposition x == k*q + r with 0 <= r < k. */
  lemma DivModUnique(x: int, k: int, q: int, r: int)
    requires k > 0 && 0 <= r < k && x == k * q + r
    ensures x / k == q && x % k == r
  {
    if x / k < q {
      MulLeftMono(k, x / k + 1, q);
    } else if x / k > q {
      MulLeftMono(k, q + 1, x / k);
    }
  }

  lemma MulLeftMono(a: int, b: int, c: int)
    requires a >= 0 && b <= c
    ensures a * b <= a * c
  {
  }
}
