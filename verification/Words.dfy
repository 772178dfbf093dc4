/** Machine words: a 32-bit register value is an integer below 2^32, and a bit
    field of it is read and replaced with division and remainder by powers of two.
    And two types that several modules share. */
module Words {

  datatype Option<T> = None | Some(value: T)

  /** Directions of a stream are named from the device's side, as in the source. */
  datatype Direction = RX | TX

  const TWO_8: int := 0x100
  const TWO_16: int := 0x1_0000
  const TWO_32: int := 0x1_0000_0000

  type u8 = x: int | 0 <= x < TWO_8
  type u16 = x: int | 0 <= x < TWO_16
  type u32 = x: int | 0 <= x < TWO_32

  /** The dwords of `s` in the opposite order. */
  function Reversed(s: seq<u32>): (r: seq<u32>)
    ensures |r| == |s|
    ensures forall k :: 0 <= k < |s| ==> r[k] == s[|s| - 1 - k]
  {
    seq(|s|, k requires 0 <= k < |s| => s[|s| - 1 - k])
  }

  /** `mem` with the elements from `at` on replaced by `src`. */
  function Overwrite<T>(mem: seq<T>, at: nat, src: seq<T>): (r: seq<T>)
    requires at + |src| <= |mem|
    ensures |r| == |mem|
  {
    mem[..at] + src + mem[at + |src|..]
  }
}
