/** Shared vocabulary: optional values, the error numbers the firmware returns, C integer
    casts, and little-endian byte strings. */
module Common {

  datatype Option<+T> = None | Some(value: T) {
    predicate IsFailure() { None? }

    function PropagateFailure<U>(): Option<U>
      requires None?
    {
      None
    }

    function Extract(): T
      requires Some?
    {
      value
    }
  }

  const EIO := -5
  const EAGAIN := -11
  const ENODEV := -19
  const EINVAL := -22
  const ERANGE := -34
  const ENODATA := -61
  const ETIME := -62

  type byte = n: int | 0 <= n < 256

  /** The C cast to `int16_t`. */
  function Int16(v: int): (r: int)
    ensures -0x8000 <= r < 0x8000
    ensures -0x8000 <= v < 0x8000 ==> r == v
    ensures 0x8000 <= v < 0x1_0000 ==> r == v - 0x1_0000
  {
    (v + 0x8000) % 0x1_0000 - 0x8000
  }

  function Pow256(n: nat): (p: nat)
    ensures p >= 1
  {
    if n == 0 then 1 else 256 * Pow256(n - 1)
  }

  /** The `width` low bytes of `v`, least significant first (`sys_cpu_to_le16/32`). */
  function ToLe(v: nat, width: nat): (bytes: seq<byte>)
    ensures |bytes| == width
  {
    if width == 0 then [] else [v % 256] + ToLe(v / 256, width - 1)
  }

  /** The inverse of `ToLe` (`sys_get_le16/32`). */
  function FromLe(bytes: seq<byte>): nat {
    if bytes == [] then 0 else bytes[0] + 256 * FromLe(bytes[1..])
  }

  lemma {:induction false} LeRoundTrip(v: nat, width: nat)
    requires v < Pow256(width)
    ensures FromLe(ToLe(v, width)) == v
  {
    if width > 0 {
      LeRoundTrip(v / 256, width - 1);
      assert ToLe(v, width)[1..] == ToLe(v / 256, width - 1);
    }
  }

  /** Little-endian: the low byte comes first. */
  lemma LowByteFirst(v: nat)
    ensures v < 0x1_0000 ==> ToLe(v, 2) == [v % 256, v / 256]
    ensures v < 0x1_0000_0000 ==> ToLe(v, 4) == [v % 256, v / 256 % 256, v / 0x1_0000 % 256, v / 0x100_0000]
  {
    if v < 0x1_0000 {
      assert ToLe(v, 2) == [v % 256] + ToLe(v / 256, 1);
      assert ToLe(v / 256, 1) == [v / 256] + ToLe(0, 0);
    }
    if v < 0x1_0000_0000 {
      var b, c := v / 256, v / 256 / 256;
      assert ToLe(v, 4) == [v % 256] + ToLe(b, 3);
      assert ToLe(b, 3) == [b % 256] + ToLe(c, 2);
      assert ToLe(c, 2) == [c % 256] + ToLe(c / 256, 1);
      assert ToLe(c / 256, 1) == [c / 256 % 256] + ToLe(c / 256 / 256, 0);
      assert c == v / 0x1_0000 && c / 256 == v / 0x100_0000 && c / 256 < 256;
    }
  }

  lemma {:induction false} LeInjective(v: nat, w: nat, width: nat)
    requires v < Pow256(width) && w < Pow256(width)
    ensures ToLe(v, width) == ToLe(w, width) <==> v == w
  {
    LeRoundTrip(v, width);
    LeRoundTrip(w, width);
  }
}
