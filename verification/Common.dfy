/** Types shared by the modules: options, results, bytes, machine words and little-endian fields. */
module Common {

  datatype Option<+T> = None | Some(value: T)

  datatype Result<+T, +E> = Ok(value: T) | Err(error: E)

  type byte = n: nat | n < 256

  const TWO_32: nat := 0x1_0000_0000

  const TWO_64: nat := 0x1_0000_0000_0000_0000

  type u64 = n: nat | n < TWO_64

  /** Unsigned 64-bit addition as compiled without overflow checks. */
  function WrappingAdd(a: u64, b: u64): u64 {
    (a + b) % TWO_64
  }

  /** The number stored in a little-endian byte field. */
  function FromLE(bytes: seq<byte>): nat {
    if bytes == [] then 0 else bytes[0] + 256 * FromLE(bytes[1..])
  }

  /** The little-endian field of `width` bytes holding `n`; high bytes that do not fit are dropped. */
  function ToLE(n: nat, width: nat): (bytes: seq<byte>)
    ensures |bytes| == width
  {
    if width == 0 then [] else [n % 256] + ToLE(n / 256, width - 1)
  }

  function Pow(base: nat, exponent: nat): nat {
    if exponent == 0 then 1 else base * Pow(base, exponent - 1)
  }

  lemma {:induction false} FieldRoundTrip(n: nat, width: nat)
    requires n < Pow(256, width)
    ensures FromLE(ToLE(n, width)) == n
  {
    if width > 0 {
      FieldRoundTrip(n / 256, width - 1);
      assert ToLE(n, width)[1..] == ToLE(n / 256, width - 1);
    }
  }

  lemma {:induction false} FieldWidths()
    ensures Pow(256, 4) == TWO_32
    ensures Pow(256, 8) == TWO_64
  {
    assert Pow(256, 2) == 65536;
    assert Pow(256, 4) == 256 * (256 * Pow(256, 2));
    assert Pow(256, 6) == 256 * (256 * Pow(256, 4));
    assert Pow(256, 8) == 256 * (256 * Pow(256, 6));
  }
}
