/** Fixed-width unsigned integers as subsets of `int`, with the wrap-around and
    alignment arithmetic that the guest-memory code uses. */
module MachineInts {
  type u8 = x: int | 0 <= x < 0x100
  type u16 = x: int | 0 <= x < 0x1_0000
  type u32 = x: int | 0 <= x < 0x1_0000_0000
  type u64 = x: int | 0 <= x < 0x1_0000_0000_0000_0000

  /** A time stamp, or half of one, that is not set. */
  const TS_INVALID: u32 := 0xffff_ffff

  /** Reduction of an arithmetic result to 32 bits. */
  function Wrap32(x: int): u32 {
    x % 0x1_0000_0000
  }

  /** The least multiple of 128 that is not below `x`. */
  function AlignUp128(x: nat): (r: nat)
    ensures r % 128 == 0 && x <= r < x + 128
  {
    (x + 127) / 128 * 128
  }

  lemma AlignUp128Least(x: nat, m: nat)
    requires m % 128 == 0 && x <= m
    ensures AlignUp128(x) <= m
  {
  }

  /** A 64-bit time stamp as the guest structures hold it. */
  datatype TimeStamp = TimeStamp(upper: u32, lower: u32)

  function SplitTimeStamp(t: u64): TimeStamp {
    TimeStamp(t / 0x1_0000_0000, t % 0x1_0000_0000)
  }

  function JoinTimeStamp(t: TimeStamp): u64 {
    t.upper * 0x1_0000_0000 + t.lower
  }
}
