/** Account addresses and their default shard (utils/utils_partition.go). */
module Accounts {

  /** An account, named by its hexadecimal address. */
  datatype Address = Address(hex: string)

  function HexDigit(c: char): nat {
    if '0' <= c <= '9' then (c - '0') as nat
    else if 'a' <= c <= 'f' then (c - 'a') as nat + 10
    else if 'A' <= c <= 'F' then (c - 'A') as nat + 10
    else 0
  }

  function HexValue(s: string): nat {
    if s == "" then 0 else 16 * HexValue(s[..|s| - 1]) + HexDigit(s[|s| - 1])
  }

  /** The default shard: the last eight hexadecimal digits, modulo the number of shards. */
  function Addr2Shard(x: Address, shardNum: nat): (k: nat)
    requires shardNum > 0
    ensures k < shardNum
  {
    var last8 := if |x.hex| > 8 then x.hex[|x.hex| - 8..] else x.hex;
    HexValue(last8) % shardNum
  }

  /** The digit of `d`, in either case. */
  function HexChar(d: nat, upper: bool): char
    requires d < 16
  {
    (if upper then "0123456789ABCDEF" else "0123456789abcdef")[d]
  }

  /** The number `v` in base 16, on `width` digits; digit `i` from the left is in upper case if `upper` says so. */
  function HexOf(v: nat, width: nat, upper: nat -> bool): (s: string)
    ensures |s| == width
  {
    if width == 0 then "" else HexOf(v / 16, width - 1, upper) + [HexChar(v % 16, upper(width - 1))]
  }

  function Pow16(k: nat): nat { if k == 0 then 1 else 16 * Pow16(k - 1) }

  lemma DigitInverts(d: nat, upper: bool)
    requires d < 16
    ensures HexDigit(HexChar(d, upper)) == d
  {
  }

  /** Reading inverts writing. */
  lemma {:induction false} HexInverts(v: nat, width: nat, upper: nat -> bool)
    requires v < Pow16(width)
    ensures HexValue(HexOf(v, width, upper)) == v
  {
    if width > 0 {
      HexInverts(v / 16, width - 1, upper);
      DigitInverts(v % 16, upper(width - 1));
    }
  }

  /** Of an address that ends in the eight digits of `v` the shard is `v` modulo the number of shards, whatever comes before. */
  lemma LastEightCount(prefix: string, v: nat, upper: nat -> bool, shardNum: nat)
    requires shardNum > 0 && v < 0x1_0000_0000
    ensures Addr2Shard(Address(prefix + HexOf(v, 8, upper)), shardNum) == v % shardNum
  {
    assert Pow16(8) == 0x1_0000_0000;
    HexInverts(v, 8, upper);
    assert (prefix + HexOf(v, 8, upper))[|prefix|..] == HexOf(v, 8, upper);
  }

  /** A shorter address counts as a whole. */
  lemma ShortCounts(v: nat, width: nat, upper: nat -> bool, shardNum: nat)
    requires shardNum > 0 && width <= 8 && v < Pow16(width)
    ensures Addr2Shard(Address(HexOf(v, width, upper)), shardNum) == v % shardNum
  {
    HexInverts(v, width, upper);
  }

  /** Where an account lives: the recorded shard, or the default of its address. */
  function Home(pm: map<Address, nat>, x: Address, shardNum: nat): nat
    requires shardNum > 0
  {
    if x in pm then pm[x] else Addr2Shard(x, shardNum)
  }
}
