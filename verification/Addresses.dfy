/** utils/utils_partition.go: default sharding of addresses, and the virtual accounts derived from them. */
module Addresses {
  import opened Wrappers

  type Address = string

  type Positive = n: int | 0 < n witness 1

  const ADDRESS_LENGTH := 40
  const HASHED_DIGITS := 8

  // ----- Default shard of an address -----

  function HexValue(c: char): (v: Option<nat>)
    ensures v.Some? ==> v.value < 16
  {
    if '0' <= c <= '9' then Some(c as int - '0' as int)
    else if 'a' <= c <= 'f' then Some(c as int - 'a' as int + 10)
    else if 'A' <= c <= 'F' then Some(c as int - 'A' as int + 10)
    else None
  }

  /** strconv.ParseUint in base 16, on text too short to overflow. */
  function ParseHex(s: string): (v: Option<nat>) {
    if s == "" then None
    else
      var last := HexValue(s[|s| - 1]);
      var front := if |s| == 1 then Some(0) else ParseHex(s[..|s| - 1]);
      if last.None? || front.None? then None else Some(16 * front.value + last.value)
  }

  /** Addr2Shard panics on any other text. */
  predicate Shardable(addr: Address) {
    |addr| >= HASHED_DIGITS && ParseHex(addr[|addr| - HASHED_DIGITS..]).Some?
  }

  function Addr2Shard(addr: Address, shardNum: Positive): (shard: nat)
    requires Shardable(addr)
    ensures shard < shardNum
  {
    ParseHex(addr[|addr| - HASHED_DIGITS..]).value % shardNum
  }

  /** An address as transactions carry them: forty characters, without the 0x prefix. */
  predicate RealAddress(addr: Address) {
    |addr| == ADDRESS_LENGTH && Shardable(addr)
  }

  // ----- Virtual accounts -----

  function Itoa(n: nat): (s: string)
    ensures |s| > 0 && (|s| > 1 <==> n >= 10)
    ensures forall c | c in s :: '0' <= c <= '9'
  {
    if n < 10 then ['0' + n as char] else Itoa(n / 10) + ['0' + (n % 10) as char]
  }

  lemma {:induction false} ItoaInjective(m: nat, n: nat)
    requires Itoa(m) == Itoa(n)
    ensures m == n
  {
    if m >= 10 {
      var x, y := Itoa(m), Itoa(n);
      assert x[..|x| - 1] == Itoa(m / 10) && y[..|y| - 1] == Itoa(n / 10);
      assert x[|x| - 1] == y[|y| - 1];
      ItoaInjective(m / 10, n / 10);
    }
  }

  function AddrVirtualAccount(addr: Address, shardID: nat): (v: Address)
    ensures |v| > |addr|
  {
    addr + Itoa(shardID)
  }

  function RestoreAccount(virtualAddr: Address): (addr: Address)
    requires |virtualAddr| >= ADDRESS_LENGTH
  {
    virtualAddr[..ADDRESS_LENGTH]
  }

  /** RestoreAccount undoes AddrVirtualAccount, and the virtual address determines the shard too. */
  lemma VirtualAccountInjective(a: Address, j: nat, b: Address, k: nat)
    requires |a| == |b| == ADDRESS_LENGTH
    ensures RestoreAccount(AddrVirtualAccount(a, j)) == a
    ensures AddrVirtualAccount(a, j) == AddrVirtualAccount(b, k) ==> a == b && j == k
  {
    var x, y := AddrVirtualAccount(a, j), AddrVirtualAccount(b, k);
    assert x[..ADDRESS_LENGTH] == a && y[..ADDRESS_LENGTH] == b;
    assert x[ADDRESS_LENGTH..] == Itoa(j) && y[ADDRESS_LENGTH..] == Itoa(k);
    if x == y {
      ItoaInjective(j, k);
    }
  }

  /** None is the index-out-of-range panic; the number is the character code of the second digit. */
  function RestoreAccountShard(virtualAddr: Address): (r: Option<(Address, nat)>)
    requires |virtualAddr| >= ADDRESS_LENGTH
  {
    if |virtualAddr| <= ADDRESS_LENGTH + 1 then None
    else Some((virtualAddr[..ADDRESS_LENGTH], virtualAddr[ADDRESS_LENGTH + 1] as int))
  }

  lemma {:induction false} SecondDigit(n: nat)
    requires n >= 10
    ensures n < 100 ==> Itoa(n)[1] as int == '0' as int + n % 10
  {
  }

  /**
   * RestoreAccountShard never inverts AddrVirtualAccount on a forty-character address: it panics exactly for the
   * one-digit shards, and for all others the number it returns is not the shard.
   */
  lemma RestoreAccountShardNeverInverts(addr: Address, k: nat)
    requires |addr| == ADDRESS_LENGTH
    ensures var r := RestoreAccountShard(AddrVirtualAccount(addr, k));
            (r.None? <==> k < 10) &&
            (r.Some? ==> r.value.0 == addr && r.value.1 == Itoa(k)[1] as int && r.value.1 != k)
  {
    var v := AddrVirtualAccount(addr, k);
    assert v[..ADDRESS_LENGTH] == addr;
    if k >= 10 {
      assert v[ADDRESS_LENGTH + 1] == Itoa(k)[1];
      assert Itoa(k)[1] in Itoa(k);
      SecondDigit(k);
    }
  }
}
