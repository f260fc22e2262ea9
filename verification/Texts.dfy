/** What the texts of the program read back as: hexadecimal keys and hashes, decimal numbers, hashed addresses. */
module Texts {
  import opened Wrappers
  import opened Bytes
  import opened Addresses

  const LOWER := "0123456789abcdef"
  const UPPER := "0123456789ABCDEF"

  // ----- Hexadecimal -----

  /** The digits are written in lower case and read in either. */
  lemma HexDigits(d: nat)
    requires d < 16
    ensures HexChar(d) == LOWER[d]
    ensures HexValue(LOWER[d]) == HexValue(UPPER[d]) == Some(d)
  {
  }

  lemma HexDigitsOnly(c: char)
    ensures HexValue(c).Some? <==> c in LOWER || c in UPPER
  {
    if HexValue(c).Some? {
      var d := HexValue(c).value;
      assert c == LOWER[d] || c == UPPER[d];
    }
  }

  /** A text parses exactly when it consists of hexadecimal digits. */
  lemma {:induction false} ParsesExactly(s: string)
    ensures ParseHex(s).Some? <==> s != "" && forall i | 0 <= i < |s| :: s[i] in LOWER || s[i] in UPPER
  {
    if s != "" {
      var n := |s| - 1;
      HexDigitsOnly(s[n]);
      ParsesExactly(s[..n]);
      ParseLast(s[..n], s[n]);
      assert s[..n] + [s[n]] == s;
      hide HexValue, ParseHex;
      assert forall i | 0 <= i < n :: s[..n][i] == s[i];
    }
  }

  /** The number whose base-256 digits these are. */
  function BigEndian(s: seq<Byte>): (v: nat) {
    if s == [] then 0 else 256 * BigEndian(s[..|s| - 1]) + s[|s| - 1]
  }

  lemma {:induction false} HexEncodeSnoc(s: seq<Byte>, b: Byte)
    ensures HexEncode(s + [b]) == HexEncode(s) + [HexChar(b / 16), HexChar(b % 16)]
  {
    if s == [] {
      assert [] + [b] == [b];
    } else {
      HexEncodeSnoc(s[1..], b);
      assert (s + [b])[1..] == s[1..] + [b];
    }
  }

  lemma ParseOneMore(t: string, d: nat)
    requires d < 16 && (t == "" || ParseHex(t).Some?)
    ensures ParseHex(t + [HexChar(d)]) == Some(16 * (if t == "" then 0 else ParseHex(t).value) + d)
  {
    DigitReadsBack(d);
    hide HexValue, HexChar, ParseHex;
    ParseLast(t, HexChar(d));
  }

  lemma DigitReadsBack(d: nat)
    requires d < 16
    ensures HexValue(HexChar(d)) == Some(d)
  {
    HexDigits(d);
  }

  lemma ParseLast(t: string, c: char)
    ensures ParseHex(t + [c])
         == var front := if t == "" then Some(0) else ParseHex(t);
            if HexValue(c).None? || front.None? then None else Some(16 * front.value + HexValue(c).value)
  {
    hide HexValue;
    assert (t + [c])[..|t|] == t;
  }

  lemma ParseTwoMore(t: string, b: Byte)
    requires t == "" || ParseHex(t).Some?
    ensures ParseHex(t + [HexChar(b / 16), HexChar(b % 16)])
         == Some(256 * (if t == "" then 0 else ParseHex(t).value) + b)
  {
    hide ParseHex, HexChar;
    ParseOneMore(t, b / 16);
    ParseOneMore(t + [HexChar(b / 16)], b % 16);
    assert t + [HexChar(b / 16)] + [HexChar(b % 16)] == t + [HexChar(b / 16), HexChar(b % 16)];
  }

  /** The hexadecimal text of some bytes is the number they spell. */
  lemma {:induction false} HexIsBase16(s: seq<Byte>)
    requires s != []
    ensures ParseHex(HexEncode(s)) == Some(BigEndian(s))
  {
    var n := |s| - 1;
    assert s == s[..n] + [s[n]];
    HexEncodeSnoc(s[..n], s[n]);
    if n > 0 {
      HexIsBase16(s[..n]);
    }
    ParseTwoMore(HexEncode(s[..n]), s[n]);
  }

  /** Reading two digits for every byte. */
  function ReadHex(t: string): (s: Option<seq<Byte>>) {
    if t == "" then Some([])
    else if |t| == 1 then None
    else
      var first, rest := ParseHex(t[..2]), ReadHex(t[2..]);
      if first.None? || rest.None? || first.value >= 256 then None else Some([first.value] + rest.value)
  }

  /** Every byte string is read back from its hexadecimal text. */
  lemma {:induction false} HexReadsBack(s: seq<Byte>)
    ensures ReadHex(HexEncode(s)) == Some(s)
  {
    if s != [] {
      var t := HexEncode(s);
      var first := [HexChar(s[0] / 16), HexChar(s[0] % 16)];
      assert t[..2] == first == [] + first && t[2..] == HexEncode(s[1..]);
      hide HexEncode, ParseHex;
      ParseTwoMore([], s[0]);
      HexReadsBack(s[1..]);
      assert [s[0]] + s[1..] == s;
    }
  }

  // ----- The default shard -----

  /** An address has a default shard exactly when its last eight characters are hexadecimal digits. */
  lemma ShardableExactly(addr: Address)
    ensures Shardable(addr) <==>
            |addr| >= 8 && forall i | |addr| - 8 <= i < |addr| :: addr[i] in LOWER || addr[i] in UPPER
  {
    if |addr| >= 8 {
      var digits := addr[|addr| - 8..];
      ParsesExactly(digits);
      assert forall i | |addr| - 8 <= i < |addr| :: addr[i] == digits[i - (|addr| - 8)];
    }
  }

  /** It is the number that the last four bytes of the address spell, modulo the number of shards. */
  lemma ShardOfLastBytes(front: string, last: seq<Byte>, shardNum: Positive)
    requires |last| == 4
    ensures Shardable(front + HexEncode(last))
    ensures var n := 0x100_0000 * last[0] as int + 0x1_0000 * last[1] as int + 0x100 * last[2] as int + last[3] as int;
            Addr2Shard(front + HexEncode(last), shardNum) == n % shardNum
  {
    var addr := front + HexEncode(last);
    assert addr[|addr| - 8..] == HexEncode(last);
    HexIsBase16(last);
    FourBytes(last);
  }

  lemma FourBytes(s: seq<Byte>)
    requires |s| == 4
    ensures BigEndian(s) == 0x100_0000 * s[0] as int + 0x1_0000 * s[1] as int + 0x100 * s[2] as int + s[3] as int
  {
    assert s[..3][..2] == s[..2] && s[..2][..1] == s[..1];
    assert BigEndian(s[..1]) == s[0] as int;
    assert BigEndian(s[..2]) == 256 * s[0] as int + s[1] as int;
    assert BigEndian(s[..3]) == 256 * BigEndian(s[..2]) + s[2];
  }

  // ----- Decimal -----

  function ReadDecimal(s: string): (v: Option<nat>) {
    if s == "" then None
    else
      var n := |s| - 1;
      var front := if n == 0 then Some(0) else ReadDecimal(s[..n]);
      if front.None? || !('0' <= s[n] <= '9') then None else Some(10 * front.value + (s[n] as int - '0' as int))
  }

  /** The decimal text of a number is read back as that number. */
  lemma {:induction false} DecimalReadsBack(n: nat)
    ensures ReadDecimal(Itoa(n)) == Some(n)
  {
    if n >= 10 {
      var s := Itoa(n);
      assert s[..|s| - 1] == Itoa(n / 10);
      DecimalReadsBack(n / 10);
    }
  }

  /** So a virtual address is its account followed by the shard in decimal. */
  lemma VirtualAddressReadsBack(addr: Address, k: nat)
    ensures AddrVirtualAccount(addr, k)[..|addr|] == addr
    ensures ReadDecimal(AddrVirtualAccount(addr, k)[|addr|..]) == Some(k)
  {
    assert AddrVirtualAccount(addr, k)[|addr|..] == Itoa(k);
    DecimalReadsBack(k);
  }
}
