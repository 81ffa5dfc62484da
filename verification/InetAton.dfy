/** The loose IPv4 forms of inet_aton, internal/service/probe.go:406-467 (section 3.1.1 of RFC 6943). */
module InetAton {
  import opened Options
  import opened Strings

  const UINT64 := 0x1_0000_0000_0000_0000

  // ----------------------------------------------------------------- numerals

  /** 16 for a character that is no digit in any base. */
  function DigitValue(c: char): (d: nat)
    ensures d <= 16
  {
    if '0' <= c <= '9' then c as int - '0' as int
    else if 'a' <= c <= 'f' then c as int - 'a' as int + 10
    else if 'A' <= c <= 'F' then c as int - 'A' as int + 10
    else 16
  }

  predicate IsNumeral(s: string, base: nat) {
    s != "" && forall i :: 0 <= i < |s| ==> DigitValue(s[i]) < base
  }

  function NumeralValue(s: string, base: nat): nat {
    if s == "" then 0 else NumeralValue(s[..|s| - 1], base) * base + DigitValue(s[|s| - 1])
  }

  /** strconv.ParseUint(s, base, 64) */
  function ParseUint(s: string, base: nat): Option<nat> {
    if IsNumeral(s, base) && NumeralValue(s, base) < UINT64 then Some(NumeralValue(s, base)) else None
  }

  function DigitChar(d: nat, upper: bool): (c: char)
    requires d < 16
    ensures DigitValue(c) == d && c != '.' && c != 'x' && c != 'X'
    ensures d == 0 <==> c == '0'
  {
    if d < 10 then (d + '0' as int) as char else if upper then (d - 10 + 'A' as int) as char else (d - 10 + 'a' as int) as char
  }

  /** Characters that can stand in a printed numeral of the base. */
  ghost predicate Printed(s: string, base: nat) {
    IsNumeral(s, base) && '.' !in s && 'x' !in s && 'X' !in s
  }

  lemma PrintedOne(c: char, base: nat)
    requires DigitValue(c) < base && c != '.' && c != 'x' && c != 'X'
    ensures Printed([c], base) && NumeralValue([c], base) == DigitValue(c)
  {
    assert [c][..0] == "";
  }

  lemma PrintedMore(s: string, c: char, base: nat)
    requires Printed(s, base) && DigitValue(c) < base && c != '.' && c != 'x' && c != 'X'
    ensures Printed(s + [c], base) && NumeralValue(s + [c], base) == NumeralValue(s, base) * base + DigitValue(c)
  {
    hide DigitValue;
    assert (s + [c])[..|s|] == s;
  }

  function PrintIn(n: nat, base: nat, upper: bool): string
    requires 2 <= base <= 16
    decreases n
  {
    if n < base then [DigitChar(n, upper)] else PrintIn(n / base, base, upper) + [DigitChar(n % base, upper)]
  }

  lemma {:induction false} PrintInValue(n: nat, base: nat, upper: bool)
    requires 2 <= base <= 16
    ensures Printed(PrintIn(n, base, upper), base) && NumeralValue(PrintIn(n, base, upper), base) == n
    decreases n
  {
    hide Printed, NumeralValue, DigitValue, DigitChar;
    if n < base {
      PrintedOne(DigitChar(n, upper), base);
    } else {
      var q, r := n / base, n % base;
      Division(n, base, q, r);
      PrintInValue(q, base, upper);
      PrintedMore(PrintIn(q, base, upper), DigitChar(r, upper), base);
    }
  }

  lemma Division(n: nat, base: nat, q: nat, r: nat)
    requires 2 <= base <= n && q == n / base && r == n % base
    ensures q * base + r == n && r < base && q < n
  {
    assert n == base * q + r;
  }

  lemma {:induction false} PrintInNoLeadingZero(n: nat, base: nat, upper: bool)
    requires 2 <= base <= 16
    ensures PrintIn(n, base, upper) != ""
    ensures |PrintIn(n, base, upper)| > 1 ==> PrintIn(n, base, upper)[0] != '0'
    ensures n > 0 ==> PrintIn(n, base, upper)[0] != '0'
    decreases n
  {
    hide DigitValue, DigitChar;
    if n >= base {
      PrintInNoLeadingZero(n / base, base, upper);
    }
  }

  // --------------------------------------------------------------------- parts

  /** How one part is written. */
  datatype Spelling = Decimal | Octal | Hex(bigX: bool, upper: bool)

  function Write(n: nat, how: Spelling): string {
    match how
    case Decimal => PrintIn(n, 10, false)
    case Octal => "0" + PrintIn(n, 8, false)
    case Hex(bigX, upper) => (if bigX then "0X" else "0x") + PrintIn(n, 16, upper)
  }

  /** The base that the prefix chooses, and the digits after it. */
  function Prefix(p: string): (nat, string) {
    if |p| >= 2 && (p[..2] == "0x" || p[..2] == "0X") then (16, p[2..])
    else if |p| > 1 && p[0] == '0' then (8, p[1..])
    else (10, p)
  }

  /** The number a part stands for. */
  function PartValue(p: string): Option<nat> {
    ParseUint(Prefix(p).1, Prefix(p).0)
  }

  /** internal/service/probe.go:445-467 */
  method ParseInetPart(p: string) returns (v: nat, ok: bool)
    ensures ok <==> PartValue(p).Some?
    ensures ok ==> PartValue(p) == Some(v)
  {
    if p == "" {
      return 0, false;
    }
    var base, s := 10, p;
    if |s| >= 2 && (s[0..2] == "0x" || s[0..2] == "0X") {
      base, s := 16, s[2..];
      if s == "" {
        return 0, false;
      }
    } else if |s| > 1 && s[0] == '0' {
      base, s := 8, s[1..];
    }
    match ParseUint(s, base)
    case Some(n) => return n, true;
    case None => return 0, false;
  }

  /** Every number below 2^64 reads back in each spelling. */
  lemma WrittenPartReads(n: nat, how: Spelling)
    requires n < UINT64
    ensures PartValue(Write(n, how)) == Some(n)
    ensures '.' !in Write(n, how)
  {
    hide PrintIn, NumeralValue, IsNumeral;
    match how
    case Decimal =>
      PrintInValue(n, 10, false);
      PrintInNoLeadingZero(n, 10, false);
      DecimalPrefix(PrintIn(n, 10, false));
      PrintedIs(PrintIn(n, 10, false), 10);
    case Octal =>
      PrintInValue(n, 8, false);
      PrintInNoLeadingZero(n, 8, false);
      PrintedIs(PrintIn(n, 8, false), 8);
      OctalPrefix(PrintIn(n, 8, false));
    case Hex(bigX, upper) =>
      PrintInValue(n, 16, upper);
      PrintedIs(PrintIn(n, 16, upper), 16);
      HexPrefix(PrintIn(n, 16, upper));
  }

  lemma PrintedIs(s: string, base: nat)
    requires Printed(s, base)
    ensures IsNumeral(s, base) && s != "" && '.' !in s && s[0] != 'x' && s[0] != 'X'
  {
  }

  lemma DecimalPrefix(s: string)
    requires s != "" && (|s| > 1 ==> s[0] != '0')
    ensures Prefix(s) == (10, s)
  {
  }

  lemma OctalPrefix(s: string)
    requires s != "" && s[0] != 'x' && s[0] != 'X'
    ensures Prefix("0" + s) == (8, s)
  {
    assert ("0" + s)[..2][1] == s[0] && ("0" + s)[1..] == s;
  }

  lemma HexPrefix(s: string)
    ensures Prefix("0x" + s) == (16, s) && Prefix("0X" + s) == (16, s)
  {
    assert ("0x" + s)[..2] == "0x" && ("0x" + s)[2..] == s;
    assert ("0X" + s)[..2] == "0X" && ("0X" + s)[2..] == s;
  }

  // ----------------------------------------------------------------- addresses

  function Pow256(e: nat): nat {
    if e == 0 then 1 else 256 * Pow256(e - 1)
  }

  /** The values fit: one byte each, and what is left for the last. */
  ghost predicate InRange(vals: seq<nat>) {
    && 1 <= |vals| <= 4
    && (forall i :: 0 <= i < |vals| - 1 ==> vals[i] < 256)
    && vals[|vals| - 1] < Pow256(5 - |vals|)
  }

  /** The base-256 number: each value but the last is one byte from the top, the last fills the rest. */
  function Address(vals: seq<nat>, place: nat): nat {
    if vals == [] then 0
    else if |vals| == 1 then vals[0]
    else vals[0] * Pow256(place) + Address(vals[1..], if place == 0 then 0 else place - 1)
  }

  ghost predicate Reads(parts: seq<string>, vals: seq<nat>) {
    |vals| == |parts| && forall i :: 0 <= i < |parts| ==> PartValue(parts[i]) == Some(vals[i])
  }

  /** The address that a host name in loose form denotes. */
  ghost predicate Denotes(host: string, addr: nat) {
    exists vals :: Reads(Split(host), vals) && InRange(vals) && addr == Address(vals, 3)
  }

  lemma Powers()
    ensures Pow256(0) == 1 && Pow256(1) == 0x100 && Pow256(2) == 0x1_0000 && Pow256(3) == 0x100_0000 && Pow256(4) == 0x1_0000_0000
  {
    assert Pow256(1) == 256 * Pow256(0);
    assert Pow256(2) == 256 * Pow256(1);
    assert Pow256(3) == 256 * Pow256(2);
    assert Pow256(4) == 256 * Pow256(3);
  }

  lemma AddressForms(vals: seq<nat>)
    ensures |vals| == 1 ==> Address(vals, 3) == vals[0]
    ensures |vals| == 2 ==> Address(vals, 3) == vals[0] * 0x100_0000 + vals[1]
    ensures |vals| == 3 ==> Address(vals, 3) == vals[0] * 0x100_0000 + vals[1] * 0x1_0000 + vals[2]
    ensures |vals| == 4 ==> Address(vals, 3) == vals[0] * 0x100_0000 + vals[1] * 0x1_0000 + vals[2] * 0x100 + vals[3]
  {
    Powers();
    if |vals| == 2 {
      assert Address(vals[1..], 2) == vals[1];
    } else if |vals| == 3 {
      assert Address(vals[1..], 2) == vals[1] * Pow256(2) + Address(vals[1..][1..], 1);
      assert Address(vals[1..][1..], 1) == vals[2];
    } else if |vals| == 4 {
      assert Address(vals[1..], 2) == vals[1] * Pow256(2) + Address(vals[1..][1..], 1);
      assert Address(vals[1..][1..], 1) == vals[2] * Pow256(1) + Address(vals[1..][1..][1..], 0);
      assert Address(vals[1..][1..][1..], 0) == vals[3];
    }
  }

  lemma ReadsOnce(parts: seq<string>, a: seq<nat>, b: seq<nat>)
    requires Reads(parts, a) && Reads(parts, b)
    ensures a == b
  {
    forall i | 0 <= i < |parts|
      ensures a[i] == b[i]
    {
      assert PartValue(parts[i]) == Some(a[i]) && PartValue(parts[i]) == Some(b[i]);
    }
  }

  /** internal/service/probe.go:406-440. Shifted values do not overlap, so or is plus. */
  method ParseInetAton(host: string) returns (r: Option<nat>)
    ensures forall addr: nat :: r == Some(addr) <==> Denotes(host, addr)
    ensures r.Some? ==> r.value < 0x1_0000_0000
  {
    hide PartValue, Address, Split, Pow256;
    var parts := Split(host);
    if |parts| == 0 || |parts| > 4 {
      return None;
    }
    var vals: seq<nat> := [];
    for i := 0 to |parts|
      invariant |vals| == i && Reads(parts[..i], vals)
    {
      var v, ok := ParseInetPart(parts[i]);
      if !ok {
        return None;
      }
      vals := vals + [v];
    }
    forall other | Reads(parts, other)
      ensures other == vals
    {
      ReadsOnce(parts, other, vals);
    }
    assert Reads(parts, vals);
    Powers();
    AddressForms(vals);
    match |parts|
    case 1 =>
      if vals[0] > 0xffffffff {
        return None;
      }
      return Some(vals[0]);
    case 2 =>
      if vals[0] > 0xff || vals[1] > 0xffffff {
        return None;
      }
      return Some(vals[0] * 0x100_0000 + vals[1]);
    case 3 =>
      if vals[0] > 0xff || vals[1] > 0xff || vals[2] > 0xffff {
        return None;
      }
      return Some(vals[0] * 0x100_0000 + vals[1] * 0x1_0000 + vals[2]);
    case _ =>
      if vals[0] > 0xff || vals[1] > 0xff || vals[2] > 0xff || vals[3] > 0xff {
        return None;
      }
      return Some(vals[0] * 0x100_0000 + vals[1] * 0x1_0000 + vals[2] * 0x100 + vals[3]);
  }

  /** The values of an address in `n` parts. */
  function Parts(addr: nat, n: nat): (vals: seq<nat>)
    requires 1 <= n <= 4
    ensures |vals| == n
  {
    match n
    case 1 => [addr]
    case 2 => [addr / 0x100_0000, addr % 0x100_0000]
    case 3 => [addr / 0x100_0000, addr / 0x1_0000 % 0x100, addr % 0x1_0000]
    case 4 => [addr / 0x100_0000, addr / 0x1_0000 % 0x100, addr / 0x100 % 0x100, addr % 0x100]
  }

  lemma PartsInRange(addr: nat, n: nat)
    requires 1 <= n <= 4 && addr < 0x1_0000_0000
    ensures InRange(Parts(addr, n)) && Address(Parts(addr, n), 3) == addr
    ensures forall i :: 0 <= i < n ==> Parts(addr, n)[i] < UINT64
  {
    hide Address, Pow256;
    Powers();
    AddressForms(Parts(addr, n));
    Bytes(addr);
  }

  /** The bytes of an address add up to it. */
  lemma Bytes(addr: nat)
    requires addr < 0x1_0000_0000
    ensures addr / 0x100_0000 < 0x100
    ensures addr == addr / 0x100_0000 * 0x100_0000 + addr % 0x100_0000
    ensures addr % 0x100_0000 == addr / 0x1_0000 % 0x100 * 0x1_0000 + addr % 0x1_0000
    ensures addr % 0x1_0000 == addr / 0x100 % 0x100 * 0x100 + addr % 0x100
  {
  }

  /** An address in loose form, one spelling per part. */
  function Spell(addr: nat, how: seq<Spelling>): string
    requires 1 <= |how| <= 4
  {
    Join(seq(|how|, i requires 0 <= i < |how| => Write(Parts(addr, |how|)[i], how[i])))
  }

  /** Every 32-bit address, in every shape and every mix of spellings, reads back as itself. */
  lemma SpelledAddressReads(addr: nat, how: seq<Spelling>)
    requires addr < 0x1_0000_0000 && 1 <= |how| <= 4
    ensures Denotes(Spell(addr, how), addr)
  {
    hide PartValue, Address, Write, Parts, InRange, Split, Join;
    var vals := Parts(addr, |how|);
    PartsInRange(addr, |how|);
    var parts := seq(|how|, i requires 0 <= i < |how| => Write(vals[i], how[i]));
    forall i | 0 <= i < |how|
      ensures PartValue(parts[i]) == Some(vals[i]) && '.' !in parts[i]
    {
      WrittenPartReads(vals[i], how[i]);
    }
    SplitJoin(parts);
    assert Reads(Split(Spell(addr, how)), vals);
  }
}
