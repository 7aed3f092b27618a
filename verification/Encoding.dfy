/** The encodings names go through on their way into ids and key derivations, and that no
    two different inputs are encoded alike. */
module Encoding {
  import opened Base
  import opened Order

  newtype Byte = x: int | 0 <= x < 256

  // ---- length-prefixed parts ----------------------------------------------------------------------

  const U64 := 0x1_0000_0000_0000_0000

  /** A number's last `width` bytes, most significant first. */
  function BigEndian(n: nat, width: nat): (r: seq<Byte>)
    ensures |r| == width
  {
    if width == 0 then [] else BigEndian(n / 256, width - 1) + [(n % 256) as Byte]
  }

  function FromBigEndian(bytes: seq<Byte>): nat {
    if bytes == [] then 0 else 256 * FromBigEndian(bytes[..|bytes| - 1]) + bytes[|bytes| - 1] as nat
  }

  function Power(width: nat): nat {
    if width == 0 then 1 else 256 * Power(width - 1)
  }

  lemma {:induction false} BigEndianRoundTrip(n: nat, width: nat)
    requires n < Power(width)
    ensures FromBigEndian(BigEndian(n, width)) == n
  {
    if width > 0 {
      var high := BigEndian(n / 256, width - 1);
      assert n / 256 < Power(width - 1);
      BigEndianRoundTrip(n / 256, width - 1);
      assert (high + [(n % 256) as Byte])[..width - 1] == high;
    }
  }

  lemma EightBytesHoldALength()
    ensures Power(8) == U64
  {
    assert Power(4) == 0x1_0000_0000;
    assert Power(8) == 256 * 256 * 256 * 256 * Power(4);
  }

  /** One part: its length in eight bytes, then its bytes. */
  function Component(part: seq<Byte>): seq<Byte> {
    BigEndian(|part| % U64, 8) + part
  }

  function Framed(parts: seq<seq<Byte>>): seq<Byte> {
    if parts == [] then [] else Component(parts[0]) + Framed(parts[1..])
  }

  lemma ComponentInjective(a: seq<Byte>, b: seq<Byte>, x: seq<Byte>, y: seq<Byte>)
    requires |a| < U64 && |b| < U64
    requires Component(a) + x == Component(b) + y
    ensures a == b && x == y
  {
    hide BigEndian, FromBigEndian, Power;
    EightBytesHoldALength();
    BigEndianRoundTrip(|a|, 8);
    BigEndianRoundTrip(|b|, 8);
    HeaderSplits(BigEndian(|a|, 8), a, x, BigEndian(|b|, 8), b, y);
    assert (a + x)[..|a|] == a && (b + y)[..|b|] == b;
    assert (a + x)[|a|..] == x && (b + y)[|b|..] == y;
  }

  lemma HeaderSplits(h: seq<Byte>, a: seq<Byte>, x: seq<Byte>, h': seq<Byte>, b: seq<Byte>, y: seq<Byte>)
    requires |h| == |h'| && h + a + x == h' + b + y
    ensures h == h' && a + x == b + y
  {
    assert (h + a + x)[..|h|] == h && (h' + b + y)[..|h'|] == h';
    assert (h + a + x)[|h|..] == a + x && (h' + b + y)[|h'|..] == b + y;
  }

  /** Framed parts can be told apart, whatever follows them. */
  lemma {:induction false} FramedInjective(a: seq<seq<Byte>>, b: seq<seq<Byte>>, x: seq<Byte>, y: seq<Byte>)
    requires |a| == |b| && (forall p | p in a :: |p| < U64) && (forall p | p in b :: |p| < U64)
    requires Framed(a) + x == Framed(b) + y
    ensures a == b && x == y
    decreases |a|
  {
    hide Component;
    if a == [] {
      assert Framed(a) + x == x && Framed(b) + y == y;
    } else {
      var restA, restB := Framed(a[1..]) + x, Framed(b[1..]) + y;
      assert Framed(a) + x == Component(a[0]) + restA;
      assert Framed(b) + y == Component(b[0]) + restB;
      ComponentInjective(a[0], b[0], restA, restB);
      FramedInjective(a[1..], b[1..], x, y);
      assert a == [a[0]] + a[1..] && b == [b[0]] + b[1..];
    }
  }

  // ---- versions in decimal ---------------------------------------------------------------------------

  function Decimal(n: nat): (r: seq<Byte>)
    ensures |r| > 0
  {
    if n < 10 then [(48 + n) as Byte] else Decimal(n / 10) + [(48 + n % 10) as Byte]
  }

  function FromDecimal(digits: seq<Byte>): int {
    if digits == [] then 0 else 10 * FromDecimal(digits[..|digits| - 1]) + digits[|digits| - 1] as int - 48
  }

  lemma {:induction false} DecimalRoundTrip(n: nat)
    ensures FromDecimal(Decimal(n)) == n
  {
    if n >= 10 {
      DecimalRoundTrip(n / 10);
      assert Decimal(n)[..|Decimal(n)| - 1] == Decimal(n / 10);
    } else {
      assert Decimal(n)[..0] == [];
    }
  }

  /** What a copy's key is derived from: a domain, the account, the provider, the version
      and the recipient, then the shared secret. */
  function CopyKeyInput(domain: seq<Byte>, account: seq<Byte>, provider: seq<Byte>, version: nat, device: seq<Byte>,
                        shared: seq<Byte>): seq<Byte>
  {
    domain + (Framed([account, provider, Decimal(version), device]) + shared)
  }

  /** Two derivations from the same input are of the same account, provider, version,
      recipient and shared secret, which is what lets a copy stand for all of them. */
  lemma CopyKeyInputInjective(domain: seq<Byte>, account: seq<Byte>, provider: seq<Byte>, version: nat,
                              device: seq<Byte>, shared: seq<Byte>, account': seq<Byte>, provider': seq<Byte>,
                              version': nat, device': seq<Byte>, shared': seq<Byte>)
    requires |account| < U64 && |provider| < U64 && |Decimal(version)| < U64 && |device| < U64
    requires |account'| < U64 && |provider'| < U64 && |Decimal(version')| < U64 && |device'| < U64
    requires CopyKeyInput(domain, account, provider, version, device, shared)
          == CopyKeyInput(domain, account', provider', version', device', shared')
    ensures account == account' && provider == provider' && version == version' && device == device'
    ensures shared == shared'
  {
    hide Framed, Decimal;
    var a := [account, provider, Decimal(version), device];
    var b := [account', provider', Decimal(version'), device'];
    assert (domain + (Framed(a) + shared))[|domain|..] == Framed(a) + shared;
    assert (domain + (Framed(b) + shared'))[|domain|..] == Framed(b) + shared';
    FramedInjective(a, b, shared, shared');
    assert a[0] == b[0] && a[1] == b[1] && a[2] == b[2] && a[3] == b[3];
    DecimalRoundTrip(version);
    DecimalRoundTrip(version');
  }

  /** The first part and what follows it. */
  function FirstPart(bytes: seq<Byte>): Option<(seq<Byte>, seq<Byte>)> {
    if |bytes| < 8 then None
    else
      var n := FromBigEndian(bytes[..8]);
      if |bytes| < 8 + n then None else Some((bytes[8..8 + n], bytes[8 + n..]))
  }

  lemma FirstPartRoundTrip(part: seq<Byte>, rest: seq<Byte>)
    requires |part| < U64
    ensures FirstPart(Component(part) + rest) == Some((part, rest))
  {
    hide BigEndian, FromBigEndian, Power;
    EightBytesHoldALength();
    BigEndianRoundTrip(|part|, 8);
    var header := BigEndian(|part|, 8);
    var bytes := Component(part) + rest;
    assert bytes == header + part + rest;
    assert bytes[..8] == header && bytes[8..8 + |part|] == part && bytes[8 + |part|..] == rest;
  }

  /** What a derivation input was made from, read back after its domain: the account, the
      provider, the version and the recipient in this order, and what is left. */
  datatype KeyInput = KeyInput(account: seq<Byte>, provider: seq<Byte>, version: int, device: seq<Byte>,
                               shared: seq<Byte>)

  function ReadKeyInput(domain: seq<Byte>, bytes: seq<Byte>): Option<KeyInput> {
    if !(domain <= bytes) then None
    else
      match FirstPart(bytes[|domain|..])
      case None => None
      case Some((account, rest)) =>
        match FirstPart(rest)
        case None => None
        case Some((provider, rest)) =>
          match FirstPart(rest)
          case None => None
          case Some((version, rest)) =>
            match FirstPart(rest)
            case None => None
            case Some((device, shared)) => Some(KeyInput(account, provider, FromDecimal(version), device, shared))
  }

  /** Reading a derivation input back gives all it was made from. */
  lemma KeyInputRoundTrip(domain: seq<Byte>, account: seq<Byte>, provider: seq<Byte>, version: nat, device: seq<Byte>,
                          shared: seq<Byte>)
    requires |account| < U64 && |provider| < U64 && |Decimal(version)| < U64 && |device| < U64
    ensures ReadKeyInput(domain, CopyKeyInput(domain, account, provider, version, device, shared))
         == Some(KeyInput(account, provider, version, device, shared))
  {
    hide Component, Decimal, FirstPart, FromDecimal;
    var digits := Decimal(version);
    var last := Component(device) + shared;
    var third := Component(digits) + last;
    var second := Component(provider) + third;
    var first := Component(account) + second;
    FramedFour(account, provider, digits, device, shared);
    assert (domain + first)[|domain|..] == first;
    FirstPartRoundTrip(account, second);
    FirstPartRoundTrip(provider, third);
    FirstPartRoundTrip(digits, last);
    FirstPartRoundTrip(device, shared);
    DecimalRoundTrip(version);
  }

  lemma FramedFour(a: seq<Byte>, b: seq<Byte>, c: seq<Byte>, d: seq<Byte>, rest: seq<Byte>)
    ensures Framed([a, b, c, d]) + rest == Component(a) + (Component(b) + (Component(c) + (Component(d) + rest)))
  {
    hide Component;
    var none: seq<seq<Byte>> := [];
    assert [d][1..] == none;
    assert Framed([d]) + rest == Component(d) + rest;
    assert [c, d][1..] == [d];
    assert Framed([c, d]) + rest == Component(c) + (Component(d) + rest);
    assert [b, c, d][1..] == [c, d];
    assert Framed([b, c, d]) + rest == Component(b) + (Component(c) + (Component(d) + rest));
    assert [a, b, c, d][1..] == [b, c, d];
  }

  // ---- copy ids in hex ----------------------------------------------------------------------------------

  function HexDigit(n: nat): char
    requires n < 16
  {
    if n < 10 then '0' + n as char else 'a' + (n - 10) as char
  }

  lemma HexDigitOrder(a: nat, b: nat)
    requires a < 16 && b < 16
    ensures HexDigit(a) < HexDigit(b) <==> a < b
    ensures HexDigit(a) == HexDigit(b) <==> a == b
    ensures '/' < HexDigit(a)
  {
  }

  function Hex(bytes: seq<Byte>): string {
    if bytes == [] then []
    else [HexDigit(bytes[0] as nat / 16), HexDigit(bytes[0] as nat % 16)] + Hex(bytes[1..])
  }

  function CopyId(provider: seq<Byte>, device: seq<Byte>): string {
    Hex(provider) + ['/'] + Hex(device)
  }

  predicate BytesLess(a: seq<Byte>, b: seq<Byte>) {
    b != [] && (a == [] || a[0] < b[0] || (a[0] == b[0] && BytesLess(a[1..], b[1..])))
  }

  lemma LessStep(a: char, s: string, b: char, t: string)
    ensures Less([a] + s, [b] + t) <==> a < b || (a == b && Less(s, t))
  {
    assert ([a] + s)[1..] == s && ([b] + t)[1..] == t;
  }

  lemma DigitsFirst(m: nat, n: nat, restA: string, restB: string)
    requires m < 256 && n < 256
    ensures Less([HexDigit(m / 16)] + ([HexDigit(m % 16)] + restA), [HexDigit(n / 16)] + ([HexDigit(n % 16)] + restB))
       <==> m < n || (m == n && Less(restA, restB))
  {
    hide HexDigit, Less;
    LessStep(HexDigit(m / 16), [HexDigit(m % 16)] + restA, HexDigit(n / 16), [HexDigit(n % 16)] + restB);
    LessStep(HexDigit(m % 16), restA, HexDigit(n % 16), restB);
    HexDigitOrder(m / 16, n / 16);
    HexDigitOrder(m % 16, n % 16);
  }

  lemma HexUnfolds(a: seq<Byte>, x: string)
    requires a != []
    ensures Hex(a) + x == [HexDigit(a[0] as nat / 16)] + ([HexDigit(a[0] as nat % 16)] + (Hex(a[1..]) + x))
  {
    hide HexDigit;
  }

  /** The first byte decides, unless it is the same. */
  lemma HexFirst(a: seq<Byte>, b: seq<Byte>, x: string, y: string)
    requires a != [] && b != []
    ensures Less(Hex(a) + x, Hex(b) + y)
       <==> a[0] < b[0] || (a[0] == b[0] && Less(Hex(a[1..]) + x, Hex(b[1..]) + y))
  {
    hide Less, Hex, HexDigit;
    HexUnfolds(a, x);
    HexUnfolds(b, y);
    DigitsFirst(a[0] as nat, b[0] as nat, Hex(a[1..]) + x, Hex(b[1..]) + y);
  }

  /** Hex followed by nothing, or by what is below every digit, keeps the byte order. */
  lemma {:induction false} HexOrder(a: seq<Byte>, b: seq<Byte>, x: string, y: string)
    requires (x == [] || x[0] == '/') && (y == [] || y[0] == '/') && a != b
    ensures Less(Hex(a) + x, Hex(b) + y) <==> BytesLess(a, b)
    decreases |a|
  {
    if a == [] {
      BelowDigits(x, b, y);
      assert Hex(a) + x == x;
    } else if b == [] {
      BelowDigits(y, a, x);
      assert Hex(b) + y == y;
    } else {
      HexFirst(a, b, x, y);
      if a[0] == b[0] {
        assert a == [a[0]] + a[1..] && b == [b[0]] + b[1..];
        HexOrder(a[1..], b[1..], x, y);
      }
    }
  }

  lemma BelowDigits(x: string, b: seq<Byte>, y: string)
    requires (x == [] || x[0] == '/') && b != []
    ensures Less(x, Hex(b) + y) && !Less(Hex(b) + y, x)
  {
    HexDigitOrder(b[0] as nat / 16, 0);
    assert (Hex(b) + y)[0] == HexDigit(b[0] as nat / 16);
  }

  lemma {:induction false} SamePrefix(p: string, s: string, t: string)
    ensures Less(p + s, p + t) <==> Less(s, t)
  {
    if p == [] {
      assert p + s == s && p + t == t;
    } else {
      assert p + s == [p[0]] + (p[1..] + s) && p + t == [p[0]] + (p[1..] + t);
      LessStep(p[0], p[1..] + s, p[0], p[1..] + t);
      SamePrefix(p[1..], s, t);
    }
  }

  lemma {:induction false} BytesTotal(a: seq<Byte>, b: seq<Byte>)
    ensures a == b || BytesLess(a, b) || BytesLess(b, a)
  {
    if a != [] && b != [] && a[0] == b[0] {
      BytesTotal(a[1..], b[1..]);
      assert a == [a[0]] + a[1..] && b == [b[0]] + b[1..];
    }
  }

  lemma {:induction false} BytesIrreflexive(a: seq<Byte>)
    ensures !BytesLess(a, a)
  {
    if a != [] {
      BytesIrreflexive(a[1..]);
    }
  }

  /** Copy ids sort as their providers do, and within one provider as their recipients do. */
  lemma CopyIdOrder(p: seq<Byte>, d: seq<Byte>, p': seq<Byte>, d': seq<Byte>)
    ensures Less(CopyId(p, d), CopyId(p', d')) <==> BytesLess(p, p') || (p == p' && BytesLess(d, d'))
  {
    hide Hex;
    assert CopyId(p, d) == Hex(p) + (['/'] + Hex(d)) && CopyId(p', d') == Hex(p') + (['/'] + Hex(d'));
    if p != p' {
      HexOrder(p, p', ['/'] + Hex(d), ['/'] + Hex(d'));
    } else {
      BytesIrreflexive(p);
      SamePrefix(Hex(p), ['/'] + Hex(d), ['/'] + Hex(d'));
      LessStep('/', Hex(d), '/', Hex(d'));
      if d == d' {
        LessIrreflexive(Hex(d));
        BytesIrreflexive(d);
      } else {
        HexOrder(d, d', [], []);
        assert Hex(d) + [] == Hex(d) && Hex(d') + [] == Hex(d');
      }
    }
  }

  /** One copy id names one provider and one recipient. */
  lemma CopyIdInjective(p: seq<Byte>, d: seq<Byte>, p': seq<Byte>, d': seq<Byte>)
    requires CopyId(p, d) == CopyId(p', d')
    ensures p == p' && d == d'
  {
    hide CopyId, BytesLess;
    CopyIdOrder(p, d, p', d');
    CopyIdOrder(p', d', p, d);
    LessIrreflexive(CopyId(p, d));
    BytesTotal(p, p');
    BytesTotal(d, d');
  }
}
