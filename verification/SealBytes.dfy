/** The bytes a copy's key is derived from. A hash that does not collide and an encryption
    that opens only under its own key leave one question: which openings derive the key a
    copy was sealed under. The names' encoding leaves exactly those the symbolic copies of
    `Seal` allow. */
module SealBytes {
  import opened Base
  import opened Links
  import opened Seal
  import opened Encoding

  // ---- text as bytes -------------------------------------------------------------------------

  /** A character in UTF-8. */
  function Utf8Char(c: char): (r: seq<Byte>)
    ensures |r| == Utf8Width(c)
  {
    var v := c as int;
    if v < 0x80 then [v as Byte]
    else if v < 0x800 then [(0xC0 + v / 64) as Byte, (0x80 + v % 64) as Byte]
    else if v < 0x10000 then [(0xE0 + v / 4096) as Byte, (0x80 + v / 64 % 64) as Byte, (0x80 + v % 64) as Byte]
    else [(0xF0 + v / 262144) as Byte, (0x80 + v / 4096 % 64) as Byte, (0x80 + v / 64 % 64) as Byte,
          (0x80 + v % 64) as Byte]
  }

  function Utf8(s: string): seq<Byte> {
    if s == [] then [] else Utf8Char(s[0]) + Utf8(s[1..])
  }

  lemma {:induction false} Utf8IsAsLong(s: string)
    ensures |Utf8(s)| == Utf8Length(s)
  {
    if s != [] {
      Utf8IsAsLong(s[1..]);
    }
  }

  /** How many bytes follow a first byte. */
  lemma FirstByteTells(c: char)
    ensures var b := Utf8Char(c)[0] as int;
            Utf8Width(c) == if b < 0x80 then 1 else if b < 0xE0 then 2 else if b < 0xF0 then 3 else 4
  {
    assert c as int < 0x110000;
  }

  /** The character a character's bytes are of. */
  function FromUtf8Char(bytes: seq<Byte>): int {
    if |bytes| == 1 then bytes[0] as int
    else if |bytes| == 2 then (bytes[0] as int - 0xC0) * 64 + (bytes[1] as int - 0x80)
    else if |bytes| == 3 then
      (bytes[0] as int - 0xE0) * 4096 + (bytes[1] as int - 0x80) * 64 + (bytes[2] as int - 0x80)
    else if |bytes| == 4 then
      (bytes[0] as int - 0xF0) * 262144 + (bytes[1] as int - 0x80) * 4096 + (bytes[2] as int - 0x80) * 64
      + (bytes[3] as int - 0x80)
    else 0
  }

  lemma CharRoundTrip(c: char)
    ensures FromUtf8Char(Utf8Char(c)) == c as int
  {
    var v := c as int;
    assert v == v / 64 * 64 + v % 64;
    assert v / 64 == v / 4096 * 64 + v / 64 % 64;
    assert v / 4096 == v / 262144 * 64 + v / 4096 % 64;
  }

  /** Different text has different bytes, whatever follows. */
  lemma {:induction false} Utf8Injective(s: string, t: string)
    requires Utf8(s) == Utf8(t)
    ensures s == t
    decreases |s|
  {
    hide Utf8Char, FromUtf8Char;
    if s != [] && t != [] {
      var a, b := Utf8Char(s[0]), Utf8Char(t[0]);
      assert Utf8(s)[0] == a[0] && Utf8(t)[0] == b[0];
      FirstByteTells(s[0]);
      FirstByteTells(t[0]);
      assert Utf8(s)[..|a|] == a && Utf8(t)[..|b|] == b;
      assert Utf8(s)[|a|..] == Utf8(s[1..]) && Utf8(t)[|b|..] == Utf8(t[1..]);
      CharRoundTrip(s[0]);
      CharRoundTrip(t[0]);
      Utf8Injective(s[1..], t[1..]);
      assert s == [s[0]] + s[1..] && t == [t[0]] + t[1..];
    }
  }

  // ---- the derivation --------------------------------------------------------------------------

  const DOMAIN := "gaugewright/account-link/ecies/v1"

  /** What the key of a copy is hashed from, given what the two keys share. */
  function Derived(context: Context, device: string, shared: seq<Byte>): seq<Byte> {
    CopyKeyInput(Utf8(DOMAIN), Utf8(context.account), Utf8(context.provider), context.version, Utf8(device), shared)
  }

  lemma {:induction false} DecimalIsShort(n: nat)
    requires n > 0
    ensures |Decimal(n)| <= n
  {
    if n >= 10 {
      DecimalIsShort(n / 10);
    }
  }

  lemma DerivedInjective(context: Context, device: string, shared: seq<Byte>, context': Context, device': string,
                         shared': seq<Byte>)
    requires MakeContext(context.account, context.provider, context.version) == Some(context)
    requires MakeContext(context'.account, context'.provider, context'.version) == Some(context')
    requires context.version < U64 && context'.version < U64 && ValidComponent(device) && ValidComponent(device')
    requires Derived(context, device, shared) == Derived(context', device', shared')
    ensures context == context' && device == device' && shared == shared'
  {
    hide Utf8, Decimal, Framed, CopyKeyInput;
    Utf8IsAsLong(context.account);
    Utf8IsAsLong(context.provider);
    Utf8IsAsLong(device);
    Utf8IsAsLong(context'.account);
    Utf8IsAsLong(context'.provider);
    Utf8IsAsLong(device');
    DecimalIsShort(context.version);
    DecimalIsShort(context'.version);
    CopyKeyInputInjective(Utf8(DOMAIN), Utf8(context.account), Utf8(context.provider), context.version, Utf8(device),
                          shared, Utf8(context'.account), Utf8(context'.provider), context'.version, Utf8(device'),
                          shared');
    Utf8Injective(context.account, context'.account);
    Utf8Injective(context.provider, context'.provider);
    Utf8Injective(device, device');
  }

  /** Opening a copy derives the key it was sealed under just if it is opened for the same
      account, provider, version and recipient with a key that shares the same secret with
      the copy's ephemeral one; where keys share different secrets, just if the symbolic
      copy opens. */
  lemma OpensAsDerived(share: PublicKey -> seq<Byte>, context: Context, secret: Secret, device: string,
                       key: PublicKey, context': Context, key': PublicKey, device': string)
    requires MakeContext(context.account, context.provider, context.version) == Some(context)
    requires MakeContext(context'.account, context'.provider, context'.version) == Some(context')
    requires context.version < U64 && context'.version < U64 && ValidComponent(device) && ValidComponent(device')
    ensures Derived(context', device', share(key')) == Derived(context, device, share(key))
       <==> context' == context && device' == device && share(key') == share(key)
    ensures (share(key') == share(key) ==> key' == key) ==>
              (OpenCopy(context', key', SealCopy(context, secret, device, key).(deviceId := device')).Ok?
               <==> Derived(context', device', share(key')) == Derived(context, device, share(key)))
  {
    hide Derived, ValidComponent, OpenCopy, SealCopy;
    if Derived(context', device', share(key')) == Derived(context, device, share(key)) {
      DerivedInjective(context', device', share(key'), context, device, share(key));
    }
    OpensExactly(context, secret, device, key, context', key', device');
  }
}
