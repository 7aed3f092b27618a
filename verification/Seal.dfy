/** Sealing a link's secret for one recipient, as symbolic terms: a copy carries what its
    key derivation binds, and opens only where all of it matches. */
module Seal {
  import opened Base
  import opened Links
  import opened Text

  // ---- names ---------------------------------------------------------------------------

  /** The bytes a character takes in UTF-8. */
  function Utf8Width(c: char): nat {
    if c as int < 0x80 then 1 else if c as int < 0x800 then 2 else if c as int < 0x10000 then 3 else 4
  }

  function Utf8Length(s: string): nat {
    if s == [] then 0 else Utf8Width(s[0]) + Utf8Length(s[1..])
  }

  predicate IsControl(c: char) {
    c as int < 0x20 || 0x7F <= c as int <= 0x9F
  }

  /** An account, provider or device name a copy may be bound to. */
  predicate ValidComponent(s: string) {
    (exists c | c in s :: !IsWhite(c)) && Utf8Length(s) <= 256 && forall c | c in s :: !IsControl(c)
  }

  /** The longest name is 256 bytes, and there is a shortest. */
  lemma NameLimit(s: string)
    requires forall c | c in s :: 'a' <= c <= 'z'
    ensures ValidComponent(s) <==> 1 <= |s| <= 256
  {
    LettersAreBytes(s);
    if |s| > 0 {
      assert s[0] in s;
    }
  }

  lemma {:induction false} LettersAreBytes(s: string)
    requires forall c | c in s :: 'a' <= c <= 'z'
    ensures Utf8Length(s) == |s|
  {
    if s != [] {
      assert s[0] in s;
      assert forall c | c in s[1..] :: c in s;
      LettersAreBytes(s[1..]);
    }
  }

  // ---- sealing and opening ----------------------------------------------------------------

  /** What a copy is a copy of: one version of one account's link to one provider. */
  datatype Context = Context(account: string, provider: string, version: nat)

  function MakeContext(account: string, provider: string, version: nat): Option<Context> {
    if ValidComponent(account) && ValidComponent(provider) && version > 0
    then Some(Context(account, provider, version)) else None
  }

  datatype SealError = InvalidRecipient | Decrypt

  function SecretBytes(secret: Secret): nat {
    match secret
    case Text(text) => Utf8Length(text)
    case Binary(length) => length
  }

  /** A copy for one recipient: a nonce and a tag beside the secret, in hex. The ephemeral
      key and the nonce are fresh for each copy and are not told apart here. */
  function SealCopy(context: Context, secret: Secret, device: string, key: PublicKey): SealedCopy {
    SealedCopy(device, Point(0),
               Cipher(56 + 2 * SecretBytes(secret),
                      Sealed(context.account, context.provider, context.version, device, key, secret)))
  }

  /** Seal for each recipient named, in order. */
  function SealAll(context: Context, secret: Secret, keys: map<string, PublicKey>, names: seq<string>): seq<SealedCopy>
    requires forall n | n in names :: n in keys
  {
    if names == [] then []
    else SealAll(context, secret, keys, names[..|names| - 1])
         + [SealCopy(context, secret, names[|names| - 1], keys[names[|names| - 1]])]
  }

  /** Open a copy with a recipient's key under the context it should have. */
  function OpenCopy(context: Context, key: PublicKey, copy: SealedCopy): Result<Secret, SealError> {
    if !ValidComponent(copy.deviceId) then Err(InvalidRecipient)
    else if !copy.ephemeral.Point? || !copy.ciphertext.Cipher? then Err(Decrypt)
    else
      var body := copy.ciphertext.body;
      if body == Sealed(context.account, context.provider, context.version, copy.deviceId, key, body.secret)
      then Ok(body.secret) else Err(Decrypt)
  }

  /** A copy opens exactly for the recipient, key, account, provider and version it was
      sealed for, whatever device name it is presented under, and gives back the secret. */
  lemma OpensExactly(context: Context, secret: Secret, device: string, key: PublicKey,
                     context': Context, key': PublicKey, device': string)
    requires ValidComponent(device')
    ensures var got := OpenCopy(context', key', SealCopy(context, secret, device, key).(deviceId := device'));
            && (got.Ok? <==> context' == context && key' == key && device' == device)
            && (got.Ok? ==> got.value == secret)
  {
    var body := Sealed(context.account, context.provider, context.version, device, key, secret);
    assert SealCopy(context, secret, device, key).ciphertext.body == body;
  }

  lemma {:induction false} SealAllProperties(context: Context, secret: Secret, keys: map<string, PublicKey>,
                                             names: seq<string>)
    requires forall n | n in names :: n in keys
    ensures |SealAll(context, secret, keys, names)| == |names|
    ensures forall i | 0 <= i < |names| ::
              SealAll(context, secret, keys, names)[i] == SealCopy(context, secret, names[i], keys[names[i]])
    ensures SealedFor(SealAll(context, secret, keys, names)) == set n | n in names
    ensures forall c | c in SealAll(context, secret, keys, names) ::
              c.deviceId in names && c == SealCopy(context, secret, c.deviceId, keys[c.deviceId])
  {
    if names != [] {
      var before := names[..|names| - 1];
      var last := names[|names| - 1];
      SealAllProperties(context, secret, keys, before);
      assert names == before + [last];
      var copies := SealAll(context, secret, keys, before);
      assert SealedFor(copies + [SealCopy(context, secret, last, keys[last])]) == SealedFor(copies) + {last};
    }
  }
}
