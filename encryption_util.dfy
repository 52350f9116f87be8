/**
 * The field-encryption helper (`EncryptionUtil.java`): the pass-through
 * guards of `encrypt` and `decrypt`, and the 32-byte AES key made from the
 * configured key text. The AES cipher and the Base64 codec are not
 * modelled: `encrypt` and `decrypt` take them as functions, where `None`
 * stands for a call that throws.
 */
module EncryptionUtil {
  import opened Common

  newtype byte = x: int | 0 <= x < 256

  /** The AES-256 key length in bytes. */
  const KEY_LENGTH := 32
  const ENCRYPT_FAILED := "Error encrypting value"

  function Min(a: int, b: int): int { if a < b then a else b }

  /** `n` zero bytes. */
  function Zeros(n: nat): (r: seq<byte>)
    ensures |r| == n && forall i :: 0 <= i < n ==> r[i] == 0
  {
    seq(n, _ => 0)
  }

  /** The key made from the key text's UTF-8 bytes: cut to 32 bytes, or
   *  padded to 32 with zeros. */
  function KeyOf(password: seq<byte>): (key: seq<byte>)
    ensures |key| == KEY_LENGTH
    ensures key[..Min(|password|, KEY_LENGTH)] == password[..Min(|password|, KEY_LENGTH)]
    ensures forall i :: Min(|password|, KEY_LENGTH) <= i < KEY_LENGTH ==> key[i] == 0
  {
    if |password| >= KEY_LENGTH then password[..KEY_LENGTH]
    else password + Zeros(KEY_LENGTH - |password|)
  }

  /** `generateKey()`: a zero-filled 32-byte buffer into which the first
   *  min(len, 32) bytes of the key text are copied. */
  method GenerateKey(password: seq<byte>) returns (keyBytes: array<byte>)
    ensures fresh(keyBytes)
    ensures keyBytes[..] == KeyOf(password)
  {
    keyBytes := new byte[KEY_LENGTH](_ => 0);
    var length := Min(|password|, keyBytes.Length);
    forall i | 0 <= i < length {
      keyBytes[i] := password[i];
    }
    assert keyBytes[..length] == KeyOf(password)[..length];
  }

  /** Key texts that agree on their first 32 bytes give the same key. */
  lemma KeyIgnoresTail(a: seq<byte>, b: seq<byte>)
    requires |a| >= KEY_LENGTH && |b| >= KEY_LENGTH && a[..KEY_LENGTH] == b[..KEY_LENGTH]
    ensures KeyOf(a) == KeyOf(b)
  {
  }

  /** A short key text and the same text followed by a zero byte give the
   *  same key. */
  lemma ZeroPaddingCollides(a: seq<byte>)
    requires |a| < KEY_LENGTH
    ensures KeyOf(a + [0]) == KeyOf(a)
  {
    var k, k' := KeyOf(a), KeyOf(a + [0]);
    forall i | 0 <= i < KEY_LENGTH ensures k'[i] == k[i] {
      if i < |a| {
        assert k[..|a|][i] == a[i] && k'[..|a| + 1][i] == (a + [0])[i];
      } else if i == |a| {
        assert k'[..|a| + 1][i] == (a + [0])[i];
      }
    }
  }

  /** `encrypt(value)`: null, empty, or with encryption disabled, the value
   *  comes back as it is; otherwise the cipher's Base64 output, and a
   *  failing cipher is an error. */
  function Encrypt(value: Option<string>, enabled: bool, cipher: string -> Option<string>): (r: Result<Option<string>>)
    ensures value.None? || value.value == "" || !enabled ==> r == Ok(value)
    ensures value.Some? && value.value != "" && enabled ==>
      (r.Err? <==> cipher(value.value).None?)
      && (r.Err? ==> r.error == ENCRYPT_FAILED)
      && (r.Ok? ==> r.value == cipher(value.value))
  {
    if value.None? || value.value == "" || !enabled then Ok(value)
    else
      match cipher(value.value)
      case None => Err(ENCRYPT_FAILED)
      case Some(c) => Ok(Some(c))
  }

  /** `decrypt(value)`: null, empty, disabled, or anything holding '@' comes
   *  back as it is; otherwise the deciphered text, or the input when
   *  deciphering fails. */
  function Decrypt(value: Option<string>, enabled: bool, decipher: string -> Option<string>): (r: Option<string>)
    ensures value.None? ==> r.None?
    ensures r != value ==>
      value.Some? && value.value != "" && enabled && !Contains(value.value, "@") && decipher(value.value) == r
  {
    if value.None? || value.value == "" || !enabled then value
    else if Contains(value.value, "@") then value
    else
      match decipher(value.value)
      case None => value
      case Some(d) => Some(d)
  }

  /** Deciphering is tried exactly on nonempty values without '@' when
   *  encryption is enabled, and its result is used whenever it succeeds. */
  lemma DecryptUsesDecipher(value: string, enabled: bool, decipher: string -> Option<string>)
    requires value != "" && enabled && '@' !in value && decipher(value).Some?
    ensures Decrypt(Some(value), enabled, decipher) == decipher(value)
  {
    ContainsChar(value, '@');
  }
}
