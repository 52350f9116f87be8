/**
 * The JPA converter that encrypts e-mail addresses at rest
 * (`EmailConverter.java`). Writing encrypts unless the value already looks
 * like a ciphertext; reading decrypts unless the value already looks like
 * an address, and keeps the stored text whenever decryption does not give
 * one. The cipher is the one `EncryptionUtil` wraps, passed as functions.
 */
module EmailConverter {
  import opened Common
  import opened EncryptionUtil

  /** A character of the Base64 alphabet, with padding. */
  predicate IsBase64Char(c: char)
  {
    ('A' <= c <= 'Z') || ('a' <= c <= 'z') || ('0' <= c <= '9') || c == '+' || c == '/' || c == '='
  }

  /** `s.matches("^[A-Za-z0-9+/=]+$")`. */
  predicate Base64Shaped(s: string)
  {
    |s| > 0 && forall i :: 0 <= i < |s| ==> IsBase64Char(s[i])
  }

  /** `isEncrypted(email)`. */
  predicate IsEncrypted(email: string)
  {
    !Contains(email, "@") && Base64Shaped(email)
  }

  /** The '@' test of `isEncrypted` adds nothing: '@' is not in the Base64
   *  alphabet. */
  lemma EncryptedIffBase64(email: string)
    ensures IsEncrypted(email) <==> Base64Shaped(email)
  {
    ContainsChar(email, '@');
    if '@' in email {
      var i :| 0 <= i < |email| && email[i] == '@';
      assert !IsBase64Char(email[i]);
    }
  }

  /** `convertToDatabaseColumn(email)`. */
  function ToColumn(email: Option<string>, enabled: bool, cipher: string -> Option<string>): (r: Option<string>)
    ensures email.None? ==> r.None?
    ensures !enabled || (email.Some? && IsEncrypted(email.value)) ==> r == email
    ensures r != email ==>
      email.Some? && enabled && !IsEncrypted(email.value) && email.value != "" && cipher(email.value) == r
  {
    if email.None? || !enabled then email
    else if IsEncrypted(email.value) then email
    else
      match Encrypt(email, enabled, cipher)
      case Err(_) => email
      case Ok(v) => v
  }

  /** `convertToEntityAttribute(stored)`. */
  function FromColumn(stored: Option<string>, enabled: bool, decipher: string -> Option<string>): (r: Option<string>)
    ensures stored.None? ==> r.None?
    ensures !enabled || (stored.Some? && Contains(stored.value, "@")) ==> r == stored
    ensures r != stored ==>
      stored.Some? && enabled && r.Some? && Contains(r.value, "@") && decipher(stored.value) == r
  {
    if stored.None? || !enabled then stored
    else if Contains(stored.value, "@") then stored
    else
      var d := Decrypt(stored, enabled, decipher);
      if d.Some? && Contains(d.value, "@") then d else stored
  }

  /** What a working cipher promises: its output is Base64 text, which
   *  deciphers to the input. */
  ghost predicate CipherPair(cipher: string -> Option<string>, decipher: string -> Option<string>)
  {
    forall x :: cipher(x).Some? ==> Base64Shaped(cipher(x).value) && decipher(cipher(x).value) == Some(x)
  }

  /** Base64 text has no '@'. */
  lemma Base64HasNoAt(s: string)
    requires Base64Shaped(s)
    ensures !Contains(s, "@")
  {
    EncryptedIffBase64(s);
  }

  /** An address (a value with '@') reads back as it was written, whether
   *  the cipher worked or not. */
  lemma AddressRoundTrip(x: string, enabled: bool, cipher: string -> Option<string>, decipher: string -> Option<string>)
    requires CipherPair(cipher, decipher) && Contains(x, "@")
    ensures FromColumn(ToColumn(Some(x), enabled, cipher), enabled, decipher) == Some(x)
  {
    var w := ToColumn(Some(x), enabled, cipher);
    if w != Some(x) {
      var c := cipher(x).value;
      Base64HasNoAt(c);
      DecryptUsesDecipher(c, enabled, decipher);
    }
  }

  /** A value without '@' outside the Base64 alphabet is written as its
   *  ciphertext and read back as that ciphertext, not as the value. */
  lemma PlainTextReadsBackCiphertext(x: string, cipher: string -> Option<string>, decipher: string -> Option<string>)
    requires CipherPair(cipher, decipher)
    requires x != "" && !Contains(x, "@") && !Base64Shaped(x) && cipher(x).Some?
    ensures ToColumn(Some(x), true, cipher) == cipher(x)
    ensures FromColumn(ToColumn(Some(x), true, cipher), true, decipher) == cipher(x) != Some(x)
  {
    var c := cipher(x).value;
    Base64HasNoAt(c);
    DecryptUsesDecipher(c, true, decipher);
  }

  /** Writing what was written does not encrypt twice. */
  lemma WriteIdempotent(x: Option<string>, enabled: bool, cipher: string -> Option<string>, decipher: string -> Option<string>)
    requires CipherPair(cipher, decipher)
    ensures ToColumn(ToColumn(x, enabled, cipher), enabled, cipher) == ToColumn(x, enabled, cipher)
  {
    var w := ToColumn(x, enabled, cipher);
    if w != x {
      Base64HasNoAt(w.value);
    }
  }
}
