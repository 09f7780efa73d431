/**
 * The password blob kept in a verification-code row.  AES-256-CBC itself is not
 * modelled: a blob remembers the key it was sealed with, and only that key opens it.
 * What is modelled is how each route turns the environment into a key, since the
 * issuing route and the redeeming route do that differently.
 */
module Cipher {
  import opened Wrappers

  predicate IsHex(c: char)
  {
    '0' <= c <= '9' || 'a' <= c <= 'f' || 'A' <= c <= 'F'
  }

  function HexValue(c: char): (v: nat)
    requires IsHex(c)
    ensures v < 16
  {
    if '0' <= c <= '9' then (c as int) - ('0' as int)
    else if 'a' <= c <= 'f' then (c as int) - ('a' as int) + 10
    else (c as int) - ('A' as int) + 10
  }

  /** `Buffer.from(s, 'hex')`: pairs of hex digits, up to the first pair that is not one. */
  function HexBytes(s: string): (bytes: seq<nat>)
    ensures |bytes| <= |s| / 2
    decreases |s|
  {
    if |s| < 2 || !IsHex(s[0]) || !IsHex(s[1]) then []
    else [HexValue(s[0]) * 16 + HexValue(s[1])] + HexBytes(s[2..])
  }

  function Take<T>(s: seq<T>, n: nat): (r: seq<T>)
    ensures |r| == if |s| < n then |s| else n
  {
    if |s| <= n then s else s[..n]
  }

  /** A cipher key: raw bytes, or the SHA-256 digest of a secret (32 bytes, never equal to another key). */
  datatype Key = Raw(bytes: seq<nat>) | Sha256(secret: string)

  /** `createCipheriv('aes-256-cbc', key, iv)` throws unless the key has 32 bytes. */
  predicate KeyAccepted(k: Key)
  {
    k.Sha256? || |k.bytes| == 32
  }

  datatype Blob = Blob(sealedWith: Key, iv: seq<nat>, plaintext: string)

  function Encrypt(k: Key, iv: seq<nat>, plaintext: string): Option<Blob>
  {
    if KeyAccepted(k) then Some(Blob(k, iv, plaintext)) else None
  }

  /** Opening a blob with any key but the one that sealed it fails ("bad decrypt"). */
  function Decrypt(k: Key, b: Blob): Option<string>
  {
    if KeyAccepted(k) && k == b.sealedWith then Some(b.plaintext) else None
  }

  lemma DecryptEncrypt(k: Key, iv: seq<nat>, plaintext: string)
    ensures Encrypt(k, iv, plaintext).Some? <==> KeyAccepted(k)
    ensures Encrypt(k, iv, plaintext).Some? ==> Decrypt(k, Encrypt(k, iv, plaintext).value) == Some(plaintext)
  {
  }

  /** The two secrets the routes read from the environment. */
  datatype Env = Env(encryptionKey: Option<string>, serviceRoleKey: Option<string>)

  predicate Truthy(o: Option<string>)
  {
    o.Some? && o.value != ""
  }

  /** The issuing route's key: the hex of ENCRYPTION_KEY, else of the first 64 characters of the service-role key, else of a random hex string. */
  function IssueKey(env: Env, randomHex: string): Key
  {
    var material :=
      if Truthy(env.encryptionKey) then env.encryptionKey.value
      else if Truthy(env.serviceRoleKey) then Take(env.serviceRoleKey.value, 64)
      else randomHex;
    Raw(Take(HexBytes(Take(material, 64)), 32))
  }

  /** The redeeming route's key: the hex of ENCRYPTION_KEY, else the SHA-256 of the service-role key. */
  function RedeemKey(env: Env): Key
  {
    if Truthy(env.encryptionKey) then Raw(Take(HexBytes(env.encryptionKey.value), 32))
    else Sha256(env.serviceRoleKey.GetOr(""))
  }

  /** Decoding a prefix of 2k characters gives the first k bytes of the whole decoding. */
  lemma {:induction false} HexBytesPrefix(s: string, k: nat)
    ensures HexBytes(Take(s, 2 * k)) == Take(HexBytes(s), k)
    decreases k
  {
    if k > 0 && |s| >= 2 && IsHex(s[0]) && IsHex(s[1]) {
      HexBytesPrefix(s[2..], k - 1);
      if |s| > 2 * k {
        assert Take(s, 2 * k)[2..] == Take(s[2..], 2 * (k - 1));
      } else {
        assert Take(s, 2 * k) == s;
        assert Take(s[2..], 2 * (k - 1)) == s[2..];
      }
    } else if k > 0 && |s| >= 2 {
      assert Take(s, 2 * k)[0] == s[0] && Take(s, 2 * k)[1] == s[1];
    }
  }

  /** With ENCRYPTION_KEY set, both routes derive the same key. */
  lemma KeysAgreeWithEncryptionKey(env: Env, randomHex: string)
    requires Truthy(env.encryptionKey)
    ensures IssueKey(env, randomHex) == RedeemKey(env)
  {
    HexBytesPrefix(env.encryptionKey.value, 32);
  }

  /**
   * As written, without ENCRYPTION_KEY and with a hex service-role key, a password
   * sealed at issue cannot be opened at redeem: the routes derive different keys.
   */
  lemma KeysDisagreeWithoutEncryptionKey(iv: seq<nat>, password: string, randomHex: string)
    ensures var env := Env(None, Some(seq(64, _ => '0')));
            && Encrypt(IssueKey(env, randomHex), iv, password).Some?
            && Decrypt(RedeemKey(env), Encrypt(IssueKey(env, randomHex), iv, password).value) == None
  {
    var srk := seq(64, _ => '0');
    var env := Env(None, Some(srk));
    HexBytesAllZero(srk);
    assert |HexBytes(Take(Take(srk, 64), 64))| == 32;
  }

  lemma {:induction false} HexBytesAllZero(s: string)
    requires forall i :: 0 <= i < |s| ==> s[i] == '0'
    ensures |HexBytes(s)| == |s| / 2
    decreases |s|
  {
    if |s| >= 2 {
      HexBytesAllZero(s[2..]);
    }
  }

  /** As written, a service-role key shaped like a JWT ("eyJ...") yields an empty key, so issuing throws. */
  lemma JwtServiceKeyBlocksIssue(srk: string, randomHex: string, iv: seq<nat>, password: string)
    requires StartsWithEy(srk)
    ensures Encrypt(IssueKey(Env(None, Some(srk)), randomHex), iv, password) == None
  {
    assert Take(Take(srk, 64), 64)[1] == 'y';
  }

  predicate StartsWithEy(s: string)
  {
    |s| >= 2 && s[0] == 'e' && s[1] == 'y'
  }

  /** Corrected derivation: one function used by both routes. */
  function CipherKey(env: Env): Key
  {
    RedeemKey(env)
  }

  /** With one derivation, whatever the issuing route seals the redeeming route opens. */
  lemma CipherKeyRoundTrip(env: Env, iv: seq<nat>, password: string)
    ensures Encrypt(CipherKey(env), iv, password).Some? ==>
              Decrypt(CipherKey(env), Encrypt(CipherKey(env), iv, password).value) == Some(password)
    ensures !Truthy(env.encryptionKey) ==> Encrypt(CipherKey(env), iv, password).Some?
  {
  }
}
