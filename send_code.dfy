/**
 * `POST /api/auth/send-verification-code`: refuse a known email, draw a
 * six-digit code, seal the password, and append a code row that expires ten
 * minutes later.
 */
module SendCode {
  import opened Wrappers
  import opened Schema
  import opened Text
  import Cipher

  const CodeLifetime: int := 10 * MsPerMinute

  /** `Math.floor(100000 + Math.random() * 900000)` for a draw `random` in [0, 1). */
  function CodeNumber(random: real): (n: nat)
    requires 0.0 <= random < 1.0
    ensures 100000 <= n <= 999999
  {
    (100000.0 + random * 900000.0).Floor
  }

  /** The code's decimal text: always six digits, and it reads back as the drawn number. */
  function CodeText(random: real): (s: string)
    requires 0.0 <= random < 1.0
    ensures |s| == 6 && AllDigits(s)
    ensures ParseDigits(s) == CodeNumber(random)
  {
    var n := CodeNumber(random);
    assert Pow10(5) == 100000 && Pow10(6) == 1000000;
    NatToStringLength(n, 6);
    ParseNatToString(n);
    NatToString(n)
  }

  function EmailListed(listed: seq<string>, email: string): bool
  {
    exists i :: 0 <= i < |listed| && listed[i] == email
  }

  /**
   * The route as a transition of the code table. `listed` are the emails on the
   * first page `listUsers` returns; `random` the draw; `key` and `iv` the
   * cipher key and vector; `insertFails` whether the insert is rejected.
   */
  function Issue(codes: seq<CodeRow>, email: Option<string>, password: Option<string>, listed: seq<string>,
                 random: real, now: int, key: Cipher.Key, iv: seq<nat>, insertFails: bool): (Reply<()>, seq<CodeRow>)
    requires 0.0 <= random < 1.0
  {
    if !Truthy(email) || !Truthy(password) then (Fail(400, "Email and password are required"), codes)
    else if EmailListed(listed, email.value) then (Fail(400, "User already exists"), codes)
    else
      var code := CodeText(random);
      match Cipher.Encrypt(key, iv, password.value)
      case None => (Fail(500, "Internal server error"), codes)
      case Some(blob) =>
        if insertFails then (Fail(500, "Failed to generate verification code"), codes)
        else (Ok(()), codes + [CodeRow(email.value, blob, code, now + CodeLifetime, false, now)])
  }

  method Post(db: Db, email: Option<string>, password: Option<string>, listed: seq<string>,
              random: real, now: int, key: Cipher.Key, iv: seq<nat>, insertFails: bool) returns (reply: Reply<()>)
    requires 0.0 <= random < 1.0
    modifies db`codes
    ensures (reply, db.codes) == Issue(old(db.codes), email, password, listed, random, now, key, iv, insertFails)
  {
    if !Truthy(email) || !Truthy(password) {
      return Fail(400, "Email and password are required");
    }
    if EmailListed(listed, email.value) {
      return Fail(400, "User already exists");
    }
    var verificationCode := CodeText(random);
    var sealed := Cipher.Encrypt(key, iv, password.value);
    if sealed.None? {
      return Fail(500, "Internal server error");
    }
    var expiresAt := now + CodeLifetime;
    if insertFails {
      return Fail(500, "Failed to generate verification code");
    }
    db.codes := db.codes + [CodeRow(email.value, sealed.value, verificationCode, expiresAt, false, now)];
    return Ok(());
  }

  /** A missing email or password, or an email already listed, is refused with 400 and the table unchanged. */
  lemma RefusalsChangeNothing(codes: seq<CodeRow>, email: Option<string>, password: Option<string>, listed: seq<string>,
                              random: real, now: int, key: Cipher.Key, iv: seq<nat>, insertFails: bool)
    requires 0.0 <= random < 1.0
    requires !Truthy(email) || !Truthy(password) || EmailListed(listed, email.value)
    ensures var (reply, after) := Issue(codes, email, password, listed, random, now, key, iv, insertFails);
            reply.Fail? && reply.status == 400 && after == codes
  {
  }

  /**
   * On success exactly one row is appended: the email, the sealed password,
   * a six-digit code, unused, created now and expiring ten minutes later;
   * every earlier row is kept as it was.
   */
  lemma IssueAppendsOneRow(codes: seq<CodeRow>, email: Option<string>, password: Option<string>, listed: seq<string>,
                           random: real, now: int, key: Cipher.Key, iv: seq<nat>, insertFails: bool)
    requires 0.0 <= random < 1.0
    ensures var (reply, after) := Issue(codes, email, password, listed, random, now, key, iv, insertFails);
            (reply.Ok? <==> Truthy(email) && Truthy(password) && !EmailListed(listed, email.value)
                            && Cipher.KeyAccepted(key) && !insertFails)
            && (reply.Ok? ==>
                  && |after| == |codes| + 1 && after[..|codes|] == codes
                  && var row := after[|codes|];
                  && row.email == email.value && !row.used && row.createdAt == now
                  && row.expiresAt == now + 10 * 60 * 1000
                  && |row.code| == 6 && AllDigits(row.code) && 100000 <= ParseDigits(row.code) <= 999999
                  && Cipher.Decrypt(key, row.passwordBlob) == Some(password.value))
            && (reply.Fail? ==> after == codes)
  {
    if Truthy(email) && Truthy(password) {
      Cipher.DecryptEncrypt(key, iv, password.value);
    }
  }
}
