/**
 * `POST /api/auth/verify-code`: redeem the newest live code row for an
 * email, create the confirmed account and its free profile (deleting the
 * account again when the profile insert fails), then mark the row used.
 */
module VerifyCode {
  import opened Wrappers
  import opened Schema
  import Cipher

  /** The three stores the route touches. */
  datatype Store = Store(codes: seq<CodeRow>, accounts: map<UserId, Account>, profiles: map<UserId, Profile>)

  /** The query's filter: email and code match, unused, and `expires_at > now`. */
  predicate Eligible(r: CodeRow, email: string, code: string, now: int)
  {
    r.email == email && r.code == code && !r.used && r.expiresAt > now
  }

  /**
   * `order('created_at', {ascending: false}).limit(1).single()` over the eligible
   * rows: the index of a newest one (the earliest such row on a tie), or None.
   */
  function Newest(codes: seq<CodeRow>, email: string, code: string, now: int): (r: Option<nat>)
    ensures r.None? <==> forall i :: 0 <= i < |codes| ==> !Eligible(codes[i], email, code, now)
    ensures r.Some? ==> r.value < |codes| && Eligible(codes[r.value], email, code, now)
    ensures r.Some? ==> forall i :: 0 <= i < |codes| && Eligible(codes[i], email, code, now) ==>
                          codes[i].createdAt <= codes[r.value].createdAt
    decreases |codes|
  {
    if codes == [] then None
    else
      var best := Newest(codes[..|codes| - 1], email, code, now);
      var last := |codes| - 1;
      if Eligible(codes[last], email, code, now) && (best.None? || codes[last].createdAt > codes[best.value].createdAt)
      then Some(last)
      else best
  }

  predicate EmailTaken(accounts: map<UserId, Account>, email: string)
  {
    exists id :: id in accounts && accounts[id].email == email
  }

  /**
   * The route as a transition of the stores. `key` is the cipher key the route
   * derives; `newId` the id the auth service assigns; `createFails` and
   * `profileFails` say whether those calls are rejected for a reason of their own.
   * Creating an account also fails when the email or the id is already registered,
   * and inserting the profile when the id already has one.
   */
  function Redeem(s: Store, email: Option<string>, code: Option<string>, now: int, key: Cipher.Key,
                  newId: UserId, createFails: bool, profileFails: bool): (Reply<UserId>, Store)
  {
    if !Truthy(email) || !Truthy(code) then (Fail(400, "Email and code are required"), s)
    else match Newest(s.codes, email.value, code.value, now)
      case None => (Fail(400, "Invalid or expired verification code"), s)
      case Some(i) =>
        match Cipher.Decrypt(key, s.codes[i].passwordBlob)
        case None => (Fail(500, "Internal server error"), s)
        case Some(password) =>
          if createFails || EmailTaken(s.accounts, email.value) || newId in s.accounts
          then (Fail(500, "Failed to create user account"), s)
          else
            var accounts := s.accounts[newId := Account(email.value, password, true)];
            if profileFails || newId in s.profiles
            then (Fail(500, "Failed to create user profile"), s.(accounts := accounts - {newId}))
            else (Ok(newId), Store(s.codes[i := s.codes[i].(used := true)], accounts,
                                   s.profiles[newId := NewProfile(newId, email.value)]))
  }

  method Post(db: Db, email: Option<string>, code: Option<string>, now: int, key: Cipher.Key,
              newId: UserId, createFails: bool, profileFails: bool) returns (reply: Reply<UserId>)
    modifies db`codes, db`accounts, db`profiles
    ensures (reply, Store(db.codes, db.accounts, db.profiles))
            == Redeem(old(Store(db.codes, db.accounts, db.profiles)), email, code, now, key, newId, createFails, profileFails)
  {
    if !Truthy(email) || !Truthy(code) {
      return Fail(400, "Email and code are required");
    }
    var found := Newest(db.codes, email.value, code.value, now);
    if found.None? {
      return Fail(400, "Invalid or expired verification code");
    }
    var row := found.value;
    var password := Cipher.Decrypt(key, db.codes[row].passwordBlob);
    if password.None? {
      return Fail(500, "Internal server error");
    }
    if createFails || EmailTaken(db.accounts, email.value) || newId in db.accounts {
      return Fail(500, "Failed to create user account");
    }
    db.accounts := db.accounts[newId := Account(email.value, password.value, true)];
    if profileFails || newId in db.profiles {
      // roll back: delete the account just created
      db.accounts := db.accounts - {newId};
      return Fail(500, "Failed to create user profile");
    }
    db.profiles := db.profiles[newId := NewProfile(newId, email.value)];
    db.codes := db.codes[row := db.codes[row].(used := true)];
    return Ok(newId);
  }
}

module VerifyCodeFacts {
  import opened Wrappers
  import opened Schema
  import opened Text
  import Cipher
  import SendCode
  import opened VerifyCode

  /** A code row that is used or expired is never the one redeemed. */
  lemma DeadRowNeverChosen(codes: seq<CodeRow>, email: string, code: string, now: int, j: nat)
    requires j < |codes| && codes[j].email == email && codes[j].code == code
    requires codes[j].used || codes[j].expiresAt <= now
    ensures Newest(codes, email, code, now) != Some(j)
  {
  }

  /** Without a live matching row the result is 400 and nothing changes. */
  lemma NoLiveRowRefused(s: Store, email: string, code: string, now: int, key: Cipher.Key,
                         newId: UserId, createFails: bool, profileFails: bool)
    requires email != "" && code != ""
    requires forall i :: 0 <= i < |s.codes| && s.codes[i].email == email && s.codes[i].code == code ==>
               s.codes[i].used || s.codes[i].expiresAt <= now
    ensures Redeem(s, Some(email), Some(code), now, key, newId, createFails, profileFails)
            == (Fail(400, "Invalid or expired verification code"), s)
  {
  }

  /**
   * Every failure leaves all three stores as they were; in particular a failed
   * profile insert deletes the account it had created and leaves the code unused.
   */
  lemma FailureChangesNothing(s: Store, email: Option<string>, code: Option<string>, now: int, key: Cipher.Key,
                              newId: UserId, createFails: bool, profileFails: bool)
    ensures var (reply, after) := Redeem(s, email, code, now, key, newId, createFails, profileFails);
            reply.Fail? ==> after == s
  {
    var (reply, after) := Redeem(s, email, code, now, key, newId, createFails, profileFails);
    if reply.Fail? && reply.error == "Failed to create user profile" {
      assert newId !in s.accounts;
      assert s.accounts[newId := after.accounts[newId := Account("", "", false)][newId]] - {newId} == s.accounts;
      assert after.accounts == s.accounts;
    }
  }

  /**
   * On success: the newest live matching row is the only row that changes and
   * becomes used; the new account is confirmed with the decrypted password; the
   * new profile is on the free tier; nothing else changes.
   */
  lemma SuccessShape(s: Store, email: string, code: string, now: int, key: Cipher.Key,
                     newId: UserId, createFails: bool, profileFails: bool)
    ensures var (reply, after) := Redeem(s, Some(email), Some(code), now, key, newId, createFails, profileFails);
            reply.Ok? ==>
              && reply.value == newId
              && var i := Newest(s.codes, email, code, now).value;
              && Eligible(s.codes[i], email, code, now)
              && (forall j :: 0 <= j < |s.codes| && Eligible(s.codes[j], email, code, now) ==> s.codes[j].createdAt <= s.codes[i].createdAt)
              && |after.codes| == |s.codes|
              && (forall j :: 0 <= j < |s.codes| && j != i ==> after.codes[j] == s.codes[j])
              && after.codes[i] == s.codes[i].(used := true)
              && newId !in s.accounts && after.accounts == s.accounts[newId := after.accounts[newId]]
              && after.accounts[newId].emailConfirmed && after.accounts[newId].email == email
              && Some(after.accounts[newId].password) == Cipher.Decrypt(key, s.codes[i].passwordBlob)
              && newId !in s.profiles && after.profiles == s.profiles[newId := after.profiles[newId]]
              && after.profiles[newId].tier == Free && after.profiles[newId].email == email
  {
  }

  /** After a successful redemption any further redemption for that email fails, whatever the code. */
  lemma SecondRedemptionFails(s: Store, email: string, code: string, now: int, key: Cipher.Key, newId: UserId,
                              code2: Option<string>, now2: int, newId2: UserId, createFails2: bool, profileFails2: bool)
    requires Redeem(s, Some(email), Some(code), now, key, newId, false, false).0.Ok?
    ensures var after := Redeem(s, Some(email), Some(code), now, key, newId, false, false).1;
            Redeem(after, Some(email), code2, now2, key, newId2, createFails2, profileFails2).0.Fail?
  {
    var after := Redeem(s, Some(email), Some(code), now, key, newId, false, false).1;
    assert newId in after.accounts && after.accounts[newId].email == email;
    assert EmailTaken(after.accounts, email);
  }

  /**
   * Sign-up end to end under one shared key: sending a code and then redeeming
   * it before it expires creates the account with the password given at sign-up.
   */
  lemma SignUpRoundTrip(s: Store, email: string, password: string, listed: seq<string>, random: real,
                        issuedAt: int, env: Cipher.Env, iv: seq<nat>, redeemedAt: int, newId: UserId)
    requires 0.0 <= random < 1.0 && email != "" && password != ""
    requires !SendCode.EmailListed(listed, email) && !EmailTaken(s.accounts, email)
    requires newId !in s.accounts && newId !in s.profiles
    requires forall i :: 0 <= i < |s.codes| ==> s.codes[i].createdAt < issuedAt
    requires issuedAt <= redeemedAt < issuedAt + SendCode.CodeLifetime
    requires Cipher.KeyAccepted(Cipher.CipherKey(env))
    ensures var key := Cipher.CipherKey(env);
            var (sent, codes) := SendCode.Issue(s.codes, Some(email), Some(password), listed, random, issuedAt, key, iv, false);
            var (reply, after) := Redeem(s.(codes := codes), Some(email), Some(SendCode.CodeText(random)), redeemedAt, key, newId, false, false);
            && sent == Ok(()) && reply == Ok(newId)
            && after.accounts[newId] == Account(email, password, true)
  {
    var key := Cipher.CipherKey(env);
    Cipher.DecryptEncrypt(key, iv, password);
    var (sent, codes) := SendCode.Issue(s.codes, Some(email), Some(password), listed, random, issuedAt, key, iv, false);
    var code := SendCode.CodeText(random);
    assert Eligible(codes[|s.codes|], email, code, redeemedAt);
    assert Newest(codes, email, code, redeemedAt) == Some(|s.codes|) by {
      var r := Newest(codes, email, code, redeemedAt);
      assert codes[..|codes| - 1] == s.codes;
    }
  }

  /**
   * As written, without ENCRYPTION_KEY the two routes derive different keys:
   * a sign-up that the issuing route accepts always fails when redeemed, and no
   * account is created.
   */
  lemma SignUpFailsAsWritten(s: Store, env: Cipher.Env, email: string, password: string, listed: seq<string>,
                             random: real, issuedAt: int, iv: seq<nat>, redeemedAt: int, newId: UserId, randomHex: string)
    requires 0.0 <= random < 1.0 && email != "" && password != ""
    requires !SendCode.EmailListed(listed, email) && !Cipher.Truthy(env.encryptionKey)
    requires Cipher.KeyAccepted(Cipher.IssueKey(env, randomHex))
    requires forall i :: 0 <= i < |s.codes| ==> s.codes[i].createdAt < issuedAt
    requires issuedAt <= redeemedAt < issuedAt + SendCode.CodeLifetime
    ensures var (sent, codes) := SendCode.Issue(s.codes, Some(email), Some(password), listed, random, issuedAt,
                                                Cipher.IssueKey(env, randomHex), iv, false);
            var (reply, after) := Redeem(s.(codes := codes), Some(email), Some(SendCode.CodeText(random)), redeemedAt,
                                         Cipher.RedeemKey(env), newId, false, false);
            sent == Ok(()) && reply == Fail(500, "Internal server error") && after.accounts == s.accounts
  {
    var key := Cipher.IssueKey(env, randomHex);
    Cipher.DecryptEncrypt(key, iv, password);
    var (sent, codes) := SendCode.Issue(s.codes, Some(email), Some(password), listed, random, issuedAt, key, iv, false);
    var code := SendCode.CodeText(random);
    assert Eligible(codes[|s.codes|], email, code, redeemedAt);
    assert Newest(codes, email, code, redeemedAt) == Some(|s.codes|) by {
      assert codes[..|codes| - 1] == s.codes;
    }
  }
}
