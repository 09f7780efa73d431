/**
 * The email verification page: where the email comes from, the code input's
 * sanitiser, when submitting is possible, and what verifying and resending
 * do to the page state and to the browser's storage.
 */
module VerifyPage {
  import opened Wrappers
  import opened Text
  import Browser
  import opened Schema

  const PendingEmailKey := "pendingVerificationEmail"
  const PendingPasswordKey := "pendingPassword"

  /** The number of digits of a code. */
  const CodeLength: nat := 6

  /** `replace(/\D/g, '')`: the digits of the input, in order. */
  function Digits(s: string): (r: string)
    ensures AllDigits(r) && |r| <= |s|
    decreases |s|
  {
    if s == [] then []
    else if IsDigit(s[|s| - 1]) then Digits(s[..|s| - 1]) + [s[|s| - 1]]
    else Digits(s[..|s| - 1])
  }

  /** A string of digits is its own digits. */
  lemma {:induction false} DigitsOfDigits(s: string)
    requires AllDigits(s)
    ensures Digits(s) == s
    decreases |s|
  {
    if s != [] {
      DigitsOfDigits(s[..|s| - 1]);
      assert s[..|s| - 1] + [s[|s| - 1]] == s;
    }
  }

  /** Appending a character appends its digit, if it is one. */
  lemma DigitsSnoc(s: string, c: char)
    ensures Digits(s + [c]) == Digits(s) + (if IsDigit(c) then [c] else [])
  {
    assert (s + [c])[..|s|] == s;
  }

  /** `.replace(/\D/g, '').slice(0, 6)`. */
  function Sanitize(raw: string): (code: string)
    ensures AllDigits(code) && |code| <= CodeLength
    ensures |code| == if |Digits(raw)| < CodeLength then |Digits(raw)| else CodeLength
    ensures code == Digits(raw)[..|code|]
  {
    var d := Digits(raw);
    if |d| <= CodeLength then d else d[..CodeLength]
  }

  /** Sanitising a sanitised code changes nothing. */
  lemma SanitizeIdempotent(raw: string)
    ensures Sanitize(Sanitize(raw)) == Sanitize(raw)
  {
    DigitsOfDigits(Sanitize(raw));
  }

  /** `disabled={loading || code.length !== 6}`, negated. */
  predicate SubmitEnabled(loading: bool, code: string)
  {
    !(loading || |code| != CodeLength)
  }

  /** With no request in flight, a typed code can be submitted exactly when the input held at least six digits. */
  lemma SubmitAfterTyping(raw: string)
    ensures SubmitEnabled(false, Sanitize(raw)) <==> |Digits(raw)| >= CodeLength
    ensures SubmitEnabled(true, Sanitize(raw)) == false
  {
  }

  /** What a `fetch` of the page's API routes came back with: thrown, or a response with `ok` and the body's `error`. */
  datatype Response = Threw | Answered(ok: bool, error: Option<string>)

  /** The message style: green when it mentions "sent" or "success". */
  predicate Success(message: string)
  {
    Contains(message, "sent") || Contains(message, "success")
  }

  const ResentMessage := "Verification code sent! Please check your email."

  lemma ResentIsSuccess()
    ensures Success(ResentMessage)
  {
    var head, tail := "Verification code ", "! Please check your email.";
    assert ResentMessage == head + "sent" + tail;
    assert (head + "sent" + tail)[|head|..|head| + 4] == "sent";
    assert OccursAt(ResentMessage, "sent", |head|);
    ContainsIff(ResentMessage, "sent");
  }

  class Page {
    var code: string
    var loading: bool
    var message: string
    var email: string

    /**
     * The initial state: a non-empty `email` parameter is taken and saved
     * for later visits; without one, a non-empty saved email is taken.
     */
    constructor (emailParam: Option<string>, storage: Browser.Storage)
      modifies storage
      ensures code == "" && !loading && message == ""
      ensures Truthy(emailParam) ==> email == emailParam.value && storage.items == old(storage.items)[PendingEmailKey := emailParam.value]
      ensures !Truthy(emailParam) ==> storage.items == old(storage.items)
      ensures !Truthy(emailParam) && Truthy(old(storage.GetItem(PendingEmailKey))) ==> email == old(storage.items)[PendingEmailKey]
      ensures !Truthy(emailParam) && !Truthy(old(storage.GetItem(PendingEmailKey))) ==> email == ""
    {
      code := "";
      loading := false;
      message := "";
      email := "";
      new;
      if Truthy(emailParam) {
        email := emailParam.value;
        storage.SetItem(PendingEmailKey, emailParam.value);
      } else {
        var storedEmail := storage.GetItem(PendingEmailKey);
        if Truthy(storedEmail) {
          email := storedEmail.value;
        }
      }
    }

    /** The input's `onChange`. */
    method OnCodeChange(raw: string)
      modifies this
      ensures code == Sanitize(raw)
      ensures loading == old(loading) && message == old(message) && email == old(email)
    {
      code := Sanitize(raw);
    }

    /**
     * `handleVerify`. Without an email it says so and sends nothing. Otherwise
     * it posts the email and code; on success it forgets the pending email and
     * password and goes to the login page, still loading; on failure it shows
     * the server's error, or a fallback, and stops loading.
     */
    method HandleVerify(storage: Browser.Storage, response: Response)
      returns (request: Option<(string, string)>, redirect: Option<string>)
      modifies this, storage
      ensures code == old(code) && email == old(email)
      ensures email == "" ==>
                && request == None && redirect == None && message == "Email is required" && !loading
                && storage.items == old(storage.items)
      ensures email != "" ==> request == Some((email, code))
      ensures email != "" && response.Answered? && response.ok ==>
                && storage.items == old(storage.items) - {PendingEmailKey, PendingPasswordKey}
                && redirect == Some("/auth/login?verified=true") && loading && message == ""
      ensures email != "" && response.Answered? && !response.ok ==>
                && message == (if Truthy(response.error) then response.error.value else "Verification failed")
                && !loading && redirect == None && storage.items == old(storage.items)
      ensures email != "" && response.Threw? ==>
                && message == "An error occurred during verification" && !loading && redirect == None
                && storage.items == old(storage.items)
    {
      loading := true;
      message := "";
      redirect := None;
      if email == "" {
        message := "Email is required";
        loading := false;
        return None, None;
      }
      request := Some((email, code));
      match response
      case Threw =>
        message := "An error occurred during verification";
        loading := false;
      case Answered(ok, error) =>
        if ok {
          storage.RemoveItem(PendingEmailKey);
          storage.RemoveItem(PendingPasswordKey);
          redirect := Some("/auth/login?verified=true");
        } else {
          message := if Truthy(error) then error.value else "Verification failed";
          loading := false;
        }
    }

    /**
     * `handleResend`. Without an email, or without a saved password, it says
     * so and sends nothing; otherwise it posts the email and the saved
     * password and reports the outcome. Loading always ends.
     */
    method HandleResend(storage: Browser.Storage, response: Response) returns (request: Option<(string, string)>)
      modifies this
      ensures code == old(code) && email == old(email) && !loading
      ensures email == "" ==> request == None && message == "Email is required"
      ensures email != "" && !Truthy(storage.GetItem(PendingPasswordKey)) ==>
                request == None && message == "Please sign up again"
      ensures email != "" && Truthy(storage.GetItem(PendingPasswordKey)) ==>
                request == Some((email, storage.items[PendingPasswordKey]))
      ensures request.Some? && response.Answered? && response.ok ==> message == ResentMessage
      ensures request.Some? && response.Answered? && !response.ok ==>
                message == (if Truthy(response.error) then response.error.value else "Failed to resend code")
      ensures request.Some? && response.Threw? ==> message == "An error occurred while resending the code"
    {
      loading := true;
      message := "";
      if email == "" {
        message := "Email is required";
        loading := false;
        return None;
      }
      var password := storage.GetItem(PendingPasswordKey);
      if !Truthy(password) {
        message := "Please sign up again";
        loading := false;
        return None;
      }
      request := Some((email, password.value));
      if response.Threw? {
        message := "An error occurred while resending the code";
      } else if response.ok {
        message := ResentMessage;
      } else {
        message := if Truthy(response.error) then response.error.value else "Failed to resend code";
      }
      loading := false;
    }
  }
}
