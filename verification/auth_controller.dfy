/** The account and password-reset handlers of server/src/controllers/authController.ts
    as transitions over an in-memory user table. The position of an account in
    the table is its `_id`; `User.findOne` returns the first match in insertion
    order. Password hashing and bcrypt's comparison are one abstract predicate,
    `Date.now()` is the `now` argument in milliseconds, the random OTP is the
    `code` argument and the outcome of `sendEmail` is the `mailed` argument. */
module AuthController {
  import opened Base

  /** A user document: `otp` and `otpExpires` are absent until a reset is requested. */
  datatype Account = Account(name: string, email: string, password: string,
                             otp: Option<string>, otpExpires: Option<int>)

  /** An HTTP response: the account fields the handler returns, or a message. */
  datatype Reply =
    | Profile(status: int, id: nat, name: string, email: string)
    | Message(status: int, message: string)

  /** `10 * 60 * 1000` milliseconds. */
  const OtpLifetime: int := 10 * 60 * 1000

  // ---------------------------------------------------------------------------
  // Lookups
  // ---------------------------------------------------------------------------

  function HasEmail(email: string): Account -> bool
  {
    (a: Account) => a.email == email
  }

  /** `User.findOne({ email })`. */
  function FindByEmail(users: seq<Account>, email: string): (r: Option<nat>)
    ensures r.Some? ==> r.value < |users| && users[r.value].email == email
    ensures r.None? <==> forall j :: 0 <= j < |users| ==> users[j].email != email
  {
    var r := FirstIndex(users, HasEmail(email));
    assert r.Some? ==> HasEmail(email)(users[r.value]);
    r
  }

  /** The account matches `{ email, otp, otpExpires: { $gt: now } }`: the expiry
      must lie strictly after `now`. */
  function HoldsOtp(email: string, otp: string, now: int): Account -> bool
  {
    (a: Account) => a.email == email && a.otp == Some(otp) && a.otpExpires.Some? && a.otpExpires.value > now
  }

  /** `User.findOne({ email, otp, otpExpires: { $gt: Date.now() } })`. */
  function FindOtpHolder(users: seq<Account>, email: string, otp: string, now: int): (r: Option<nat>)
    ensures r.Some? ==> r.value < |users| && users[r.value].email == email && users[r.value].otp == Some(otp)
    ensures r.Some? ==> users[r.value].otpExpires.Some? && users[r.value].otpExpires.value > now
    ensures r.None? <==> forall j :: 0 <= j < |users| ==> !HoldsOtp(email, otp, now)(users[j])
  {
    FirstIndex(users, HoldsOtp(email, otp, now))
  }

  /** No two accounts share an email address. */
  predicate UniqueEmails(users: seq<Account>)
  {
    forall i, j :: 0 <= i < j < |users| ==> users[i].email != users[j].email
  }

  // ---------------------------------------------------------------------------
  // The one-time password
  // ---------------------------------------------------------------------------

  function DigitChar(d: nat): (c: char)
    requires d < 10
    ensures '0' <= c <= '9'
  {
    ('0' as int + d) as char
  }

  /** `Number.prototype.toString()` for a non-negative integer: its decimal digits. */
  function Decimal(n: nat): (s: string)
    ensures |s| >= 1
    ensures forall i :: 0 <= i < |s| ==> '0' <= s[i] <= '9'
  {
    if n < 10 then [DigitChar(n)] else Decimal(n / 10) + [DigitChar(n % 10)]
  }

  /** The number a string of decimal digits denotes. */
  function ParseDecimal(s: string): nat
    requires forall i :: 0 <= i < |s| ==> '0' <= s[i] <= '9'
  {
    if s == [] then 0
    else ParseDecimal(s[..|s| - 1]) * 10 + (s[|s| - 1] as int - '0' as int)
  }

  /** The digits denote the number again, so distinct codes give distinct OTPs. */
  lemma {:induction false} DecimalRoundTrip(n: nat)
    ensures ParseDecimal(Decimal(n)) == n
  {
    if n >= 10 {
      var s := Decimal(n);
      assert s[..|s| - 1] == Decimal(n / 10);
      DecimalRoundTrip(n / 10);
    }
  }

  /** Every code in 100000..999999 is sent as exactly six digits. */
  lemma OtpSixDigits(code: nat)
    requires 100000 <= code <= 999999
    ensures |Decimal(code)| == 6
  {
    var n1 := code / 10;
    var n2 := n1 / 10;
    var n3 := n2 / 10;
    var n4 := n3 / 10;
    var n5 := n4 / 10;
    assert 1 <= n5 < 10;
    assert |Decimal(n4)| == 2;
    assert |Decimal(n3)| == 3;
    assert |Decimal(n2)| == 4;
    assert |Decimal(n1)| == 5;
  }

  /** The account after `forgotPassword` stored a code issued at `now`. */
  function Issued(a: Account, code: nat, now: int): Account
  {
    a.(otp := Some(Decimal(code)), otpExpires := Some(now + OtpLifetime))
  }

  /** The account with `otp` and `otpExpires` set back to `undefined`. */
  function Cleared(a: Account): Account
  {
    a.(otp := None, otpExpires := None)
  }

  /** The account after a successful `resetPassword`. */
  function AfterReset(a: Account, password: string): Account
  {
    Cleared(a).(password := password)
  }

  /** The request body fields merged into an account by `updateUserProfile`: an
      empty (or missing) name, email or password keeps the stored one. */
  function Merged(a: Account, name: string, email: string, password: string): Account
  {
    a.(name := if name != "" then name else a.name,
       email := if email != "" then email else a.email,
       password := if password != "" then password else a.password)
  }

  // ---------------------------------------------------------------------------
  // Properties of the table
  // ---------------------------------------------------------------------------

  /** A signup that passed the duplicate check keeps emails unique. */
  lemma SignupKeepsEmailsUnique(users: seq<Account>, account: Account)
    requires UniqueEmails(users) && FindByEmail(users, account.email).None?
    ensures UniqueEmails(users + [account])
  {
  }

  /** With unique emails, a code just issued to account `i` at `issuedAt` is
      found for that account exactly while `now` is before `issuedAt + 600000`,
      and for no account once that instant is reached. */
  lemma IssuedOtpExpires(users: seq<Account>, i: nat, code: nat, issuedAt: int, now: int)
    requires UniqueEmails(users) && i < |users|
    ensures FindOtpHolder(users[i := Issued(users[i], code, issuedAt)], users[i].email, Decimal(code), now) ==
      (if now < issuedAt + OtpLifetime then Some(i) else None)
  {
    var after := users[i := Issued(users[i], code, issuedAt)];
    var holds := HoldsOtp(users[i].email, Decimal(code), now);
    forall j | 0 <= j < |after| && j != i ensures !holds(after[j]) {
      assert after[j] == users[j];
      if i < j {
        assert users[i].email != users[j].email;
      } else {
        assert users[j].email != users[i].email;
      }
    }
    var r := FindOtpHolder(after, users[i].email, Decimal(code), now);
    if now < issuedAt + OtpLifetime {
      assert holds(after[i]);
      assert r.Some?;
    }
  }

  /** With unique emails, an OTP that reset a password cannot reset it again:
      after the reset no account holds it, at any later time. */
  lemma ResetIsSingleUse(users: seq<Account>, email: string, otp: string, now: int, password: string, later: int)
    requires UniqueEmails(users) && FindOtpHolder(users, email, otp, now).Some?
    ensures var i := FindOtpHolder(users, email, otp, now).value;
      FindOtpHolder(users[i := AfterReset(users[i], password)], email, otp, later).None?
  {
  }

  // ---------------------------------------------------------------------------
  // The handlers
  // ---------------------------------------------------------------------------

  /** The user collection behind the controller. */
  class Accounts {
    var users: seq<Account>
    /** `user.matchPassword(candidate)`: whether a candidate matches the stored (hashed) password. */
    const matchPassword: (string, string) -> bool

    constructor (matchPassword: (string, string) -> bool)
      ensures users == [] && this.matchPassword == matchPassword
    {
      users := [];
      this.matchPassword := matchPassword;
    }

    /** `signup`: an email already present is refused with 400 and nothing is
        stored; otherwise the account is appended and returned with 201. */
    method Signup(name: string, email: string, password: string) returns (reply: Reply)
      modifies this
      ensures FindByEmail(old(users), email).Some? ==>
        reply == Message(400, "User already exists") && users == old(users)
      ensures FindByEmail(old(users), email).None? ==>
        users == old(users) + [Account(name, email, password, None, None)] &&
        reply == Profile(201, |old(users)|, name, email)
    {
      if FindByEmail(users, email).Some? {
        reply := Message(400, "User already exists");
        return;
      }
      reply := Profile(201, |users|, name, email);
      users := users + [Account(name, email, password, None, None)];
    }

    /** `login`: succeeds exactly when an account with that email exists and the
        password matches it; an unknown email and a wrong password get the same
        401 reply. Nothing is stored. */
    method Login(email: string, password: string) returns (reply: Reply)
      ensures reply.Profile? <==>
        FindByEmail(users, email).Some? && matchPassword(users[FindByEmail(users, email).value].password, password)
      ensures reply.Profile? ==> var i := FindByEmail(users, email).value;
        reply == Profile(200, i, users[i].name, users[i].email)
      ensures reply.Message? ==> reply == Message(401, "Invalid email or password")
    {
      var found := FindByEmail(users, email);
      if found.Some? && matchPassword(users[found.value].password, password) {
        var a := users[found.value];
        reply := Profile(200, found.value, a.name, a.email);
      } else {
        reply := Message(401, "Invalid email or password");
      }
    }

    /** `updateUserProfile` for the signed-in account `id`. A new password needs
        the old one, and a missing (400) or wrong (401) old password saves
        nothing at all, not even the name or email. Otherwise the merged account
        is saved and returned. */
    method UpdateUserProfile(id: nat, name: string, email: string, password: string, oldPassword: string)
      returns (reply: Reply)
      modifies this
      ensures id >= |old(users)| ==> reply == Message(404, "User not found") && users == old(users)
      ensures id < |old(users)| && password != "" && oldPassword == "" ==>
        reply == Message(400, "Old password is required to set a new password") && users == old(users)
      ensures (id < |old(users)| && password != "" && oldPassword != "" &&
               !matchPassword(old(users)[id].password, oldPassword)) ==>
        reply == Message(401, "Invalid old password") && users == old(users)
      ensures id < |old(users)| && (password == "" || (oldPassword != "" && matchPassword(old(users)[id].password, oldPassword))) ==>
        var saved := Merged(old(users)[id], name, email, password);
        users == old(users)[id := saved] && reply == Profile(200, id, saved.name, saved.email)
    {
      if id >= |users| {
        reply := Message(404, "User not found");
        return;
      }
      var user := users[id];
      user := user.(name := if name != "" then name else user.name);
      user := user.(email := if email != "" then email else user.email);
      if password != "" {
        if oldPassword != "" {
          if matchPassword(users[id].password, oldPassword) {
            user := user.(password := password);
          } else {
            reply := Message(401, "Invalid old password");
            return;
          }
        } else {
          reply := Message(400, "Old password is required to set a new password");
          return;
        }
      }
      users := users[id := user];
      reply := Profile(200, id, user.name, user.email);
    }

    /** `forgotPassword`: an unknown email gets 404. Otherwise the account
        receives the decimal OTP `code` expiring ten minutes after `now`; when the
        email cannot be sent both fields are cleared again (so an earlier OTP
        is revoked too) and the reply is 500. */
    method ForgotPassword(email: string, now: int, code: nat, mailed: bool) returns (reply: Reply)
      requires 100000 <= code <= 999999
      modifies this
      ensures FindByEmail(old(users), email).None? ==>
        reply == Message(404, "User not found") && users == old(users)
      ensures FindByEmail(old(users), email).Some? && mailed ==> var i := FindByEmail(old(users), email).value;
        users == old(users)[i := Issued(old(users)[i], code, now)] && reply == Message(200, "OTP sent to email")
      ensures FindByEmail(old(users), email).Some? && !mailed ==> var i := FindByEmail(old(users), email).value;
        users == old(users)[i := Cleared(old(users)[i])] && reply == Message(500, "Email could not be sent")
    {
      var found := FindByEmail(users, email);
      if found.None? {
        reply := Message(404, "User not found");
        return;
      }
      var i := found.value;
      var otp := Decimal(code);
      users := users[i := users[i].(otp := Some(otp), otpExpires := Some(now + OtpLifetime))];
      if mailed {
        reply := Message(200, "OTP sent to email");
      } else {
        users := users[i := users[i].(otp := None, otpExpires := None)];
        reply := Message(500, "Email could not be sent");
      }
    }

    /** `verifyOtp`: 200 exactly when some account has that email and OTP with
        an expiry strictly after `now`; nothing is stored. */
    method VerifyOtp(email: string, otp: string, now: int) returns (reply: Reply)
      ensures reply == Message(200, "OTP Verified") <==>
        exists j :: 0 <= j < |users| && users[j].email == email && users[j].otp == Some(otp) &&
          users[j].otpExpires.Some? && users[j].otpExpires.value > now
      ensures reply == Message(200, "OTP Verified") || reply == Message(400, "Invalid or expired OTP")
    {
      var found := FindOtpHolder(users, email, otp, now);
      if found.None? {
        reply := Message(400, "Invalid or expired OTP");
        return;
      }
      reply := Message(200, "OTP Verified");
    }

    /** `resetPassword`: the same check as `verifyOtp`; on success the new
        password is stored and the OTP and its expiry are cleared. */
    method ResetPassword(email: string, otp: string, password: string, now: int) returns (reply: Reply)
      modifies this
      ensures FindOtpHolder(old(users), email, otp, now).None? ==>
        reply == Message(400, "Invalid or expired OTP") && users == old(users)
      ensures FindOtpHolder(old(users), email, otp, now).Some? ==>
        var i := FindOtpHolder(old(users), email, otp, now).value;
        users == old(users)[i := AfterReset(old(users)[i], password)] &&
        reply == Message(200, "Password Reset Successfully")
    {
      var found := FindOtpHolder(users, email, otp, now);
      if found.None? {
        reply := Message(400, "Invalid or expired OTP");
        return;
      }
      var i := found.value;
      users := users[i := users[i].(password := password, otp := None, otpExpires := None)];
      reply := Message(200, "Password Reset Successfully");
    }
  }
}
