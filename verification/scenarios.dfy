/**
 * Requests chained the way a browser sends them, with what the chain
 * guarantees: the one-time code is shared by sign-up and password reset, it
 * is used up by its first successful use, and a bookmark click undone by a
 * second click leaves the bookmarks as they were.
 */
module Scenarios {
  import opened Wrappers
  import opened Decimal
  import opened Query
  import opened Models
  import opened Forms
  import opened Store
  import opened Views

  /**
   * Sign-up with a well-formed form creates the one account with that email,
   * holding the drawn code, and its one profile. Other accounts may share
   * emails among themselves.
   */
  method SignUp(db: Db, f: RegistrationForm, code: int) returns (registered: Outcome)
    requires db.Valid()
    requires RegistrationAcceptable(db.users, f, true)
    requires MinCode <= code <= MaxCode
    modifies db`users, db`candidates, db`companies
    ensures db.Valid()
    ensures EmailsUnique(old(db.users)) ==> EmailsUnique(db.users)
    ensures registered == Registered(false)
    ensures db.users == old(db.users) + [NewUser(f.email, f.password, code, f.role)]
    ensures FindsOne(db.users, f.email) && AccountOf(db.users, f.email) == |old(db.users)|
    ensures !ProfileRowsClash(db.users, db.candidates, db.companies, |old(db.users)|)
    ensures f.role == CandidateRole ==>
              Get(CandidateOwners(db.candidates), |old(db.users)|) == OneRow(|old(db.candidates)|)
    ensures f.role == CompanyRole ==>
              Get(CompanyOwners(db.companies), |old(db.users)|) == OneRow(|old(db.companies)|)
  {
    var u := |db.users|;
    ghost var owners, ownersC := CandidateOwners(db.candidates), CompanyOwners(db.companies);
    var mails;
    registered, mails := RegisterUser(db, f, true, code, true);
    assert Emails(db.users) == Emails(old(db.users)) + [f.email];
    if f.role == CandidateRole {
      assert CandidateOwners(db.candidates) == owners + [u];
      AppendedOwnerIsSingle(owners, u);
    } else {
      assert CompanyOwners(db.companies) == ownersC + [u];
      AppendedOwnerIsSingle(ownersC, u);
    }
  }

  /** A profile row for a brand-new account is the only one that account owns. */
  lemma AppendedOwnerIsSingle(owners: seq<nat>, u: nat)
    requires forall i :: 0 <= i < |owners| ==> owners[i] < u
    ensures Get(owners + [u], u) == OneRow(|owners|)
  {
    assert (owners + [u])[|owners|] == u;
  }

  /**
   * After sign-up, a mistyped code changes nothing, and the mailed code
   * verifies the new account.
   */
  method SignUpThenVerify(db: Db, f: RegistrationForm, code: int, typo: string)
    returns (wrong: Outcome, verified: Outcome)
    requires db.Valid()
    requires RegistrationAcceptable(db.users, f, true)
    requires MinCode <= code <= MaxCode
    requires typo != IntToString(code)
    modifies db`users, db`candidates, db`companies
    ensures db.Valid()
    ensures EmailsUnique(old(db.users)) ==> EmailsUnique(db.users)
    ensures wrong != Verified && verified == Verified
    ensures |db.users| == |old(db.users)| + 1
    ensures db.users[|old(db.users)|].email == f.email && db.users[|old(db.users)|].password == f.password
    ensures db.users[|old(db.users)|].role == f.role
    ensures db.users[|old(db.users)|].isActive && db.users[|old(db.users)|].isVerified
    ensures forall i :: 0 <= i < |old(db.users)| ==> db.users[i].email != f.email
    ensures !ProfileRowsClash(db.users, db.candidates, db.companies, |old(db.users)|)
  {
    var registered := SignUp(db, f, code);
    wrong, verified := MistypeThenVerify(db, f.email, code, typo);
  }

  /**
   * On an unverified account holding `code`: a mistyped code changes
   * nothing, and the right code then verifies the account and clears it.
   */
  method MistypeThenVerify(db: Db, email: string, code: int, typo: string)
    returns (wrong: Outcome, verified: Outcome)
    requires db.Valid()
    requires email != "" && FindsOne(db.users, email)
    requires db.users[AccountOf(db.users, email)].otp == code && !db.users[AccountOf(db.users, email)].isVerified
    requires MinCode <= code <= MaxCode
    requires typo != IntToString(code)
    modifies db`users
    ensures db.Valid()
    ensures wrong != Verified && verified == Verified
    ensures db.users == old(db.users)[AccountOf(old(db.users), email) :=
                          old(db.users)[AccountOf(old(db.users), email)].(isVerified := true, otp := 0)]
  {
    assert !CodeMatches(code, typo);
    var m;
    wrong, m := VerifyOtp(db, email, typo);
    assert db.users == old(db.users);
    IssuedCodeIsEnterable(code);
    verified, m := VerifyOtp(db, email, IntToString(code));
  }

  /** After sign-up and verification the new account logs in with the password it registered. */
  method SignUpThenLogIn(db: Db, f: RegistrationForm, code: int, typo: string)
    returns (login: Outcome, session: Option<Session>)
    requires db.Valid()
    requires RegistrationAcceptable(db.users, f, true)
    requires MinCode <= code <= MaxCode
    requires typo != IntToString(code)
    modifies db`users, db`candidates, db`companies
    ensures db.Valid()
    ensures EmailsUnique(old(db.users)) ==> EmailsUnique(db.users)
    ensures login == LoggedIn
    ensures session == Some(Session(f.email, f.role, |old(db.users)|))
  {
    var u := |db.users|;
    var wrong, verified := SignUpThenVerify(db, f, code, typo);
    assert Logins(db.users)[u] == (f.email, f.password);
    assert forall i :: 0 <= i < |db.users| && i != u ==> Logins(db.users)[i] != (f.email, f.password);
    assert Get(Logins(db.users), (f.email, f.password)).OneRow?;
    login, session := LoginView(db, f.email, f.password, true);
  }

  /**
   * The password-reset code of `forgot_password` is stored where
   * `verify_otp` looks, so it also verifies an account that was never
   * verified.
   */
  method ResetCodeVerifiesAccount(db: Db, email: string, code: int) returns (verified: Outcome)
    requires db.Valid()
    requires email != "" && FindsOne(db.users, email) && !db.users[AccountOf(db.users, email)].isVerified
    requires MinCode <= code <= MaxCode
    modifies db`users
    ensures db.Valid()
    ensures verified == Verified
    ensures |db.users| == |old(db.users)|
    ensures db.users[AccountOf(old(db.users), email)].isVerified
  {
    var u := AccountOf(db.users, email);
    var issued, _ := ForgotPassword(db, email, true, code, true);
    assert issued == CodeIssued(false);
    assert Emails(db.users) == Emails(old(db.users));
    assert FindsOne(db.users, email) && AccountOf(db.users, email) == u;
    assert db.users[u].otp == code && !db.users[u].isVerified;
    IssuedCodeIsEnterable(code);
    var welcome;
    verified, welcome := VerifyOtp(db, email, IntToString(code));
  }

  /**
   * A successful reset uses its code up: a second reset right after it
   * fails whatever code is typed, and the first new password stays.
   */
  method ResetTwice(db: Db, email: string, entered: string, first: string, again: string, second: string)
    returns (one: Outcome, two: Outcome)
    requires db.Valid()
    modifies db`users
    ensures db.Valid()
    ensures |db.users| == |old(db.users)|
    ensures one == PasswordChanged ==>
      && FindsOne(old(db.users), email)
      && two != PasswordChanged
      && db.users[AccountOf(old(db.users), email)].password == first
  {
    one := ResetPassword(db, email, entered, first, first);
    ghost var between := db.users;
    two := ResetPassword(db, email, again, second, second);
    if one == PasswordChanged {
      var u := AccountOf(old(db.users), email);
      assert Emails(between) == Emails(old(db.users));
      assert FindsOne(between, email) && AccountOf(between, email) == u;
      assert between[u].otp == 0;
      if two == PasswordChanged {
        ClearedCodeNeverMatches(again);
        assert false;
      }
    }
  }

  /** A verified account stays verified: a second `verify_otp` with the same code reports so and changes nothing. */
  method VerifyTwice(db: Db, email: string, entered: string) returns (one: Outcome, two: Outcome)
    requires db.Valid()
    modifies db`users
    ensures db.Valid()
    ensures one == Verified ==> two == AlreadyVerified
  {
    var mails;
    one, mails := VerifyOtp(db, email, entered);
    ghost var between := db.users;
    two, mails := VerifyOtp(db, email, entered);
    if one == Verified {
      var u := AccountOf(old(db.users), email);
      assert Emails(between) == Emails(old(db.users));
      assert AccountOf(between, email) == u && between[u].isVerified;
    }
  }

  /** Two clicks on the bookmark button of the same job leave the bookmarks as they were. */
  method BookmarkTwice(db: Db, sessionEmail: string, jobId: nat) returns (one: Outcome, two: Outcome)
    requires db.Valid()
    modifies db`saved, db`nextSavedId
    ensures db.Valid()
    ensures SavedPairs(db.saved) == SavedPairs(old(db.saved))
    ensures one == Bookmarked <==> two == Unbookmarked
  {
    ghost var before := SavedPairs(db.saved);
    one := SaveJob(db, sessionEmail, jobId);
    ghost var between := SavedPairs(db.saved);
    two := SaveJob(db, sessionEmail, jobId);
    if one == Bookmarked || one == Unbookmarked {
      var p := SavedJob(CandidateCalling(db, sessionEmail).value.profileId, jobId);
      assert between == Toggle(before, p);
      assert SavedPairs(db.saved) == Toggle(between, p);
      ToggleTwice(before, p);
    }
  }

  /** A second application to the same job by the same candidate is refused and adds nothing. */
  method ApplyTwice(db: Db, sessionEmail: string, jobId: nat, letter: string, again: string)
    returns (one: Outcome, two: Outcome)
    requires db.Valid()
    modifies db`applications, db`nextApplicationId
    ensures db.Valid()
    ensures one.Applied? ==> two == AlreadyApplied
    ensures |ApplicationsOf(db.applications, jobId)| <= |ApplicationsOf(old(db.applications), jobId)| + 1
  {
    var mails;
    one, mails := ApplyJob(db, sessionEmail, jobId, letter);
    two, mails := ApplyJob(db, sessionEmail, jobId, again);
    if one.Applied? {
      var c := CandidateCalling(db, sessionEmail).value.profileId;
      assert db.applications[one.id].job == jobId && db.applications[one.id].candidate == c;
    }
  }
}
