/**
 * The `protect` decorator (Riki/wiki/web/user.py): on a private site, a
 * request whose caller is not signed in gets the login manager's
 * "unauthorized" answer instead of the wrapped view.
 *
 * The source tests `current_user.is_authenticated` without calling it. For
 * the anonymous user flask-login makes that attribute False; for a User it is
 * the bound method is_authenticated, which is always truthy. ProtectAsWritten
 * models that; Protect models the evidently intended call.
 */
module Access {
  import opened JsonValues
  import opened Records
  import Users

  /** flask-login's current_user: the anonymous user, or an account loaded with its record. */
  datatype Caller = Anonymous | Account(data: Record)

  /** The decorated view's answer: the login manager's refusal, or the view's own result. */
  datatype Gated<T> = Unauthorized | Allowed(value: T)

  /**
   * Whether the caller is signed in: its record's 'authenticated' value is
   * truthy, the value User.is_authenticated() returns (see AccountSignedInAsUserSays).
   */
  predicate IsAuthenticated(caller: Caller) {
    match caller
    case Anonymous => false
    case Account(data) => Truthy(Get(data, "authenticated"))
  }

  /** For a loaded User, the gate's notion of signed in is the truth of its own is_authenticated(). */
  lemma AccountSignedInAsUserSays(user: Users.User)
    ensures IsAuthenticated(Account(user.data)) == Truthy(user.IsAuthenticated())
  {
  }

  /** The truth value of the attribute `current_user.is_authenticated`, uncalled. */
  predicate AttributeIsTruthy(caller: Caller) {
    caller.Account?
  }

  function ProtectAsWritten<T>(private: bool, caller: Caller, f: () -> T): (r: Gated<T>)
    ensures r.Unauthorized? <==> private && caller.Anonymous?
    ensures r.Allowed? ==> r.value == f()
  {
    if private && !AttributeIsTruthy(caller) then Unauthorized else Allowed(f())
  }

  function Protect<T>(private: bool, caller: Caller, f: () -> T): (r: Gated<T>)
    ensures r.Unauthorized? <==> private && !IsAuthenticated(caller)
    ensures r.Allowed? ==> r.value == f()
  {
    if private && !IsAuthenticated(caller) then Unauthorized else Allowed(f())
  }

  /** A refused request never depends on the view: any two views get the same answer. */
  lemma RefusalIgnoresView<T>(private: bool, caller: Caller, f: () -> T, g: () -> T)
    requires private && !IsAuthenticated(caller)
    ensures Protect(private, caller, f) == Protect(private, caller, g) == Unauthorized
  {
  }

  /** The two gates differ exactly on a private site for an account whose record is not signed in. */
  lemma GatesDifferOnSignedOutAccounts<T>(private: bool, caller: Caller, f: () -> T)
    ensures ProtectAsWritten(private, caller, f) != Protect(private, caller, f)
        <==> private && caller.Account? && !IsAuthenticated(caller)
  {
  }

  /** A loaded account whose record says it is signed out passes the gate as written. */
  lemma SignedOutAccountPassesAsWritten()
    ensures var caller := Account(map["authenticated" := JBool(false)]);
      && ProtectAsWritten(true, caller, () => 0) == Allowed(0)
      && Protect(true, caller, () => 0) == Unauthorized
  {
  }
}
