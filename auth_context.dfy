/** The frontend's auth context: the signed-in account, its profile, the
    administrator flag and the loading flag, as the auth-state callback and
    the profile loader update them. Each callback is taken to run to
    completion before the next one starts. */
module AuthContext {
  import opened Wrappers
  import opened Types
  import opened FirebaseAdmin
  import Http
  import JsString

  /** What loading a profile gives: the stored profile (or null when there
      is none), or a failure. */
  datatype ProfileLoad = Loaded(profile: Option<UserProfile>) | LoadFailed

  /** The profile state after a load: a failure clears it. */
  function ProfileAfter(load: ProfileLoad): (p: Option<UserProfile>)
    ensures load.LoadFailed? ==> p.None?
    ensures load.Loaded? ==> p == load.profile
  {
    if load.Loaded? then load.profile else None
  }

  /** `isAdmin` for the account `u`: the frontend's own copy of the
      administrator test. */
  predicate AdminFor(u: Option<FirebaseUser>) {
    u.Some? && Http.IsAdminEmail(u.value.email)
  }

  /** The frontend's administrator flag and the backend's admin gate agree:
      a request carrying a token the verifier accepts for this account's
      address is admitted exactly when the frontend shows the account as an
      administrator. */
  lemma AdminAgreesWithBackend(u: FirebaseUser, authHeader: Option<string>, verify: Verifier)
    requires JsString.Present(ExtractToken(authHeader))
    requires verify(ExtractToken(authHeader).value) == Success(Claims(Some(u.uid), u.email))
    ensures Http.CheckAdmin(authHeader, verify).Admitted? <==> AdminFor(Some(u))
  {
    Http.AdmittedIffAdministrator(authHeader, verify);
  }

  /** `AuthProvider`'s state. */
  class AuthProvider {
    var user: Option<FirebaseUser>
    var userProfile: Option<UserProfile>
    var isAdmin: bool
    var loading: bool

    /** The flag follows the account, and no profile is held without an
        account. */
    predicate Valid()
      reads this
    {
      isAdmin == AdminFor(user) && (user.None? ==> userProfile.None?)
    }

    constructor ()
      ensures user.None? && userProfile.None? && !isAdmin && loading
      ensures Valid()
    {
      user := None;
      userProfile := None;
      isAdmin := false;
      loading := true;
    }

    /** The mount effect when there is no auth instance: stop loading. */
    method MountWithoutAuth()
      modifies this
      ensures !loading && user == old(user) && userProfile == old(userProfile) && isAdmin == old(isAdmin)
    {
      loading := false;
    }

    /** `loadUserProfile(uid)` given the load's outcome. */
    method LoadUserProfile(load: ProfileLoad)
      modifies this
      ensures userProfile == ProfileAfter(load)
      ensures user == old(user) && isAdmin == old(isAdmin) && loading == old(loading)
    {
      match load
      case Loaded(p) => userProfile := p;
      case LoadFailed => userProfile := None;
    }

    /** The auth-state callback for the account `firebaseUser`; `load` is
        the outcome of loading its profile (unused on sign-out). */
    method OnAuthStateChanged(firebaseUser: Option<FirebaseUser>, load: ProfileLoad)
      requires Valid()
      modifies this
      ensures Valid()
      ensures user == firebaseUser && !loading
      ensures isAdmin == AdminFor(firebaseUser)
      ensures firebaseUser.Some? ==> userProfile == ProfileAfter(load)
      ensures firebaseUser.None? ==> userProfile.None? && !isAdmin
    {
      user := firebaseUser;
      if firebaseUser.Some? {
        isAdmin := Http.IsAdminEmail(firebaseUser.value.email);
        LoadUserProfile(load);
      } else {
        isAdmin := false;
        userProfile := None;
      }
      loading := false;
    }

    /** `refreshProfile()`: reload the profile of the signed-in account;
        nothing without one. */
    method RefreshProfile(load: ProfileLoad)
      requires Valid()
      modifies this
      ensures Valid()
      ensures user.None? ==> userProfile == old(userProfile)
      ensures user.Some? ==> userProfile == ProfileAfter(load)
      ensures user == old(user) && isAdmin == old(isAdmin) && loading == old(loading)
    {
      if user.Some? {
        LoadUserProfile(load);
      }
    }
  }
}
