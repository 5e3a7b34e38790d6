/**
 * The application shell, `src/App.tsx`: the new-password form reached from a
 * recovery link, the admin check, recognising the recovery link, choosing
 * the screen, and loading the profile the sidebar and dashboard show.
 */
module App {
  import opened Js
  import SignUp
  import Profile
  import Sidebar

  // ---------------------------------------------------------------- new password

  const PasswordUpdated := "Passord oppdatert! Du blir logget inn..."
  const UpdateFailedPrefix := "Feil: "

  /** `UpdatePasswordForm`. */
  class PasswordResetForm {
    var password: string
    var confirmPassword: string
    var loading: bool
    var message: string
    /** The passwords sent to `updateUser`. */
    var updates: seq<string>
    /** Whether the reload after a successful update has been scheduled. */
    var reloading: bool

    constructor()
      ensures password == "" && confirmPassword == "" && !loading && message == "" && updates == [] && !reloading
    {
      password := "";
      confirmPassword := "";
      loading := false;
      message := "";
      updates := [];
      reloading := false;
    }

    /**
     * `handleUpdatePassword`: a mismatch is reported before a short password,
     * and either stops before `updateUser` is called.
     */
    method Submit(error: Option<string>)
      modifies this`loading, this`message, this`updates, this`reloading
      ensures SignUp.PasswordProblem(password, confirmPassword).Some? ==>
        message == SignUp.PasswordProblem(password, confirmPassword).value
        && loading == old(loading) && updates == old(updates) && reloading == old(reloading)
      ensures SignUp.PasswordProblem(password, confirmPassword).None? ==> updates == old(updates) + [password]
      ensures SignUp.PasswordProblem(password, confirmPassword).None? && error.Some? ==>
        message == UpdateFailedPrefix + error.value && !loading && reloading == old(reloading)
      ensures SignUp.PasswordProblem(password, confirmPassword).None? && error.None? ==>
        message == PasswordUpdated && loading && reloading
    {
      message := "";
      if password != confirmPassword {
        message := SignUp.Mismatch;
        return;
      }
      if |password| < 6 {
        message := SignUp.TooShort;
        return;
      }
      loading := true;
      updates := updates + [password];
      if error.Some? {
        message := UpdateFailedPrefix + error.value;
        loading := false;
      } else {
        message := PasswordUpdated;
        reloading := true;
      }
    }
  }

  // ---------------------------------------------------------------- admin

  /** The admin allow-list: empty, so nobody is an admin. */
  const AdminEmails: seq<string> := []

  /** `isAdmin` against an allow-list: a truthy e-mail whose lower-cased form is listed. */
  predicate IsAdminWith(allowList: seq<string>, email: Option<string>) {
    Truthy(email) && LowerAscii(email.value) in allowList
  }

  predicate IsAdmin(email: Option<string>) {
    IsAdminWith(AdminEmails, email)
  }

  /**
   * The check ignores the case of the e-mail: an e-mail and its lower-cased
   * form are both admins or both not. With the empty list nobody is.
   */
  lemma IsAdminIgnoresCase(allowList: seq<string>, email: string)
    ensures IsAdminWith(allowList, Some(email)) <==> IsAdminWith(allowList, Some(LowerAscii(email)))
    ensures !IsAdmin(Some(email))
  {
    LowerAsciiIdempotent(email);
  }

  // ---------------------------------------------------------------- recovery link

  /** One `name=value` piece of a query; without '=' the value is "". */
  function Param(piece: string): (string, string) {
    (BeforeFirst(piece, '='), AfterFirst(piece, '='))
  }

  /** The name/value pairs of `&`-separated pieces, empty pieces skipped. */
  function Pairs(pieces: seq<string>): seq<(string, string)>
    decreases |pieces|
  {
    if |pieces| == 0 then []
    else (if pieces[0] == "" then [] else [Param(pieces[0])]) + Pairs(pieces[1..])
  }

  /** `new URLSearchParams(window.location.hash.substring(1))`, without percent-decoding. */
  function HashParams(hash: string): seq<(string, string)> {
    Pairs(Split(if |hash| > 0 then hash[1..] else "", '&'))
  }

  /** The position of the first pair named `name`. */
  function ParamIndex(params: seq<(string, string)>, name: string): (r: Option<nat>)
    ensures r.Some? ==> r.value < |params| && params[r.value].0 == name
                        && forall j :: 0 <= j < r.value ==> params[j].0 != name
    ensures r.None? <==> forall j :: 0 <= j < |params| ==> params[j].0 != name
    decreases |params|
  {
    if |params| == 0 then None
    else if params[0].0 == name then Some(0)
    else match ParamIndex(params[1..], name)
      case None => None
      case Some(i) => Some(i + 1)
  }

  /** `params.get(name)`: the value of the first pair with that name. */
  function GetParam(params: seq<(string, string)>, name: string): (r: Option<string>)
    ensures r.None? <==> forall i :: 0 <= i < |params| ==> params[i].0 != name
    ensures r.Some? ==> exists i :: 0 <= i < |params| && params[i] == (name, r.value)
                                    && forall j :: 0 <= j < i ==> params[j].0 != name
  {
    match ParamIndex(params, name)
    case None => None
    case Some(i) => Some(params[i].1)
  }

  /** The hash of a recovery link: `type=recovery` and a non-empty `access_token`. */
  predicate IsRecoveryLink(hash: string) {
    GetParam(HashParams(hash), "type") == Some("recovery") && Truthy(GetParam(HashParams(hash), "access_token"))
  }

  /** The query text of name/value pairs. */
  function Encode(pairs: seq<(string, string)>): string {
    Join(Pieces(pairs), '&')
  }

  function Pieces(pairs: seq<(string, string)>): (r: seq<string>)
    ensures |r| == |pairs| && forall i :: 0 <= i < |pairs| ==> r[i] == pairs[i].0 + "=" + pairs[i].1
  {
    seq(|pairs|, i requires 0 <= i < |pairs| => pairs[i].0 + "=" + pairs[i].1)
  }

  /** Names without '=' or '&' and values without '&': what a query written by `Encode` reads back. */
  predicate PlainPairs(pairs: seq<(string, string)>) {
    forall i :: 0 <= i < |pairs| ==> '=' !in pairs[i].0 && '&' !in pairs[i].0 && '&' !in pairs[i].1
  }

  lemma {:induction false} PairsOfPieces(pairs: seq<(string, string)>)
    requires PlainPairs(pairs)
    ensures Pairs(Pieces(pairs)) == pairs
    decreases |pairs|
  {
    if |pairs| > 0 {
      var ps := Pieces(pairs);
      assert ps[1..] == Pieces(pairs[1..]);
      PairsOfPieces(pairs[1..]);
      var (n, v) := pairs[0];
      assert ps[0] == n + ['='] + v;
      BeforeFirstOf(n, '=', v);
      AfterFirstOf(n, '=', v);
      assert pairs == [pairs[0]] + pairs[1..];
    }
  }

  /** A hash written from plain pairs is read back as those pairs. */
  lemma HashParamsOfEncode(lead: char, pairs: seq<(string, string)>)
    requires PlainPairs(pairs)
    ensures HashParams([lead] + Encode(pairs)) == pairs
  {
    assert ([lead] + Encode(pairs))[1..] == Encode(pairs);
    if |pairs| == 0 {
      assert Encode(pairs) == "";
      assert HashParams([lead] + Encode(pairs)) == Pairs(Split("", '&'));
      assert Split("", '&') == [""];
      assert Pairs([""]) == [] + Pairs([]);
    } else {
      var ps := Pieces(pairs);
      forall k | 0 <= k < |ps|
        ensures '&' !in ps[k]
      {
        assert ps[k] == pairs[k].0 + "=" + pairs[k].1;
      }
      SplitJoin(ps, '&');
      PairsOfPieces(pairs);
    }
  }

  /**
   * A hash written from plain pairs is a recovery link exactly when its
   * first `type` is "recovery" and its first `access_token` is non-empty.
   */
  lemma RecoveryLinkOfPairs(lead: char, pairs: seq<(string, string)>)
    requires PlainPairs(pairs)
    ensures IsRecoveryLink([lead] + Encode(pairs)) <==>
      GetParam(pairs, "type") == Some("recovery") && Truthy(GetParam(pairs, "access_token"))
  {
    HashParamsOfEncode(lead, pairs);
  }

  /** `get` of a name that only the second of two pairs has. */
  lemma SecondParam(params: seq<(string, string)>, name: string)
    requires |params| == 2 && params[0].0 != name && params[1].0 == name
    ensures GetParam(params, name) == Some(params[1].1)
  {
    var r := ParamIndex(params, name);
    assert r.Some? && r.value != 0;
  }

  /** The hash of a recovery e-mail's link is recognised. */
  lemma RecoveryLinkRecognised(token: string)
    requires token != "" && '&' !in token
    ensures IsRecoveryLink("#" + Encode([("access_token", token), ("type", "recovery")]))
  {
    var pairs := [("access_token", token), ("type", "recovery")];
    assert PlainPairs(pairs) by {
      assert '=' !in "access_token" && '&' !in "access_token" && '&' !in "recovery";
    }
    RecoveryLinkOfPairs('#', pairs);
    SecondParam(pairs, "type");
    assert GetParam(pairs, "access_token") == Some(token);
  }

  /** A link without a token, or of another type, is not a recovery link. */
  lemma NotRecoveryLinks(token: string)
    requires '&' !in token
    ensures !IsRecoveryLink("#" + Encode([("access_token", ""), ("type", "recovery")]))
    ensures !IsRecoveryLink("#" + Encode([("access_token", token), ("type", "signup")]))
  {
    assert '=' !in "access_token" && '&' !in "access_token" && '&' !in "recovery" && '&' !in "signup";
    var noToken := [("access_token", ""), ("type", "recovery")];
    RecoveryLinkOfPairs('#', noToken);
    assert GetParam(noToken, "access_token") == Some("");
    var signUp := [("access_token", token), ("type", "signup")];
    RecoveryLinkOfPairs('#', signUp);
    SecondParam(signUp, "type");
  }

  // ---------------------------------------------------------------- profile

  /** The `userProfile` state: the row's names as they are, the avatar defaulted. */
  datatype AppProfile = AppProfile(firstName: Option<string>, lastName: Option<string>, avatarUrl: string)

  /** The profile built from the auth user's metadata, each field defaulting to "". */
  function FromMetadata(m: Profile.Metadata): AppProfile {
    AppProfile(Some(OrElse(m.firstName, "")), Some(OrElse(m.lastName, "")), OrElse(m.avatarUrl, ""))
  }

  /**
   * `fetchUserProfile`: a row wins (its avatar is `avatar_url`, else
   * `avatar_URL`, else ""); any error falls back to the auth user's metadata
   * when there is a user; None leaves the state as it was.
   */
  function FetchedUserProfile(reply: Profile.FetchReply, user: Option<Profile.Metadata>): Option<AppProfile> {
    match reply.data
    case Some(row) => Some(AppProfile(row.firstName, row.lastName, OrElse(row.avatarUrl, OrElse(row.avatarURL, ""))))
    case None =>
      if reply.errorCode.Some? && user.Some? then Some(FromMetadata(user.value)) else None
  }

  /**
   * The shell and the profile page read the same profile from a reply the
   * page accepts: the same avatar, and the same names once a missing name
   * is read as "". Unlike the page, the shell also falls back to the
   * metadata on other errors. (`single()` always answers with a row or an error.)
   */
  lemma SameProfileAsPage(reply: Profile.FetchReply, meta: Profile.Metadata)
    requires Profile.FetchedProfile(reply, meta).Some?
    requires reply.data.Some? || reply.errorCode.Some?
    ensures FetchedUserProfile(reply, Some(meta)).Some?
    ensures var a := FetchedUserProfile(reply, Some(meta)).value;
      var p := Profile.FetchedProfile(reply, meta).value;
      a.avatarUrl == p.avatarUrl && OrElse(a.firstName, "") == p.firstName && OrElse(a.lastName, "") == p.lastName
    ensures reply.data.None? && reply.errorCode.Some? && reply.errorCode.value != Profile.NoRowsCode ==>
      Profile.FetchedProfile(reply, meta).None?
  {
    if reply.data.Some? {
      var row := reply.data.value;
      assert OrElse(Some(OrElse(row.firstName, "")), "") == OrElse(row.firstName, "");
    } else {
      assert OrElse(Some(OrElse(meta.firstName, "")), "") == OrElse(meta.firstName, "");
      assert OrElse(Some(OrElse(meta.lastName, "")), "") == OrElse(meta.lastName, "");
    }
  }

  // ---------------------------------------------------------------- screens

  datatype Screen = PasswordResetScreen | SignUpScreen | LoginScreen | AdminScreen | ProfileScreen | DashboardScreen

  /** The screen `App` renders. */
  function ScreenOf(showPasswordReset: bool, signedIn: bool, showSignUp: bool, view: string): (r: Screen)
    ensures r == PasswordResetScreen <==> showPasswordReset
    ensures r == SignUpScreen <==> !showPasswordReset && !signedIn && showSignUp
    ensures r == LoginScreen <==> !showPasswordReset && !signedIn && !showSignUp
    ensures r == AdminScreen <==> !showPasswordReset && signedIn && view == "admin"
    ensures r == ProfileScreen <==> !showPasswordReset && signedIn && view == "profile"
    ensures r == DashboardScreen <==> !showPasswordReset && signedIn && view != "admin" && view != "profile"
  {
    if showPasswordReset then PasswordResetScreen
    else if !signedIn then (if showSignUp then SignUpScreen else LoginScreen)
    else if view == "admin" then AdminScreen
    else if view == "profile" then ProfileScreen
    else DashboardScreen
  }

  datatype SessionUser = SessionUser(id: string, email: Option<string>)

  class AppState {
    var showPasswordReset: bool
    var session: Option<SessionUser>
    var showSignUp: bool
    var currentView: string
    var userProfile: Option<AppProfile>
    /** The user's `user_profiles` row, which a first load may create. */
    var profileRow: Option<Profile.ProfileRow>

    constructor(profileRow: Option<Profile.ProfileRow>)
      ensures !showPasswordReset && session.None? && !showSignUp && currentView == "dashboard"
      ensures userProfile.None? && this.profileRow == profileRow
    {
      showPasswordReset := false;
      session := None;
      showSignUp := false;
      currentView := "dashboard";
      userProfile := None;
      this.profileRow := profileRow;
    }

    function Current(): Screen
      reads this
    {
      ScreenOf(showPasswordReset, session.Some?, showSignUp, currentView)
    }

    /** The first effect: a recovery link in the hash turns on the new-password screen. */
    method CheckHash(hash: string)
      modifies this`showPasswordReset
      ensures showPasswordReset == (old(showPasswordReset) || IsRecoveryLink(hash))
    {
      var params := HashParams(hash);
      var kind := GetParam(params, "type");
      var accessToken := GetParam(params, "access_token");
      if kind == Some("recovery") && Truthy(accessToken) {
        showPasswordReset := true;
      }
    }

    /** `onAuthStateChange`: a PASSWORD_RECOVERY event turns on the new-password screen; the session is replaced. */
    method AuthStateChange(event: string, newSession: Option<SessionUser>)
      modifies this`showPasswordReset, this`session
      ensures showPasswordReset == (old(showPasswordReset) || event == "PASSWORD_RECOVERY")
      ensures session == newSession
    {
      if event == "PASSWORD_RECOVERY" {
        showPasswordReset := true;
      }
      session := newSession;
    }

    /** The "Registrer deg her" button. */
    method OpenSignUp()
      modifies this`showSignUp
      ensures showSignUp
    {
      showSignUp := true;
    }

    /** `onSignUpSuccess` and `onBack` of the sign-up form. */
    method CloseSignUp()
      modifies this`showSignUp
      ensures !showSignUp
    {
      showSignUp := false;
    }

    /** `onNavigate` of the sidebar, `onShowAdmin` of the dashboard and `onBack` of the admin page. */
    method Navigate(view: string)
      modifies this`currentView
      ensures currentView == view
    {
      currentView := view;
    }

    /** `onSignOut` of the sidebar. */
    method SignOut()
      modifies this`session
      ensures session.None?
    {
      session := None;
    }

    /**
     * `fetchUserProfile`, with `user` the reply of `getUser`. When no row
     * exists the metadata profile is also inserted as the user's row, unless
     * that insert fails.
     */
    method LoadUserProfile(reply: Profile.FetchReply, user: Option<Profile.Metadata>, insertOk: bool)
      modifies this`userProfile, this`profileRow
      ensures userProfile == match FetchedUserProfile(reply, user) case Some(p) => Some(p) case None => old(userProfile)
      ensures profileRow == (if reply.data.None? && reply.errorCode == Some(Profile.NoRowsCode) && user.Some? && insertOk
                             then Some(Profile.ProfileRow(FromMetadata(user.value).firstName, FromMetadata(user.value).lastName,
                                                          Some(FromMetadata(user.value).avatarUrl), None))
                             else old(profileRow))
    {
      if reply.data.Some? {
        var data := reply.data.value;
        userProfile := Some(AppProfile(data.firstName, data.lastName, OrElse(data.avatarUrl, OrElse(data.avatarURL, ""))));
        return;
      }
      if reply.errorCode == Some(Profile.NoRowsCode) {
        if user.Some? {
          var p := FromMetadata(user.value);
          userProfile := Some(p);
          if insertOk {
            profileRow := Some(Profile.ProfileRow(p.firstName, p.lastName, Some(p.avatarUrl), None));
          }
        }
      } else if reply.errorCode.Some? {
        if user.Some? {
          userProfile := Some(FromMetadata(user.value));
        }
      }
    }

    /** The names the sidebar is given. */
    function SidebarNames(): (n: Sidebar.Names)
      reads this
      ensures userProfile.None? ==> n == Sidebar.Names(None, None)
      ensures userProfile.Some? ==> n.firstName == userProfile.value.firstName && n.lastName == userProfile.value.lastName
    {
      match userProfile
      case None => Sidebar.Names(None, None)
      case Some(p) => Sidebar.Names(p.firstName, p.lastName)
    }
  }
}
