/**
 * The navigation sidebar, `src/Sidebar.tsx` and its older version
 * `src/Sidebar.jsx`: the user's display name and initial, and the
 * open/closed state of the menu on small screens.
 */
module Sidebar {
  import opened Js
  import Profile

  /** The name fields of the `userProfile` prop; a `null` profile has neither. */
  datatype Names = Names(firstName: Option<string>, lastName: Option<string>)

  /** `email.split("@")[0]`, undefined when there is no e-mail. */
  function EmailLocalPart(email: Option<string>): (r: Option<string>)
    ensures r.Some? <==> email.Some?
    ensures r.Some? ==> '@' !in r.value && StartsWith(email.value, r.value)
  {
    match email
    case None => None
    case Some(e) =>
      BeforeFirstSpec(e, '@');
      Some(BeforeFirst(e, '@'))
  }

  /** `getUserDisplayName` of `src/Sidebar.tsx`. */
  function DisplayName(p: Names, email: Option<string>): string {
    if Truthy(p.firstName) && Truthy(p.lastName) then p.firstName.value + " " + p.lastName.value
    else if Truthy(p.firstName) || Truthy(p.lastName) then Trim(OrElse(p.firstName, "") + " " + OrElse(p.lastName, ""))
    else OrElse(EmailLocalPart(email), "User")
  }

  /**
   * Both names give "first last"; one name gives that name trimmed, the
   * joining space trimmed away with it; no name gives the e-mail's text
   * before the first '@', or "User" when that is empty or there is no e-mail.
   */
  lemma DisplayNameSpec(p: Names, email: Option<string>)
    ensures Truthy(p.firstName) && Truthy(p.lastName) ==>
      DisplayName(p, email) == p.firstName.value + " " + p.lastName.value
    ensures Truthy(p.firstName) && !Truthy(p.lastName) ==> DisplayName(p, email) == Trim(p.firstName.value)
    ensures !Truthy(p.firstName) && Truthy(p.lastName) ==> DisplayName(p, email) == Trim(p.lastName.value)
    ensures !Truthy(p.firstName) && !Truthy(p.lastName) ==>
      (email.Some? && BeforeFirst(email.value, '@') != "" ==> DisplayName(p, email) == BeforeFirst(email.value, '@'))
      && (email.None? || BeforeFirst(email.value, '@') == "" ==> DisplayName(p, email) == "User")
  {
    if Truthy(p.firstName) && !Truthy(p.lastName) {
      assert p.firstName.value + " " + "" == p.firstName.value + " ";
      TrimAppendSpace(p.firstName.value);
    } else if !Truthy(p.firstName) && Truthy(p.lastName) {
      assert "" + " " + p.lastName.value == " " + p.lastName.value;
      TrimPrependSpace(p.lastName.value);
    }
  }

  /** The name line of `src/Sidebar.jsx`: the same rules without the "User" fallback; None renders nothing. */
  function LegacyDisplayName(p: Names, email: Option<string>): Option<string> {
    if Truthy(p.firstName) && Truthy(p.lastName) then Some(p.firstName.value + " " + p.lastName.value)
    else if Truthy(p.firstName) || Truthy(p.lastName) then Some(Trim(OrElse(p.firstName, "") + " " + OrElse(p.lastName, "")))
    else EmailLocalPart(email)
  }

  /**
   * The two versions show the same name whenever the profile has a name,
   * and otherwise differ only where the newer one falls back to "User".
   */
  lemma LegacyDisplayNameAgrees(p: Names, email: Option<string>)
    ensures Truthy(p.firstName) || Truthy(p.lastName) ==> LegacyDisplayName(p, email) == Some(DisplayName(p, email))
    ensures Truthy(LegacyDisplayName(p, email)) ==> LegacyDisplayName(p, email).value == DisplayName(p, email)
    ensures !Truthy(LegacyDisplayName(p, email)) && !Truthy(p.firstName) && !Truthy(p.lastName) ==>
      DisplayName(p, email) == "User"
  {
  }

  /** `getUserInitial` (and the inline expression of `src/Sidebar.jsx`), over the profile's optional names. */
  function Initial(p: Names, email: Option<string>): (r: string)
    ensures |r| == 1
    ensures Truthy(p.firstName) ==> r[0] == p.firstName.value[0]
    ensures !Truthy(p.firstName) && Truthy(p.lastName) ==> r[0] == p.lastName.value[0]
    ensures !Truthy(p.firstName) && !Truthy(p.lastName) && Truthy(email) ==> r[0] == UpperAscii(email.value[0])
    ensures !Truthy(p.firstName) && !Truthy(p.lastName) && !Truthy(email) ==> r == "?"
  {
    Profile.UserInitial(OrElse(p.firstName, ""), OrElse(p.lastName, ""), email)
  }

  /** The menu's `isOpen` state and the views handed to `onNavigate`. */
  class Menu {
    var isOpen: bool
    var navigated: seq<string>

    constructor()
      ensures !isOpen && navigated == []
    {
      isOpen := false;
      navigated := [];
    }

    /** The hamburger button. */
    method Toggle()
      modifies this`isOpen
      ensures isOpen == !old(isOpen)
    {
      isOpen := !isOpen;
    }

    /** A click on the overlay, which is only there while the menu is open. */
    method OverlayClick()
      requires isOpen
      modifies this`isOpen
      ensures !isOpen
    {
      isOpen := false;
    }

    /** `handleNavigate(view)`: the view is passed on and the menu closes. */
    method Navigate(view: string)
      modifies this
      ensures navigated == old(navigated) + [view]
      ensures !isOpen
    {
      navigated := navigated + [view];
      isOpen := false;
    }
  }
}
