/** The admin flag: the login page (blog-frontend/src/pages/Login.js) stores
    `isAdmin = "true"` for the right password, and the navigation bar
    (blog-frontend/src/components/Navbar.js) reads the flag, offers Logout
    to an admin and removes the flag on logout. */
module Session {
  import opened Js
  import opened Storage

  const AdminKey := "isAdmin"
  const AdminValue := "true"
  const AdminPassword := "admin123"
  const IncorrectPassword := "Incorrect password"

  // ---------------------------------------------------------------------
  // The storage effects
  // ---------------------------------------------------------------------

  /** `localStorage.getItem('isAdmin') === 'true'` */
  predicate IsAdmin(items: map<string, string>) {
    AdminKey in items && items[AdminKey] == AdminValue
  }

  /** What a login attempt does to the storage. */
  function AfterLogin(items: map<string, string>, password: string): map<string, string> {
    if password == AdminPassword then items[AdminKey := AdminValue] else items
  }

  /** What a logout does to the storage. */
  function AfterLogout(items: map<string, string>): map<string, string> {
    items - {AdminKey}
  }

  /** A login with the password makes the user an admin; any other password
      changes nothing; no other key is touched either way. */
  lemma LoginSpec(items: map<string, string>, password: string)
    ensures password == AdminPassword ==> IsAdmin(AfterLogin(items, password))
    ensures password != AdminPassword ==> AfterLogin(items, password) == items
    ensures forall k :: k != AdminKey ==>
              (k in AfterLogin(items, password) <==> k in items) &&
              (k in items ==> AfterLogin(items, password)[k] == items[k])
  {
  }

  /** Logging in twice leaves the storage as logging in once. */
  lemma LoginIdempotent(items: map<string, string>, password: string)
    ensures AfterLogin(AfterLogin(items, password), password) == AfterLogin(items, password)
  {
  }

  /** The check is exact: a different case or surrounding spaces fail. */
  lemma NearMissesRejected(items: map<string, string>)
    ensures AfterLogin(items, "Admin123") == items
    ensures AfterLogin(items, " admin123") == items
    ensures AfterLogin(items, "admin123 ") == items
  {
  }

  /** After a logout the user is no admin, and every other key keeps its
      value. */
  lemma LogoutSpec(items: map<string, string>)
    ensures !IsAdmin(AfterLogout(items))
    ensures AdminKey !in AfterLogout(items)
    ensures forall k :: k != AdminKey ==>
              (k in AfterLogout(items) <==> k in items) &&
              (k in items ==> AfterLogout(items)[k] == items[k])
  {
  }

  /** A logout undoes a login completely, leaving the storage as a logout
      alone would, and is itself idempotent. */
  lemma LogoutUndoesLogin(items: map<string, string>, password: string)
    ensures AfterLogout(AfterLogin(items, password)) == AfterLogout(items)
    ensures AfterLogout(AfterLogout(items)) == AfterLogout(items)
  {
  }

  /** Only the exact value "true" counts: "True" or "1" do not. */
  lemma OnlyExactTrueIsAdmin(items: map<string, string>)
    ensures IsAdmin(items[AdminKey := "True"]) == false
    ensures IsAdmin(items[AdminKey := "1"]) == false
    ensures IsAdmin(items[AdminKey := AdminValue])
  {
  }

  // ---------------------------------------------------------------------
  // The login page
  // ---------------------------------------------------------------------

  class LoginPage {
    var password: string

    constructor ()
      ensures password == ""
    {
      password := "";
    }

    /** The password input's `onChange`. */
    method SetPassword(value: string)
      modifies this
      ensures password == value
    {
      password := value;
    }

    /** `handleLogin`: the right password stores the flag and moves to the
        admin page; any other raises the alert and changes nothing. */
    method HandleLogin(storage: LocalStorage) returns (navigateTo: Option<string>, alert: Option<string>)
      modifies storage
      ensures storage.items == AfterLogin(old(storage.items), password)
      ensures password == AdminPassword ==> navigateTo == Some("/admin") && alert == None
      ensures password != AdminPassword ==> navigateTo == None && alert == Some(IncorrectPassword)
      ensures IsAdmin(storage.items) <==> password == AdminPassword || IsAdmin(old(storage.items))
    {
      if password == AdminPassword {
        storage.SetItem(AdminKey, AdminValue);
        navigateTo, alert := Some("/admin"), None;
      } else {
        navigateTo, alert := None, Some(IncorrectPassword);
      }
    }
  }

  // ---------------------------------------------------------------------
  // The navigation bar
  // ---------------------------------------------------------------------

  class NavbarState {
    var showProfile: bool

    constructor ()
      ensures !showProfile
    {
      showProfile := false;
    }

    /** The dropdown is open and, since the flag is read at every render,
        offers Logout exactly when the storage holds the flag. */
    predicate LogoutOffered(storage: LocalStorage)
      reads this, storage
    {
      showProfile && IsAdmin(storage.items)
    }

    /** `toggleProfileDropdown` (a click on the icon, or Enter or space on
        it). */
    method Toggle()
      modifies this
      ensures showProfile == !old(showProfile)
    {
      showProfile := !showProfile;
    }

    /** The document `click` listener: `attached` says whether the profile
        element is mounted, `inside` whether the click landed inside it. */
    method OnDocumentClick(attached: bool, inside: bool)
      modifies this
      ensures attached && !inside ==> !showProfile
      ensures !(attached && !inside) ==> showProfile == old(showProfile)
    {
      if attached && !inside {
        showProfile := false;
      }
    }

    /** `handleLogout`: removes the flag and moves to the home page; the
        dropdown state is left as it was. */
    method HandleLogout(storage: LocalStorage) returns (navigateTo: string)
      modifies storage
      ensures storage.items == AfterLogout(old(storage.items))
      ensures !IsAdmin(storage.items) && !LogoutOffered(storage)
      ensures navigateTo == "/"
    {
      storage.RemoveItem(AdminKey);
      LogoutSpec(old(storage.items));
      navigateTo := "/";
    }
  }

  /** Toggling twice gives back the state before; the icon click that opens
      the dropdown is inside the profile element, so the document listener
      does not close it again. */
  method ToggleTwice(nav: NavbarState)
    modifies nav
    ensures nav.showProfile == old(nav.showProfile)
  {
    nav.Toggle();
    nav.Toggle();
  }
}
