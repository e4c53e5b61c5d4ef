/**
 * The navigation bar: the avatar initials of the signed-in user, the
 * dashboard button and logging out.
 */
module Navbar {
  import opened Wrappers
  import opened JsString
  import opened Routes

  // ---------------------------------------------------------------- initials

  /** `parts.map(n => n[0]).join('')`: an empty part contributes nothing. */
  function FirstChars(parts: seq<string>): (r: string)
    ensures |r| <= |parts|
  {
    if parts == [] then ""
    else (if parts[0] == "" then "" else [parts[0][0]]) + FirstChars(parts[1..])
  }

  /**
   * The characters of `s` that begin a word: not a space, and at the start
   * (when `atStart`) or right after a space.
   */
  function WordStarts(s: string, atStart: bool): (r: string)
    ensures forall c :: c in r ==> c in s && c != ' '
  {
    if s == [] then ""
    else (if s[0] != ' ' && atStart then [s[0]] else "") + WordStarts(s[1..], s[0] == ' ')
  }

  /**
   * Taking the first character of each space-separated piece gives exactly
   * the word-initial characters, in order; the pieces after the first give
   * those after the first position.
   */
  lemma {:induction false} FirstCharsOfWords(s: string)
    ensures FirstChars(Split(s, ' ')) == WordStarts(s, true)
    ensures FirstChars(Split(s, ' ')[1..]) == WordStarts(s, false)
  {
    if s != [] {
      var rest := Split(s[1..], ' ');
      FirstCharsOfWords(s[1..]);
      if s[0] == ' ' {
        assert Split(s, ' ') == [""] + rest;
        assert ([""] + rest)[1..] == rest;
      } else {
        var parts := [[s[0]] + rest[0]] + rest[1..];
        assert Split(s, ' ') == parts;
        assert parts[1..] == rest[1..];
        assert FirstChars(parts) == [s[0]] + FirstChars(rest[1..]);
      }
    }
  }

  /**
   * `getInitials`: `U` without a name; otherwise the first character of
   * each space-separated word, upper-cased, at most two of them.
   */
  function GetInitials(fullName: Option<string>): (r: string)
    ensures !Truthy(fullName) ==> r == "U"
    ensures |r| <= 2
    ensures Truthy(fullName) ==>
      var starts := ToUpper(WordStarts(fullName.value, true));
      r == starts[..if |starts| < 2 then |starts| else 2]
  {
    if !Truthy(fullName) then "U"
    else
      FirstCharsOfWords(fullName.value);
      var joined := ToUpper(FirstChars(Split(fullName.value, ' ')));
      joined[..if |joined| < 2 then |joined| else 2]
  }

  /** Two words give the two upper-cased initials. */
  lemma InitialsOfTwoWords(first: string, last: string)
    requires first != "" && last != "" && ' ' !in first && ' ' !in last
    ensures GetInitials(Some(first + " " + last)) == [UpperChar(first[0]), UpperChar(last[0])]
  {
    SplitAround(first, last, ' ');
    SplitWithout(last, ' ');
    assert Split(first + " " + last, ' ') == [first, last];
    FirstCharsOfWords(first + " " + last);
    assert FirstChars([first, last]) == [first[0], last[0]] by {
      assert [first, last][1..] == [last];
      assert FirstChars([last]) == [last[0]] + FirstChars([]);
    }
  }

  // ---------------------------------------------------------------- navigation

  /** Where the dashboard button leads: `/admin` for an admin, `/dashboard` for any other stored user, else `/login`. */
  function DashboardPath(user: Option<StoredUser>): (p: string)
    ensures user.None? ==> p == "/login"
    ensures user.Some? ==> (p == "/admin" <==> IsAdmin(user))
    ensures user.Some? && !IsAdmin(user) ==> p == "/dashboard"
  {
    if user.Some? then
      if user.value.role == Some("admin") then "/admin" else "/dashboard"
    else "/login"
  }

  /** The dashboard button only leads to `/admin` when the admin guard would render it. */
  lemma DashboardButtonAgreesWithAdminGuard(st: Storage)
    requires Truthy(st.token)
    ensures DashboardPath(st.user) == "/admin" <==> AdminRoute(st) == Render
  {
  }

  /** The bar's state: the storage it reads and clears, the user it shows, the dropdown and the current path. */
  class NavbarState {
    var storage: Storage
    var user: Option<StoredUser>
    var showDropdown: bool
    var location: string

    /** Mounting reads the stored user; the dropdown starts closed. */
    constructor (storage: Storage, location: string)
      ensures this.storage == storage && user == storage.user
      ensures !showDropdown && this.location == location
    {
      this.storage := storage;
      this.user := storage.user;
      this.showDropdown := false;
      this.location := location;
    }

    /** `handleLogout`: clears both slots and the shown user, closes the dropdown and goes to `/login`. */
    method HandleLogout()
      modifies this
      ensures storage == Storage(None, None) && user == None && !showDropdown && location == "/login"
      ensures ProtectedRoute(storage) == Redirect("/login")
      ensures DashboardPath(storage.user) == "/login"
    {
      storage := storage.(user := None);
      storage := storage.(token := None);
      user := None;
      showDropdown := false;
      location := "/login";
    }

    /** `navigateToDashboard`: reads the stored user and moves to the matching page. */
    method NavigateToDashboard()
      modifies this`location
      ensures location == DashboardPath(storage.user)
    {
      if storage.user.Some? {
        if storage.user.value.role == Some("admin") {
          location := "/admin";
        } else {
          location := "/dashboard";
        }
      } else {
        location := "/login";
      }
    }
  }
}
