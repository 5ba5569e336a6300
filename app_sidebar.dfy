/** The dashboard sidebar: the signed-in user's name, e-mail and initials, and
    which navigation entry is active for the current path. */
module AppSidebar {
  import opened Records
  import Text

  const Guest := "Guest"

  const NavigationUrls: seq<string> := [
    "/dashboard",
    "/dashboard/repository",
    "/dashboard/reviews",
    "/dashboard/subscription",
    "/dashboard/settings"
  ]

  /** The fields of the session's user that the sidebar reads. */
  datatype SessionUser = SessionUser(name: Option<string>, email: Option<string>, image: Option<string>)

  /** What the sidebar shows about the user. */
  datatype SidebarUser = SidebarUser(userName: string, userEmail: string, avatar: Option<string>, initials: string)

  /** The non-empty pieces, in order, each as often as it occurs. */
  function NonEmpty(parts: seq<string>): (r: seq<string>)
    ensures forall i :: 0 <= i < |r| ==> r[i] != ""
    ensures forall p :: p in r <==> p in parts && p != ""
    ensures forall p :: multiset(r)[p] == if p != "" then multiset(parts)[p] else 0
    decreases |parts|
  {
    if |parts| == 0 then []
    else
      assert parts == [parts[0]] + parts[1..];
      if parts[0] == "" then NonEmpty(parts[1..])
      else [parts[0]] + NonEmpty(parts[1..])
  }

  /** Dropping the empty pieces keeps the order: the pieces of a concatenation
      are the pieces of its first part followed by those of its second. */
  lemma {:induction false} NonEmptyAppend(a: seq<string>, b: seq<string>)
    ensures NonEmpty(a + b) == NonEmpty(a) + NonEmpty(b)
    decreases |a|
  {
    if |a| == 0 {
      assert a + b == b;
    } else {
      assert (a + b)[0] == a[0] && (a + b)[1..] == a[1..] + b;
      NonEmptyAppend(a[1..], b);
    }
  }

  /** `parts.map(n => n[0]).join("")`: `n[0]` of an empty piece is `undefined`,
      which `join` writes as nothing. */
  function FirstLetters(parts: seq<string>): (r: string)
    ensures |r| == |NonEmpty(parts)|
    ensures forall i :: 0 <= i < |r| ==> r[i] == NonEmpty(parts)[i][0]
    decreases |parts|
  {
    if |parts| == 0 then ""
    else if parts[0] == "" then FirstLetters(parts[1..])
    else [parts[0][0]] + FirstLetters(parts[1..])
  }

  /** `userInitials`: the upper-cased first letter of each non-empty
      space-separated piece of the name, in order. */
  function Initials(name: string): (r: string)
    ensures var words := NonEmpty(Text.Split(name, ' '));
      && |r| == |words|
      && forall i :: 0 <= i < |r| ==> r[i] == Text.UpperChar(words[i][0])
  {
    Text.Upper(FirstLetters(Text.Split(name, ' ')))
  }

  /** `user.name ?? "Guest"`: only a missing name is replaced, so the shown
      name is empty only for an empty name. */
  function UserName(name: Option<string>): (r: string)
    ensures name.None? ==> r == Guest
    ensures r == "" ==> name == Some("")
  {
    if name.Some? then name.value else Guest
  }

  /** A user without a name is shown as "Guest", with initials "G". */
  lemma GuestInitials()
    ensures UserName(None) == "Guest" && Initials(UserName(None)) == "G"
  {
    Text.SplitNoSeparator(Guest, ' ');
    assert NonEmpty([Guest]) == [Guest];
  }

  /** Two words separated by a single space give two initials. */
  lemma TwoWordInitials(first: string, last: string)
    requires first != "" && last != "" && ' ' !in first && ' ' !in last
    ensures Initials(first + " " + last) == [Text.UpperChar(first[0]), Text.UpperChar(last[0])]
  {
    Text.SplitAtFirst(first, last, ' ');
    Text.SplitNoSeparator(last, ' ');
    assert [first, last][1..] == [last];
    assert NonEmpty([last]) == [last];
    assert NonEmpty([first, last]) == [first, last];
  }

  /** The component renders nothing until it is mounted and a session exists;
      then it shows the user's name (or "Guest"), e-mail (or nothing) and initials. */
  function Sidebar(mounted: bool, session: Option<SessionUser>): (r: Option<SidebarUser>)
    ensures r.Some? <==> mounted && session.Some?
    ensures r.Some? ==>
      && r.value.userName == (if session.value.name.Some? then session.value.name.value else Guest)
      && r.value.initials == Initials(r.value.userName)
      && r.value.userEmail == (if session.value.email.Some? then session.value.email.value else "")
  {
    if !mounted || session.None? then None
    else
      var user := session.value;
      var userName := UserName(user.name);
      Some(SidebarUser(userName, if user.email.Some? then user.email.value else "", user.image, Initials(userName)))
  }

  /** `isActive(url)`: the path is exactly the entry's URL, so a page below an
      entry's URL does not make that entry active. */
  predicate IsActive(pathname: string, url: string)
    ensures url <= pathname && url != pathname ==> !IsActive(pathname, url)
  {
    pathname == url
  }

  /** For any path, at most one navigation entry is active. */
  lemma AtMostOneActive(pathname: string, i: nat, j: nat)
    requires i < |NavigationUrls| && j < |NavigationUrls|
    requires IsActive(pathname, NavigationUrls[i]) && IsActive(pathname, NavigationUrls[j])
    ensures i == j
  {
    assert |NavigationUrls[0]| == 10 && |NavigationUrls[1]| == 21 && |NavigationUrls[2]| == 18;
    assert |NavigationUrls[3]| == 23 && |NavigationUrls[4]| == 19;
  }
}
