/** The navigation bar of `src/components/layout/Navigation.tsx`: the menu
    each role sees, the role badge, and the rule that marks a link active. */
module Navigation {
  import opened Wrappers
  import opened Text
  import opened Schema
  import opened Badges

  /** A menu entry; its icon is left out. */
  datatype NavItem = NavItem(name: string, href: string)

  const BaseItems: seq<NavItem> := [
    NavItem("Dashboard", "/dashboard"),
    NavItem("Profile", "/profile"),
    NavItem("Settings", "/settings")
  ]

  const AdminItems: seq<NavItem> := [NavItem("Admin Panel", "/admin")]

  const TeacherItems: seq<NavItem> := [
    NavItem("My Quizzes", "/teacher/quizzes"),
    NavItem("Create Quiz", "/teacher/create"),
    NavItem("Analytics", "/teacher/analytics")
  ]

  const StudentItems: seq<NavItem> := [
    NavItem("Join Quiz", "/student/join"),
    NavItem("My Results", "/student/results")
  ]

  /** The entries a role adds after the base ones; none for a role the
      switch does not name. */
  function RoleItems(role: string): seq<NavItem> {
    if role == "admin" then AdminItems
    else if role == "teacher" then TeacherItems
    else if role == "student" then StudentItems
    else []
  }

  /** `getNavigationItems`. */
  function NavigationItems(profile: Option<Profile>): seq<NavItem> {
    if profile.None? then BaseItems else BaseItems + RoleItems(profile.value.role)
  }

  /** Without a profile the menu is the three base entries; with one it is
      the base entries followed by the role's own, and a role outside
      admin, teacher and student adds nothing. */
  lemma MenuExtendsBase(profile: Option<Profile>)
    ensures BaseItems <= NavigationItems(profile)
    ensures profile.None? ==> NavigationItems(profile) == BaseItems && |NavigationItems(profile)| == 3
    ensures profile.Some? ==> NavigationItems(profile)[3..] == RoleItems(profile.value.role)
    ensures profile.Some? && profile.value.role !in {"admin", "teacher", "student"} ==>
      NavigationItems(profile) == BaseItems
    ensures profile.Some? && profile.value.role == "admin" ==> |NavigationItems(profile)| == 4
    ensures profile.Some? && profile.value.role == "teacher" ==> |NavigationItems(profile)| == 6
    ensures profile.Some? && profile.value.role == "student" ==> |NavigationItems(profile)| == 5
  {
  }

  /** `pathname === item.href`. */
  predicate IsActive(pathname: string, item: NavItem) {
    pathname == item.href
  }

  predicate DistinctHrefs(items: seq<NavItem>) {
    forall i, j :: 0 <= i < j < |items| ==> items[i].href != items[j].href
  }

  /** Every menu links each page once. */
  lemma MenusHaveDistinctHrefs(profile: Option<Profile>)
    ensures DistinctHrefs(NavigationItems(profile))
  {
  }

  /** Whatever the path, at most one entry of a menu is shown active, and
      an entry is active exactly when the path is its link. */
  lemma AtMostOneActive(profile: Option<Profile>, pathname: string, i: nat, j: nat)
    requires i < |NavigationItems(profile)| && j < |NavigationItems(profile)|
    requires IsActive(pathname, NavigationItems(profile)[i]) && IsActive(pathname, NavigationItems(profile)[j])
    ensures i == j
  {
    MenusHaveDistinctHrefs(profile);
  }

  /** The role badge: its text and, for the three known roles, its variant. */
  datatype RoleBadge = RoleBadge(text: string, variant: Option<BadgeVariant>)

  /** `role.charAt(0).toUpperCase() + role.slice(1)`. */
  function Capitalize(role: string): string
    requires role != ""
  {
    [UpperChar(role[0])] + role[1..]
  }

  /** `variants[role]`. */
  function RoleVariant(role: string): Option<BadgeVariant> {
    if role == "admin" then Some(Destructive)
    else if role == "teacher" then Some(Default)
    else if role == "student" then Some(Secondary)
    else None
  }

  /** `getRoleBadge`: no badge without a profile or with an empty role. */
  function RoleBadgeOf(profile: Option<Profile>): (r: Option<RoleBadge>)
    ensures r.None? <==> profile.None? || profile.value.role == ""
  {
    if profile.None? || profile.value.role == "" then None
    else Some(RoleBadge(Capitalize(profile.value.role), RoleVariant(profile.value.role)))
  }

  /** The label differs from the role only in its first character, which is
      upper-cased, so the two are equal ignoring case. */
  lemma BadgeLabelIsRole(profile: Option<Profile>)
    requires RoleBadgeOf(profile).Some?
    ensures var caption := RoleBadgeOf(profile).value.text;
      var role := profile.value.role;
      && |caption| == |role| && caption[1..] == role[1..]
      && !('a' <= caption[0] <= 'z')
      && ToLower(caption) == ToLower(role)
  {
    var caption := RoleBadgeOf(profile).value.text;
    var role := profile.value.role;
    assert ToLower(caption)[0] == LowerChar(UpperChar(role[0]));
    assert ToLower(caption) == ToLower(role);
  }

  /** The three roles' badges. */
  lemma KnownRoleBadges(p: Profile)
    ensures p.role == "admin" ==> RoleBadgeOf(Some(p)) == Some(RoleBadge("Admin", Some(Destructive)))
    ensures p.role == "teacher" ==> RoleBadgeOf(Some(p)) == Some(RoleBadge("Teacher", Some(Default)))
    ensures p.role == "student" ==> RoleBadgeOf(Some(p)) == Some(RoleBadge("Student", Some(Secondary)))
    ensures p.role !in {"admin", "teacher", "student"} ==> RoleBadgeOf(Some(p)).None? || RoleBadgeOf(Some(p)).value.variant.None?
  {
    if p.role == "admin" {
      assert UpperChar('a') == 'A';
      assert Capitalize(p.role) == "Admin";
    } else if p.role == "teacher" {
      assert UpperChar('t') == 'T';
      assert Capitalize(p.role) == "Teacher";
    } else if p.role == "student" {
      assert UpperChar('s') == 'S';
      assert Capitalize(p.role) == "Student";
    }
  }
}
