/**
 * The role permissions of the dashboard front end
 * (react-dashboard/frontend/src/utils/permissions.ts): a fixed capability
 * table per role, the role order regular_user < contact_person < superuser
 * < admin, display names and colours, and the company access check. Roles
 * are texts: a role outside the four gets regular_user's capabilities and
 * is below every role, including itself, in the order.
 */
module Permissions {
  import opened Wrappers

  const AdminRole := "admin"
  const SuperuserRole := "superuser"
  const ContactPersonRole := "contact_person"
  const RegularUserRole := "regular_user"

  predicate KnownRole(role: string)
  {
    role == AdminRole || role == SuperuserRole || role == ContactPersonRole || role == RegularUserRole
  }

  datatype RolePermissions = RolePermissions(
    canManageUsers: bool,
    canManageCompanies: bool,
    canManageTrainings: bool,
    canManageTests: bool,
    canViewAllData: bool,
    canOnlyViewOwnCompany: bool)

  /** `getRolePermissions`. */
  function GetRolePermissions(role: string): (p: RolePermissions)
    ensures p.canViewAllData == !p.canOnlyViewOwnCompany
  {
    if role == AdminRole then RolePermissions(true, true, true, true, true, false)
    else if role == SuperuserRole then RolePermissions(false, true, true, true, true, false)
    else if role == ContactPersonRole then RolePermissions(true, false, true, true, false, true)
    else RolePermissions(false, false, false, false, false, true)
  }

  /** A role outside the four is treated as regular_user by the table and shown in its colour. */
  lemma UnknownRoleIsRegular(role: string)
    requires !KnownRole(role)
    ensures GetRolePermissions(role) == GetRolePermissions(RegularUserRole)
    ensures GetRoleColor(role) == GetRoleColor(RegularUserRole) == "secondary"
  {
  }

  /** `roleHierarchy[role]`: `None` is `undefined`, for a role outside the table. */
  function Rank(role: string): (r: Option<nat>)
    ensures r.Some? <==> KnownRole(role)
    ensures r.Some? ==> r.value <= 3
  {
    if role == RegularUserRole then Some(0)
    else if role == ContactPersonRole then Some(1)
    else if role == SuperuserRole then Some(2)
    else if role == AdminRole then Some(3)
    else None
  }

  /** `hasRoleOrHigher`: a comparison with `undefined` is false. */
  predicate HasRoleOrHigher(userRole: string, requiredRole: string)
  {
    Rank(userRole).Some? && Rank(requiredRole).Some? && Rank(userRole).value >= Rank(requiredRole).value
  }

  /**
   * On the four roles the order is reflexive, antisymmetric, transitive and
   * total; a role outside them is neither above nor below any role.
   */
  lemma RoleOrderIsTotal(a: string, b: string, c: string)
    ensures KnownRole(a) ==> HasRoleOrHigher(a, a)
    ensures HasRoleOrHigher(a, b) && HasRoleOrHigher(b, a) ==> a == b
    ensures HasRoleOrHigher(a, b) && HasRoleOrHigher(b, c) ==> HasRoleOrHigher(a, c)
    ensures KnownRole(a) && KnownRole(b) ==> HasRoleOrHigher(a, b) || HasRoleOrHigher(b, a)
    ensures !KnownRole(a) ==> !HasRoleOrHigher(a, b) && !HasRoleOrHigher(b, a)
  {
  }

  /** The order from the bottom: regular_user < contact_person < superuser < admin. */
  lemma RoleOrderChain()
    ensures HasRoleOrHigher(ContactPersonRole, RegularUserRole) && !HasRoleOrHigher(RegularUserRole, ContactPersonRole)
    ensures HasRoleOrHigher(SuperuserRole, ContactPersonRole) && !HasRoleOrHigher(ContactPersonRole, SuperuserRole)
    ensures HasRoleOrHigher(AdminRole, SuperuserRole) && !HasRoleOrHigher(SuperuserRole, AdminRole)
  {
  }

  function CanManageUsers(role: string): (r: bool)
    ensures r <==> role == AdminRole || role == ContactPersonRole
  {
    GetRolePermissions(role).canManageUsers
  }

  function CanManageCompanies(role: string): (r: bool)
    ensures r <==> role == AdminRole || role == SuperuserRole
  {
    GetRolePermissions(role).canManageCompanies
  }

  function CanManageTrainings(role: string): (r: bool)
    ensures r <==> role == AdminRole || role == SuperuserRole || role == ContactPersonRole
  {
    GetRolePermissions(role).canManageTrainings
  }

  function CanManageTests(role: string): (r: bool)
    ensures r <==> role == AdminRole || role == SuperuserRole || role == ContactPersonRole
  {
    GetRolePermissions(role).canManageTests
  }

  function CanViewAllData(role: string): (r: bool)
    ensures r <==> role == AdminRole || role == SuperuserRole
  {
    GetRolePermissions(role).canViewAllData
  }

  /**
   * Most capabilities follow the role order: viewing all data and managing
   * companies from superuser up, trainings and tests from contact_person up.
   */
  lemma CapabilitiesByRank(role: string)
    ensures CanViewAllData(role) <==> HasRoleOrHigher(role, SuperuserRole)
    ensures CanManageCompanies(role) <==> HasRoleOrHigher(role, SuperuserRole)
    ensures CanManageTrainings(role) <==> HasRoleOrHigher(role, ContactPersonRole)
    ensures CanManageTests(role) <==> HasRoleOrHigher(role, ContactPersonRole)
  {
  }

  /** Managing users does not: a contact person may, a superuser above them may not. */
  lemma ManageUsersNotByRank()
    ensures HasRoleOrHigher(SuperuserRole, ContactPersonRole)
    ensures CanManageUsers(ContactPersonRole) && !CanManageUsers(SuperuserRole)
  {
  }

  /** `getRoleDisplayName`. */
  function GetRoleDisplayName(role: string): (r: string)
    ensures !KnownRole(role) ==> r == "Neznámá role"
  {
    if role == AdminRole then "Administrátor"
    else if role == SuperuserRole then "Superuživatel"
    else if role == ContactPersonRole then "Kontaktní osoba"
    else if role == RegularUserRole then "Běžný uživatel"
    else "Neznámá role"
  }

  /** Different roles are shown under different names, and no known role as unknown. */
  lemma DisplayNamesDistinct(a: string, b: string)
    requires KnownRole(a) && KnownRole(b) && a != b
    ensures GetRoleDisplayName(a) != GetRoleDisplayName(b)
    ensures GetRoleDisplayName(a) != "Neznámá role"
  {
  }

  /** `getRoleColor`. */
  function GetRoleColor(role: string): (r: string)
    ensures r in ["primary", "secondary", "success", "warning", "error"]
  {
    if role == AdminRole then "error"
    else if role == SuperuserRole then "warning"
    else if role == ContactPersonRole then "primary"
    else "secondary"
  }

  /**
   * `canAccessCompany`: admin and superuser reach every company, any other
   * role only its own, two missing company ids counting as the same. This
   * is exactly the roles that may view all data.
   */
  function CanAccessCompany(userRole: string, userCompanyId: Option<int>, targetCompanyId: Option<int>): (r: bool)
    ensures r <==> CanViewAllData(userRole) || userCompanyId == targetCompanyId
  {
    if userRole in [AdminRole, SuperuserRole] then true
    else userCompanyId == targetCompanyId
  }
}
