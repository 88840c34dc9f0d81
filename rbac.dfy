/**
 * Role-based access control of the Lector AI front end (src/lib/rbac.ts):
 * the role levels standard 1, superuser 2, admin 3, the permission list of
 * each role, and the checks built on them. A user may carry its own
 * permission list, which then replaces the role's list.
 *
 * The permission table is the one assigned at src/lib/rbac.ts:47-66. The
 * initializer before it (lines 16-44) reads the constant it is defining,
 * which throws when the module is loaded; that first table is not modelled.
 */
module Rbac {
  import opened Wrappers

  const Standard := "standard"
  const Superuser := "superuser"
  const AdminRole := "admin"

  /** A signed-in user; `permissions` is `None` when absent or null. */
  datatype RbacUser = RbacUser(role: string, organizationId: Option<string>, permissions: Option<seq<string>>)

  /** `ROLE_HIERARCHY[role]`; `None` is `undefined`. */
  function Level(role: string): (r: Option<nat>)
    ensures r.Some? <==> role in [Standard, Superuser, AdminRole]
    ensures r.Some? ==> 1 <= r.value <= 3
  {
    if role == Standard then Some(1)
    else if role == Superuser then Some(2)
    else if role == AdminRole then Some(3)
    else None
  }

  const StandardPermissions := ["course:view", "lesson:view", "test:take", "profile:edit"]

  const SuperuserPermissions := StandardPermissions + [
    "organization:view", "organization:edit", "user:invite", "user:manage",
    "course:create", "course:edit", "analytics:view"]

  const AdminPermissions := SuperuserPermissions + [
    "admin:access", "organization:create", "organization:delete", "user:delete",
    "system:manage", "billing:manage"]

  /** `ROLE_PERMISSIONS[role] || []`. */
  function RolePermissions(role: string): seq<string>
  {
    if role == Standard then StandardPermissions
    else if role == Superuser then SuperuserPermissions
    else if role == AdminRole then AdminPermissions
    else []
  }

  /** Each role's permissions contain those of every role below it. */
  lemma PermissionsNested(p: string)
    ensures p in StandardPermissions ==> p in SuperuserPermissions
    ensures p in SuperuserPermissions ==> p in AdminPermissions
  {
  }

  /** `hasRole`: false without a user, otherwise the role is exactly `role`. */
  predicate HasRole(user: Option<RbacUser>, role: string)
  {
    user.Some? && user.value.role == role
  }

  /** `hasRoleOrHigher`: a comparison with `undefined` is false. */
  predicate HasRoleOrHigher(user: Option<RbacUser>, role: string)
  {
    && user.Some?
    && Level(user.value.role).Some? && Level(role).Some?
    && Level(user.value.role).value >= Level(role).value
  }

  /** `hasAnyRole`. */
  predicate HasAnyRole(user: Option<RbacUser>, roles: seq<string>)
  {
    user.Some? && user.value.role in roles
  }

  /** `getUserPermissions`: the user's own list when it has one, else its role's. */
  function GetUserPermissions(user: Option<RbacUser>): (r: seq<string>)
    ensures user.None? ==> r == []
    ensures user.Some? && user.value.permissions.Some? ==> r == user.value.permissions.value
    ensures user.Some? && user.value.permissions.None? ==> r == RolePermissions(user.value.role)
  {
    if user.None? then []
    else if user.value.permissions.Some? then user.value.permissions.value
    else RolePermissions(user.value.role)
  }

  /** `hasPermission`. */
  predicate HasPermission(user: Option<RbacUser>, permission: string)
  {
    if user.None? then false
    else if user.value.permissions.Some? then permission in user.value.permissions.value
    else permission in RolePermissions(user.value.role)
  }

  /** `hasPermission` and `getUserPermissions` agree, whichever list decides. */
  lemma HasPermissionIsListed(user: Option<RbacUser>, permission: string)
    ensures HasPermission(user, permission) <==> permission in GetUserPermissions(user)
  {
  }

  /**
   * A user's own list overrides the role, even when it is empty: an admin
   * with the list [] has no permission at all.
   */
  lemma OwnListOverridesRole()
    ensures var u := Some(RbacUser(AdminRole, None, Some([])));
            HasRoleOrHigher(u, AdminRole) && !HasPermission(u, "admin:access") && GetUserPermissions(u) == []
  {
  }

  /**
   * Without an own list, a user at a role or above holds every permission of
   * that role.
   */
  lemma HigherRoleHasMore(user: Option<RbacUser>, role: string, permission: string)
    requires HasRoleOrHigher(user, role) && user.value.permissions.None?
    requires permission in RolePermissions(role)
    ensures HasPermission(user, permission)
  {
    PermissionsNested(permission);
  }

  /** `permissions.every(p => hasPermission(user, p))`. */
  predicate HasAllPermissions(user: Option<RbacUser>, permissions: seq<string>)
  {
    |permissions| == 0 || (HasPermission(user, permissions[0]) && HasAllPermissions(user, permissions[1..]))
  }

  /** `permissions.some(p => hasPermission(user, p))`. */
  predicate HasAnyPermission(user: Option<RbacUser>, permissions: seq<string>)
  {
    |permissions| > 0 && (HasPermission(user, permissions[0]) || HasAnyPermission(user, permissions[1..]))
  }

  /** `every` holds exactly when each listed permission is held; of no permissions, trivially. */
  lemma {:induction false} HasAllMeansEach(user: Option<RbacUser>, permissions: seq<string>)
    ensures HasAllPermissions(user, permissions) <==> forall p :: p in permissions ==> HasPermission(user, p)
    ensures HasAllPermissions(user, [])
  {
    if |permissions| > 0 {
      HasAllMeansEach(user, permissions[1..]);
      assert forall p :: p in permissions <==> p == permissions[0] || p in permissions[1..];
    }
  }

  /** `some` holds exactly when one listed permission is held; of no permissions, never. */
  lemma {:induction false} HasAnyMeansOne(user: Option<RbacUser>, permissions: seq<string>)
    ensures HasAnyPermission(user, permissions) <==> exists p :: p in permissions && HasPermission(user, p)
    ensures !HasAnyPermission(user, [])
  {
    if |permissions| > 0 {
      HasAnyMeansOne(user, permissions[1..]);
      assert forall p :: p in permissions <==> p == permissions[0] || p in permissions[1..];
    }
  }

  /** `getRoleDisplayName`: a role outside the table is shown as itself. */
  function GetRoleDisplayName(role: string): (r: string)
    ensures Level(role).None? ==> r == role
  {
    if role == Standard then "Standard User"
    else if role == Superuser then "Organization Admin"
    else if role == AdminRole then "System Admin"
    else role
  }

  /** `getRoleColor`. */
  function GetRoleColor(role: string): (r: string)
    ensures Level(role).None? ==> r == "bg-muted text-muted-foreground"
  {
    if role == Standard then "bg-secondary text-secondary-foreground"
    else if role == Superuser then "bg-accent text-accent-foreground"
    else if role == AdminRole then "bg-destructive text-destructive-foreground"
    else "bg-muted text-muted-foreground"
  }

  /**
   * `canAccessOrganization`: an admin reaches every organization, anyone
   * else only their own, and a user without organization reaches the
   * target "no organization".
   */
  predicate CanAccessOrganization(user: Option<RbacUser>, target: Option<string>)
  {
    if user.None? then false
    else if HasRole(user, AdminRole) then true
    else user.value.organizationId == target
  }

  lemma AccessWithoutOrganizations(user: RbacUser)
    requires user.organizationId.None?
    ensures CanAccessOrganization(Some(user), None)
    ensures user.role != AdminRole ==> forall t :: CanAccessOrganization(Some(user), Some(t)) == false
  {
  }

  /** `!item.organizationId || item.organizationId === user.organizationId`: a missing or empty id is shared. */
  predicate Visible(user: RbacUser, org: Option<string>)
  {
    org.None? || org.value == "" || org == user.organizationId
  }

  /** `filterByOrganizationAccess` over items whose organization is `orgOf`. */
  function FilterByOrganizationAccess<T>(user: Option<RbacUser>, data: seq<T>, orgOf: T -> Option<string>): (r: seq<T>)
    ensures user.None? ==> r == []
    ensures HasRole(user, AdminRole) ==> r == data
    ensures |r| <= |data|
  {
    if user.None? then []
    else if HasRole(user, AdminRole) then data
    else VisibleItems(user.value, data, orgOf)
  }

  /** `data.filter(...)` for a user other than an admin. */
  function VisibleItems<T>(user: RbacUser, data: seq<T>, orgOf: T -> Option<string>): (r: seq<T>)
    ensures |r| <= |data|
  {
    if |data| == 0 then []
    else (if Visible(user, orgOf(data[0])) then [data[0]] else []) + VisibleItems(user, data[1..], orgOf)
  }

  /** `r` is `data` with some elements left out, the rest in their order. */
  predicate Subsequence<T(==)>(r: seq<T>, data: seq<T>)
  {
    |r| == 0 || (|data| > 0 && ((r[0] == data[0] && Subsequence(r[1..], data[1..])) || Subsequence(r, data[1..])))
  }

  /**
   * A user other than an admin sees, in order, exactly the items without an
   * organization or of the user's organization.
   */
  lemma {:induction false} VisibleItemsExactly<T>(user: RbacUser, data: seq<T>, orgOf: T -> Option<string>)
    ensures Subsequence(VisibleItems(user, data, orgOf), data)
    ensures forall x :: x in VisibleItems(user, data, orgOf) <==> x in data && Visible(user, orgOf(x))
  {
    if |data| > 0 {
      VisibleItemsExactly(user, data[1..], orgOf);
      var rest := VisibleItems(user, data[1..], orgOf);
      assert forall x :: x in data <==> x == data[0] || x in data[1..];
      if Visible(user, orgOf(data[0])) {
        assert VisibleItems(user, data, orgOf) == [data[0]] + rest;
        assert ([data[0]] + rest)[1..] == rest;
      } else {
        assert VisibleItems(user, data, orgOf) == rest;
      }
    }
  }
}
