/**
 * The user-management routes of the dashboard back end
 * (react-dashboard/backend/routes/users-management.js): listing with filters,
 * role change, listing and creation of a company's users, and deletion, each
 * guarded so that the caller cannot act on their own account and the last
 * admin is never demoted or deleted.
 *
 * The authentication and role middleware, and the company-access middleware
 * in front of the company routes, are not part of this model: a handler is
 * entered with the caller's id and role.
 */
module UsersManagement {
  import opened Wrappers
  import opened JsText
  import opened UserStore

  /** The roles the role-change validator admits. */
  const ManagedRoles := ["admin", "superuser", "contact_person", "regular_user"]

  /** The roles a user created inside a company may receive. */
  const CompanyRoles := ["regular_user", "contact_person"]

  const RegularUser := "regular_user"
  const ContactPerson := "contact_person"

  // ------------------------------------------------------------ GET /

  /** The `where` clause of the admin listing; a filter left empty does not restrict. */
  predicate MatchesFilters(u: User, search: string, role: string, company: Option<int>)
  {
    (search == "" || SearchMatches(u, search)) && InRoleAndCompany(u.role, u.companyId, role, company)
  }

  /** The role and company filters of the listing, on a user's role and company id. */
  predicate InRoleAndCompany(userRole: string, userCompany: Option<int>, role: string, company: Option<int>)
  {
    (role == "" || userRole == role) && (company.None? || userCompany == company)
  }

  /**
   * GET /: the page of users that match the filters, from `ordered`, the
   * table in the route's `id DESC` order.
   */
  function ListUsers(ordered: seq<User>, search: string, role: string, company: Option<int>,
                     pageParam: Option<int>, limitParam: Option<int>): Result<Listing>
  {
    ListingOf(Filter(ordered, ListFilter(search, role, company)), pageParam, limitParam, "Failed to fetch users")
  }

  /** `MatchesFilters` as the filter the listing applies. */
  function ListFilter(search: string, role: string, company: Option<int>): User -> bool
  {
    u => MatchesFilters(u, search, role, company)
  }

  /** Every user the admin listing shows has the requested role and company. */
  lemma ListedUsersMatch(ordered: seq<User>, search: string, role: string, company: Option<int>,
                         pageParam: Option<int>, limitParam: Option<int>)
    ensures var r := ListUsers(ordered, search, role, company, pageParam, limitParam);
            r.Ok? ==> forall k :: 0 <= k < |r.value.users| ==>
              && (role == "" || r.value.users[k].role == role)
              && (company.None? || r.value.users[k].companyId == company)
  {
    var matching := Filter(ordered, ListFilter(search, role, company));
    var r := ListUsers(ordered, search, role, company, pageParam, limitParam);
    if r.Ok? {
      ListedPage(matching, pageParam, limitParam, "Failed to fetch users");
      var p := PagingOf(pageParam, limitParam);
      var users := r.value.users;
      forall k | 0 <= k < |users|
        ensures InRoleAndCompany(users[k].role, users[k].companyId, role, company)
      {
        var u := matching[p.offset + k];
        assert u in matching;
        assert users[k] == Public(u);
      }
    }
  }

  // ------------------------------------------------------------ PUT /:id/role

  /**
   * PUT /:id/role. Checked in order: the role is one of the four roles, the
   * caller is not changing their own role, the user exists, and an admin
   * losing that role is not the last admin. Then only that user's role
   * changes, and the table never goes from having an admin to having none.
   */
  method ChangeRole(table: UserTable, callerId: int, userId: int, role: string) returns (reply: Reply)
    requires table.Valid()
    modifies table
    ensures table.Valid() && table.nextId == old(table.nextId)
    ensures role !in ManagedRoles ==> reply == Failure(400, ["Invalid role specified"])
    ensures role in ManagedRoles && callerId == userId ==> reply == Failure(400, ["Cannot change your own role"])
    ensures role in ManagedRoles && callerId != userId && userId !in old(table.rows) ==>
              reply == Failure(404, ["User not found"])
    ensures role in ManagedRoles && callerId != userId && userId in old(table.rows)
            && old(table.rows)[userId].role == Admin && role != Admin && AdminCount(old(table.rows)) <= 1 ==>
              reply == Failure(400, ["Cannot change role of the last admin user"])
    ensures reply.Failure? ==> table.rows == old(table.rows)
    ensures reply.Success? ==>
              && userId in old(table.rows)
              && table.rows == old(table.rows)[userId := old(table.rows)[userId].(role := role)]
              && reply == Success(200, "User role updated successfully", Some(Public(table.rows[userId])))
    ensures AdminCount(old(table.rows)) >= 1 ==> AdminCount(table.rows) >= 1
  {
    if role !in ManagedRoles {
      return Failure(400, ["Invalid role specified"]);
    }
    if callerId == userId {
      return Failure(400, ["Cannot change your own role"]);
    }
    if userId !in table.rows {
      return Failure(404, ["User not found"]);
    }
    var user := table.rows[userId];
    if user.role == Admin && role != Admin {
      var adminCount := AdminCount(table.rows);
      if adminCount <= 1 {
        return Failure(400, ["Cannot change role of the last admin user"]);
      }
    }
    var updated := user.(role := role);
    AdminsAfterReplace(table.rows, userId, updated);
    var saved := table.Save(updated);
    assert saved;
    reply := Success(200, "User role updated successfully", Some(Public(table.rows[userId])));
  }

  // ------------------------------------------------------------ GET /company/:companyId

  /**
   * GET /company/:companyId: the page of the company's users from `ordered`,
   * the table in the route's `name ASC` order. The inner join with the
   * company drops every row when the company does not exist.
   */
  function ListCompanyUsers(ordered: seq<User>, companies: set<int>, companyId: int,
                            pageParam: Option<int>, limitParam: Option<int>): Result<Listing>
  {
    ListingOf(Filter(ordered, CompanyFilter(companies, companyId)), pageParam, limitParam, "Failed to fetch company users")
  }

  /** `where: { companyId }` joined with the company row, as a filter. */
  function CompanyFilter(companies: set<int>, companyId: int): User -> bool
  {
    (u: User) => u.companyId == Some(companyId) && companyId in companies
  }

  /**
   * The company listing shows only users of that company, and nothing at
   * all for a company that does not exist.
   */
  lemma CompanyListingScoped(ordered: seq<User>, companies: set<int>, companyId: int,
                             pageParam: Option<int>, limitParam: Option<int>)
    ensures var r := ListCompanyUsers(ordered, companies, companyId, pageParam, limitParam);
            && (r.Ok? && companyId !in companies ==> r.value.totalUsers == 0)
            && (r.Ok? ==> forall k :: 0 <= k < |r.value.users| ==> r.value.users[k].companyId == Some(companyId))
  {
    var inCompany := CompanyFilter(companies, companyId);
    var matching := Filter(ordered, inCompany);
    var r := ListCompanyUsers(ordered, companies, companyId, pageParam, limitParam);
    if r.Ok? {
      ListedPage(matching, pageParam, limitParam, "Failed to fetch company users");
      var p := PagingOf(pageParam, limitParam);
      if companyId !in companies {
        FilterNone(ordered, inCompany);
      }
      forall k | 0 <= k < |r.value.users|
        ensures r.value.users[k].companyId == Some(companyId)
      {
        var u := matching[p.offset + k];
        assert u in matching;
        assert inCompany(u);
      }
    }
  }

  // ------------------------------------------------------------ POST /company/:companyId

  /** The request body of a company-scoped creation; a missing text is empty. */
  datatype NewUser = NewUser(name: string, email: string, password: string, role: Option<string>, phone: Option<string>)

  /** `body('role').optional().isIn(CompanyRoles)`: absent, or one of the two roles. */
  predicate AssignableRole(role: Option<string>)
  {
    role.None? || role.value in CompanyRoles
  }

  /**
   * The validator messages of a creation request, in the order of the
   * checks. `emailValid` is the verdict of the library's `isEmail`.
   */
  function CreateErrors(form: NewUser, emailValid: bool): (errors: seq<string>)
    ensures errors == [] <==>
              form.name != "" && emailValid && |form.password| >= 6 && AssignableRole(form.role)
  {
    Check(form.name == "", "Name is required")
    + Check(!emailValid, "Valid email is required")
    + Check(|form.password| < 6, "Password must be at least 6 characters")
    + Check(!AssignableRole(form.role),
            "Only regular_user and contact_person roles can be assigned by contact persons")
  }

  /**
   * POST /company/:companyId. Checked in order: the validators, an unused
   * email, an existing company. The new row gets the next id, the hash of
   * the password (`hashed` stands for the result of bcrypt), the requested
   * role or regular_user, the phone or null, and the company of the path.
   * Whoever the caller is, the new user is a regular_user or a
   * contact_person: the caller-role check after the validators never
   * refuses, and the admin count does not change.
   */
  method CreateInCompany(table: UserTable, companies: set<int>, callerRole: string, companyId: int,
                         form: NewUser, emailValid: bool, hashed: string) returns (reply: Reply)
    requires table.Valid()
    modifies table
    ensures table.Valid()
    ensures CreateErrors(form, emailValid) != [] ==> reply == Failure(400, CreateErrors(form, emailValid))
    ensures CreateErrors(form, emailValid) == [] && EmailTaken(old(table.rows), form.email) ==>
              reply == Failure(400, ["User with this email already exists"])
    ensures CreateErrors(form, emailValid) == [] && !EmailTaken(old(table.rows), form.email) && companyId !in companies ==>
              reply == Failure(404, ["Company not found"])
    ensures reply.Failure? ==> table.rows == old(table.rows) && table.nextId == old(table.nextId)
    ensures reply.Success? ==>
              var id := old(table.nextId);
              var row := User(id, form.name, form.email, hashed, form.role.GetOr(RegularUser),
                              Some(companyId), NullIfEmpty(form.phone), DefaultLanguage, DefaultLessonLevel);
              && id !in old(table.rows)
              && table.rows == old(table.rows)[id := row]
              && reply == Success(201, "User created successfully", Some(Public(row)))
    ensures reply.Success? ==> exists id :: id in table.rows && id !in old(table.rows) && table.rows[id].role in CompanyRoles
    ensures reply.status != 403
    ensures AdminCount(table.rows) == AdminCount(old(table.rows))
  {
    var errors := CreateErrors(form, emailValid);
    if errors != [] {
      return Failure(400, errors);
    }
    var role := form.role.GetOr(RegularUser);
    if EmailTaken(table.rows, form.email) {
      return Failure(400, ["User with this email already exists"]);
    }
    if companyId !in companies {
      return Failure(404, ["Company not found"]);
    }
    if callerRole == ContactPerson && role !in CompanyRoles {
      // The role validator admits only these two roles, so this never refuses.
      assert false;
    }
    var row := User(0, form.name, form.email, hashed, role, Some(companyId), NullIfEmpty(form.phone),
                    DefaultLanguage, DefaultLessonLevel);
    AdminsAfterInsert(table.rows, table.nextId, row.(id := table.nextId));
    var id := table.Create(row);
    reply := Success(201, "User created successfully", Some(Public(table.rows[id])));
  }

  // ------------------------------------------------------------ DELETE /:id

  /**
   * DELETE /:id. Checked in order: the caller is not deleting their own
   * account, the user exists, and an admin is not the last admin. Then only
   * that row goes, and the table never goes from having an admin to having
   * none.
   */
  method DeleteUser(table: UserTable, callerId: int, userId: int) returns (reply: Reply)
    requires table.Valid()
    modifies table
    ensures table.Valid() && table.nextId == old(table.nextId)
    ensures callerId == userId ==> reply == Failure(400, ["Cannot delete your own account"])
    ensures callerId != userId && userId !in old(table.rows) ==> reply == Failure(404, ["User not found"])
    ensures callerId != userId && userId in old(table.rows) && old(table.rows)[userId].role == Admin
            && AdminCount(old(table.rows)) <= 1 ==>
              reply == Failure(400, ["Cannot delete the last admin user"])
    ensures reply.Failure? ==> table.rows == old(table.rows)
    ensures reply.Success? ==>
              && userId in old(table.rows)
              && table.rows == old(table.rows) - {userId}
              && reply == Success(200, "User deleted successfully", None)
    ensures AdminCount(old(table.rows)) >= 1 ==> AdminCount(table.rows) >= 1
  {
    if callerId == userId {
      return Failure(400, ["Cannot delete your own account"]);
    }
    if userId !in table.rows {
      return Failure(404, ["User not found"]);
    }
    if table.rows[userId].role == Admin {
      var adminCount := AdminCount(table.rows);
      if adminCount <= 1 {
        return Failure(400, ["Cannot delete the last admin user"]);
      }
    }
    AdminsAfterRemoval(table.rows, userId);
    table.Destroy(userId);
    reply := Success(200, "User deleted successfully", None);
  }
}
