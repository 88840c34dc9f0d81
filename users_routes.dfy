/**
 * The admin user routes of the dashboard back end
 * (react-dashboard/backend/routes/users.js): listing, reading, creating,
 * updating and deleting users, and the call endpoint. Every user a route
 * returns is a `PublicUser`, so no reply carries a password.
 *
 * The authentication and admin-only middleware are not part of this model.
 */
module UsersRoutes {
  import opened Wrappers
  import opened JsText
  import opened UserStore

  /** The roles the create and update validators admit. */
  const Roles := ["admin", "user"]

  const DefaultRole := "user"

  // ------------------------------------------------------------ GET /

  /** GET /: the page of users whose name or email contains `search`, from `ordered`, the table in `id DESC` order. */
  function ListUsers(ordered: seq<User>, search: string, pageParam: Option<int>, limitParam: Option<int>): Result<Listing>
  {
    ListingOf(Filter(ordered, SearchFilter(search)), pageParam, limitParam, "Failed to fetch users")
  }

  /** The `where` clause of the listing as a filter; an empty search does not restrict. */
  function SearchFilter(search: string): User -> bool
  {
    u => search == "" || SearchMatches(u, search)
  }

  /** With no search text the listing counts every row of the table. */
  lemma ListAllWithoutSearch(ordered: seq<User>, pageParam: Option<int>, limitParam: Option<int>)
    ensures var r := ListUsers(ordered, "", pageParam, limitParam);
            r.Ok? ==> r.value.totalUsers == |ordered|
  {
    var all := SearchFilter("");
    FilterAll(ordered, all);
    ListedPage(Filter(ordered, all), pageParam, limitParam, "Failed to fetch users");
  }

  // ------------------------------------------------------------ GET /:id

  /** GET /:id: the user without its password, or 404. */
  function GetUser(rows: map<int, User>, id: int): (r: Reply)
    ensures r.Success? <==> id in rows
    ensures r.Success? ==> r.status == 200 && r.user == Some(Public(rows[id]))
    ensures r.Failure? ==> r == Failure(404, ["User not found"])
  {
    if id !in rows then Failure(404, ["User not found"])
    else Success(200, "", Some(Public(rows[id])))
  }

  // ------------------------------------------------------------ POST /

  /**
   * A JSON value supplied for `companyId`, as far as the validator and the
   * integer column tell values apart: an integral number (written in plain
   * decimal by `String`), a text, null, or anything else (a boolean, a
   * fraction, an object).
   */
  datatype JsonValue = JNumber(n: int) | JText(s: string) | JNull | JOther

  /** The sign a text starts with, if any: 1 character to skip, else 0. */
  function SignLength(s: string): nat
  {
    if |s| > 0 && (s[0] == '+' || s[0] == '-') then 1 else 0
  }

  /** `isInt()` on a text: an optional sign, then one or more decimal digits. */
  predicate IsIntText(s: string)
  {
    |s| > SignLength(s) && forall i :: SignLength(s) <= i < |s| ==> '0' <= s[i] <= '9'
  }

  /**
   * `body('companyId').optional().isInt()`: an absent value passes, a number
   * passes, a text passes when it reads as an integer, and null (checked as
   * the empty text) and every other value fail.
   */
  predicate ValidCompanyId(v: Option<JsonValue>)
  {
    match v
    case None => true
    case Some(JNumber(_)) => true
    case Some(JText(s)) => IsIntText(s)
    case Some(_) => false
  }

  /** The integer a text that passes `isInt()` denotes. */
  function IntOfText(s: string): int
    requires IsIntText(s)
  {
    var magnitude: int := DecimalValue(s[SignLength(s)..]);
    if s[0] == '-' then -magnitude else magnitude
  }

  /** The integer the `companyId` column stores for a value the validator passed. */
  function ColumnInt(v: JsonValue): int
    requires ValidCompanyId(Some(v))
  {
    if v.JNumber? then v.n else IntOfText(v.s)
  }

  /**
   * The validator passes numbers and signed digit texts and refuses null,
   * other values and texts with anything else; the column reads "+007" as 7
   * and "-12" as -12.
   */
  lemma CompanyIdValidator()
    ensures ValidCompanyId(None) && ValidCompanyId(Some(JNumber(5))) && ValidCompanyId(Some(JText("12")))
    ensures !ValidCompanyId(Some(JNull)) && !ValidCompanyId(Some(JOther))
    ensures !ValidCompanyId(Some(JText(""))) && !ValidCompanyId(Some(JText("-"))) && !ValidCompanyId(Some(JText("12a")))
    ensures IntOfText("+007") == 7 && IntOfText("-12") == -12
  {
    assert "12a"[2] == 'a';
    assert "+007"[1..] == "007" && "007"[..2] == "00" && "00"[..1] == "0" && "0"[..0] == "";
    assert "-12"[1..] == "12" && "12"[..1] == "1" && "1"[..0] == "";
  }

  /** The body of a creation request; a missing text is empty. */
  datatype NewUser = NewUser(
    name: string,
    email: string,
    password: string,
    role: Option<string>,
    companyId: Option<JsonValue>,
    phone: Option<string>,
    language: Option<string>)

  /** `role` is absent or one of the two roles. */
  predicate ValidRole(role: Option<string>)
  {
    role.None? || role.value in Roles
  }

  /** The validator messages of a creation request; `emailValid` is the verdict of the library's `isEmail`. */
  function CreateErrors(form: NewUser, emailValid: bool): (errors: seq<string>)
    ensures errors == [] <==>
              form.name != "" && emailValid && |form.password| >= 6 && ValidRole(form.role) && ValidCompanyId(form.companyId)
  {
    Check(form.name == "", "Name is required")
    + Check(!emailValid, "Valid email is required")
    + Check(|form.password| < 6, "Password must be at least 6 characters")
    + Check(!ValidRole(form.role), "Invalid role")
    + Check(!ValidCompanyId(form.companyId), "Invalid company ID")
  }

  /**
   * `companyId || null`: the number 0 is falsy and stored as null; every
   * text that passed the validator, "0" included, is truthy and stored as
   * its integer.
   */
  function CreatedCompanyId(v: Option<JsonValue>): Option<int>
    requires ValidCompanyId(v)
  {
    if v.None? || v == Some(JNumber(0)) then None else Some(ColumnInt(v.value))
  }

  /** The row a valid creation request inserts, before the database assigns its id. */
  function NewRow(form: NewUser, hashed: string): User
    requires ValidCompanyId(form.companyId)
  {
    User(0, form.name, form.email, hashed, form.role.GetOr(DefaultRole), CreatedCompanyId(form.companyId),
         NullIfEmpty(form.phone), form.language.GetOr(DefaultLanguage), 0)
  }

  /**
   * A created user has the role 'user' unless one was given, the language
   * 'cs' unless one was given, lesson level 0, and null for a missing
   * phone, an empty phone, a missing company or the company number 0. The
   * company text "0" is truthy and stored as 0.
   */
  lemma NewRowDefaults(form: NewUser, hashed: string)
    requires ValidCompanyId(form.companyId)
    ensures var u := NewRow(form, hashed);
            && (form.role.None? ==> u.role == "user")
            && (form.language.None? ==> u.language == "cs")
            && u.lessonLevel == 0
            && u.password == hashed
            && (form.companyId.None? || form.companyId == Some(JNumber(0)) <==> u.companyId.None?)
            && (form.companyId == Some(JText("0")) ==> u.companyId == Some(0))
            && (form.phone.None? || form.phone == Some("") <==> u.phone.None?)
  {
    if form.companyId == Some(JText("0")) {
      var zero: string := "0";
      assert zero == ['0'];
      DigitText('0');
    }
  }

  /** A single digit passes `isInt()` and denotes its own value. */
  lemma DigitText(c: char)
    requires '0' <= c <= '9'
    ensures IsIntText([c]) && IntOfText([c]) == c as int - '0' as int
  {
    var w := [c];
    assert SignLength(w) == 0 && w[0..] == w && w[..0] == [];
    assert DecimalValue(w) == DigitOf(c);
  }

  /**
   * POST /. Checked in order: the validators, then an unused email. The new
   * row gets the next id and `NewRow`; `hashed` stands for the bcrypt hash
   * of the password.
   */
  method CreateUser(table: UserTable, form: NewUser, emailValid: bool, hashed: string) returns (reply: Reply)
    requires table.Valid()
    modifies table
    ensures table.Valid()
    ensures CreateErrors(form, emailValid) != [] ==> reply == Failure(400, CreateErrors(form, emailValid))
    ensures CreateErrors(form, emailValid) == [] && EmailTaken(old(table.rows), form.email) ==>
              reply == Failure(400, ["Email already exists"])
    ensures reply.Failure? ==> table.rows == old(table.rows) && table.nextId == old(table.nextId)
    ensures reply.Success? ==>
              var id := old(table.nextId);
              && id !in old(table.rows)
              && table.rows == old(table.rows)[id := NewRow(form, hashed).(id := id)]
              && reply == Success(201, "User created successfully", Some(Public(table.rows[id])))
    ensures AdminCount(table.rows) >= AdminCount(old(table.rows))
  {
    var errors := CreateErrors(form, emailValid);
    if errors != [] {
      return Failure(400, errors);
    }
    if EmailTaken(table.rows, form.email) {
      return Failure(400, ["Email already exists"]);
    }
    var row := NewRow(form, hashed);
    AdminsAfterInsert(table.rows, table.nextId, row.(id := table.nextId));
    var id := table.Create(row);
    reply := Success(201, "User created successfully", Some(Public(table.rows[id])));
  }

  // ------------------------------------------------------------ PUT /:id

  /**
   * The body of an update request: each field is absent or the value
   * supplied. `phone` may be supplied as null.
   */
  datatype Patch = Patch(
    name: Option<string>,
    email: Option<string>,
    password: Option<string>,
    role: Option<string>,
    companyId: Option<JsonValue>,
    phone: Option<Option<string>>,
    language: Option<string>,
    lessonLevel: Option<int>)

  /** The validator messages of an update request; only the fields supplied are checked. */
  function UpdateErrors(patch: Patch, emailValid: bool): (errors: seq<string>)
    ensures errors == [] <==>
              && patch.name != Some("")
              && (patch.email.Some? ==> emailValid)
              && (patch.password.Some? ==> |patch.password.value| >= 6)
              && ValidRole(patch.role)
              && ValidCompanyId(patch.companyId)
  {
    Check(patch.name == Some(""), "Name cannot be empty")
    + Check(patch.email.Some? && !emailValid, "Valid email required")
    + Check(patch.password.Some? && |patch.password.value| < 6, "Password must be at least 6 characters")
    + Check(!ValidRole(patch.role), "Invalid role")
    + Check(!ValidCompanyId(patch.companyId), "Invalid company ID")
  }

  function Pick<T>(supplied: Option<T>, current: T): T
  {
    if supplied.Some? then supplied.value else current
  }

  /**
   * `user.update({ ...req.body })` with the password replaced by its hash
   * when one is supplied (`hashed` stands for that hash), and a supplied
   * company id stored as the column's integer.
   */
  function Patched(u: User, patch: Patch, hashed: string): User
    requires ValidCompanyId(patch.companyId)
  {
    User(u.id,
         Pick(patch.name, u.name),
         Pick(patch.email, u.email),
         if patch.password.None? then u.password else if patch.password.value != "" then hashed else "",
         Pick(patch.role, u.role),
         if patch.companyId.Some? then Some(ColumnInt(patch.companyId.value)) else u.companyId,
         Pick(patch.phone, u.phone),
         Pick(patch.language, u.language),
         Pick(patch.lessonLevel, u.lessonLevel))
  }

  /**
   * A valid update stores the hash exactly when a password is supplied and
   * keeps the stored password otherwise; every other supplied field is
   * copied as given and every field not supplied is kept.
   */
  lemma PatchedFields(u: User, patch: Patch, emailValid: bool, hashed: string)
    requires UpdateErrors(patch, emailValid) == []
    ensures var v := Patched(u, patch, hashed);
            && v.id == u.id
            && (v.password == if patch.password.Some? then hashed else u.password)
            && (patch.name.Some? ==> v.name == patch.name.value) && (patch.name.None? ==> v.name == u.name)
            && (patch.email.Some? ==> v.email == patch.email.value) && (patch.email.None? ==> v.email == u.email)
            && (patch.role.Some? ==> v.role == patch.role.value) && (patch.role.None? ==> v.role == u.role)
            && (patch.phone.Some? ==> v.phone == patch.phone.value) && (patch.phone.None? ==> v.phone == u.phone)
            && (patch.companyId.Some? ==> v.companyId == Some(ColumnInt(patch.companyId.value)))
            && (patch.companyId.None? ==> v.companyId == u.companyId)
  {
    if patch.password.Some? {
      assert |patch.password.value| >= 6;
    }
  }

  /**
   * PUT /:id, as written. Checked in order: the validators, the user
   * exists, then the unique email constraint while saving. Nothing stops
   * the update from taking the admin role from the last admin.
   */
  method UpdateUser(table: UserTable, id: int, patch: Patch, emailValid: bool, hashed: string) returns (reply: Reply)
    requires table.Valid()
    modifies table
    ensures table.Valid() && table.nextId == old(table.nextId)
    ensures UpdateErrors(patch, emailValid) != [] ==> reply == Failure(400, UpdateErrors(patch, emailValid))
    ensures UpdateErrors(patch, emailValid) == [] && id !in old(table.rows) ==> reply == Failure(404, ["User not found"])
    ensures reply.Failure? ==> table.rows == old(table.rows)
    ensures reply.Success? ==>
              && id in old(table.rows)
              && table.rows == old(table.rows)[id := Patched(old(table.rows)[id], patch, hashed)]
              && reply == Success(200, "User updated successfully", Some(Public(table.rows[id])))
    ensures UpdateErrors(patch, emailValid) == [] && id in old(table.rows) ==>
              (reply.Success? <==> !EmailTakenByOther(old(table.rows), Pick(patch.email, old(table.rows)[id].email), id))
  {
    var errors := UpdateErrors(patch, emailValid);
    if errors != [] {
      return Failure(400, errors);
    }
    if id !in table.rows {
      return Failure(404, ["User not found"]);
    }
    var row := Patched(table.rows[id], patch, hashed);
    var saved := table.Save(row);
    if !saved {
      return Failure(400, ["Email already exists"]);
    }
    reply := Success(200, "User updated successfully", Some(Public(table.rows[id])));
  }

  /**
   * The update as written can leave the table without an admin: the only
   * admin, updated with role 'user', passes every check.
   */
  lemma UpdateCanRemoveLastAdmin()
    ensures var u := User(1, "Admin", "admin@example.com", "h", "admin", None, None, "cs", 0);
            var rows := map[1 := u];
            var patch := Patch(None, None, None, Some("user"), None, None, None, None);
            && UpdateErrors(patch, true) == []
            && !EmailTakenByOther(rows, Pick(patch.email, u.email), 1)
            && AdminCount(rows) == 1
            && AdminCount(rows[1 := Patched(u, patch, "")]) == 0
  {
    var u := User(1, "Admin", "admin@example.com", "h", "admin", None, None, "cs", 0);
    var rows := map[1 := u];
    var patch := Patch(None, None, None, Some("user"), None, None, None, None);
    AdminsAfterReplace(rows, 1, Patched(u, patch, ""));
    assert AdminIds(rows) == {1};
  }

  /**
   * PUT /:id with the last-admin guard the delete route and the role-change
   * route of the user management apply: an admin who would lose the role
   * while being the last admin is refused, so an update never takes the
   * table from having an admin to having none.
   */
  method UpdateUserKeepingAdmin(table: UserTable, id: int, patch: Patch, emailValid: bool, hashed: string)
    returns (reply: Reply)
    requires table.Valid()
    modifies table
    ensures table.Valid() && table.nextId == old(table.nextId)
    ensures UpdateErrors(patch, emailValid) != [] ==> reply == Failure(400, UpdateErrors(patch, emailValid))
    ensures UpdateErrors(patch, emailValid) == [] && id !in old(table.rows) ==> reply == Failure(404, ["User not found"])
    ensures reply.Failure? ==> table.rows == old(table.rows)
    ensures reply.Success? ==>
              && id in old(table.rows)
              && table.rows == old(table.rows)[id := Patched(old(table.rows)[id], patch, hashed)]
    ensures AdminCount(old(table.rows)) >= 1 ==> AdminCount(table.rows) >= 1
  {
    var errors := UpdateErrors(patch, emailValid);
    if errors != [] {
      return Failure(400, errors);
    }
    if id !in table.rows {
      return Failure(404, ["User not found"]);
    }
    var row := Patched(table.rows[id], patch, hashed);
    if table.rows[id].role == Admin && row.role != Admin && AdminCount(table.rows) <= 1 {
      return Failure(400, ["Cannot change role of the last admin user"]);
    }
    AdminsAfterReplace(table.rows, id, row);
    var saved := table.Save(row);
    if !saved {
      return Failure(400, ["Email already exists"]);
    }
    reply := Success(200, "User updated successfully", Some(Public(table.rows[id])));
  }

  // ------------------------------------------------------------ DELETE /:id

  /**
   * DELETE /:id. `sessions` and `attempts` are the numbers of the user's
   * test sessions and attempts; `force` is the query parameter. Checked in
   * order: the user exists, it is not the last admin, and it has no related
   * records unless `force` is 'true'. The last-admin refusal wins over the
   * related-records refusal, and a forced deletion says so.
   */
  method DeleteUser(table: UserTable, id: int, sessions: nat, attempts: nat, force: Option<string>)
    returns (reply: Reply)
    requires table.Valid()
    modifies table
    ensures table.Valid() && table.nextId == old(table.nextId)
    ensures id !in old(table.rows) ==> reply == Failure(404, ["User not found"])
    ensures id in old(table.rows) && old(table.rows)[id].role == Admin && AdminCount(old(table.rows)) <= 1 ==>
              reply == Failure(400, ["Cannot delete the last admin user"])
    ensures reply.Failure? ==> table.rows == old(table.rows)
    ensures reply.Success? ==>
              && id in old(table.rows)
              && (sessions + attempts == 0 || force == Some("true"))
              && table.rows == old(table.rows) - {id}
              && reply.message == "User deleted successfully" + (if force == Some("true") then " (forced)" else "")
    ensures id in old(table.rows) && sessions + attempts > 0 && force != Some("true") ==> reply.Failure?
    ensures AdminCount(old(table.rows)) >= 1 ==> AdminCount(table.rows) >= 1
  {
    if id !in table.rows {
      return Failure(404, ["User not found"]);
    }
    if table.rows[id].role == Admin {
      var adminCount := AdminCount(table.rows);
      if adminCount <= 1 {
        return Failure(400, ["Cannot delete the last admin user"]);
      }
    }
    var hasRelations := sessions > 0 || attempts > 0;
    if hasRelations && force != Some("true") {
      return Failure(400, ["User has related data. Use force=true to delete anyway."]);
    }
    AdminsAfterRemoval(table.rows, id);
    table.Destroy(id);
    reply := Success(200, "User deleted successfully" + (if force == Some("true") then " (forced)" else ""), None);
  }

  // ------------------------------------------------------------ POST /:id/call

  /** What the call endpoint returns about the user. */
  datatype CallTarget = CallTarget(id: int, name: string, phone: Option<string>)

  /** POST /:id/call: no call is placed; the user's id, name and phone are returned, or 404. */
  function CallUser(rows: map<int, User>, id: int): (r: Result<CallTarget>)
    ensures r.Ok? <==> id in rows
    ensures r.Ok? ==> r.value.id == id && r.value.name == rows[id].name && r.value.phone == rows[id].phone
  {
    if id !in rows then Err("User not found")
    else Ok(CallTarget(id, rows[id].name, rows[id].phone))
  }
}
