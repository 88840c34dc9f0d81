/**
 * The `users` table of the dashboard back end
 * (react-dashboard/backend/models/index.js) as the user routes see it: rows
 * keyed by primary key, an auto-increment counter and a unique email column,
 * together with what the routes share: the admin count they query before a
 * destructive change, the password-free view they return, their reply shape
 * and the paging arithmetic of their listings.
 */
module UserStore {
  import opened Wrappers
  import opened JsText

  /** A row of `users`; `lessonLevel` is the `current_lesson_level` column. */
  datatype User = User(
    id: int,
    name: string,
    email: string,
    password: string,
    role: string,
    companyId: Option<int>,
    phone: Option<string>,
    language: string,
    lessonLevel: int)

  /** Column defaults of the table definition. */
  const DefaultLanguage := "cs"
  const DefaultLessonLevel := 0

  /** A user as the routes return it: `attributes: { exclude: ['password'] }`. */
  datatype PublicUser = PublicUser(
    id: int,
    name: string,
    email: string,
    role: string,
    companyId: Option<int>,
    phone: Option<string>,
    language: string,
    lessonLevel: int)

  function Public(u: User): PublicUser
  {
    PublicUser(u.id, u.name, u.email, u.role, u.companyId, u.phone, u.language, u.lessonLevel)
  }

  /**
   * The returned view hides the password and nothing else: two rows look the
   * same exactly when they differ at most in their password.
   */
  lemma PublicHidesOnlyPassword(u: User, v: User)
    ensures Public(u) == Public(v) <==> u.(password := v.password) == v
  {
  }

  /**
   * What a handler sends: a success with its status, message and the user
   * it returns, or a refusal. A validation refusal lists every failed
   * check's message; any other refusal has a single message.
   */
  datatype Reply =
    | Success(status: nat, message: string, user: Option<PublicUser>)
    | Failure(status: nat, errors: seq<string>)

  // ------------------------------------------------------------ admins

  const Admin := "admin"

  /** The ids `User.count({ where: { role: 'admin' } })` counts. */
  function AdminIds(rows: map<int, User>): set<int>
  {
    set id | id in rows && rows[id].role == Admin
  }

  function AdminCount(rows: map<int, User>): nat
  {
    |AdminIds(rows)|
  }

  /** Removing a row takes one admin off the count exactly when it was an admin. */
  lemma AdminsAfterRemoval(rows: map<int, User>, id: int)
    requires id in rows
    ensures AdminCount(rows - {id}) == AdminCount(rows) - (if rows[id].role == Admin then 1 else 0)
  {
    assert AdminIds(rows - {id}) == AdminIds(rows) - {id};
  }

  /** Replacing a row changes the count by what the old and new rows contribute. */
  lemma AdminsAfterReplace(rows: map<int, User>, id: int, u: User)
    requires id in rows
    ensures AdminCount(rows[id := u]) ==
            AdminCount(rows) - (if rows[id].role == Admin then 1 else 0) + (if u.role == Admin then 1 else 0)
  {
    var without := AdminIds(rows) - {id};
    assert AdminIds(rows[id := u]) == if u.role == Admin then without + {id} else without;
  }

  /** Inserting a new row adds one to the count exactly when it is an admin. */
  lemma AdminsAfterInsert(rows: map<int, User>, id: int, u: User)
    requires id !in rows
    ensures AdminCount(rows[id := u]) == AdminCount(rows) + (if u.role == Admin then 1 else 0)
  {
    assert AdminIds(rows[id := u]) == if u.role == Admin then AdminIds(rows) + {id} else AdminIds(rows);
  }

  // ------------------------------------------------------------ emails

  /** `User.findOne({ where: { email } })` finds a row. */
  predicate EmailTaken(rows: map<int, User>, email: string)
  {
    exists id :: id in rows && rows[id].email == email
  }

  /** A row other than `self` holds `email`: the unique constraint would fail. */
  predicate EmailTakenByOther(rows: map<int, User>, email: string, self: int)
  {
    exists id :: id in rows && id != self && rows[id].email == email
  }

  predicate UniqueEmails(rows: map<int, User>)
  {
    forall a, b :: a in rows && b in rows && rows[a].email == rows[b].email ==> a == b
  }

  /** The table as the database keeps it. */
  class UserTable {
    var rows: map<int, User>
    /** The next value of the auto-increment id sequence. */
    var nextId: int

    /** Every row sits under its own id, below the sequence, and emails are unique. */
    predicate Valid()
      reads this
    {
      && (forall id :: id in rows ==> rows[id].id == id && id < nextId)
      && UniqueEmails(rows)
    }

    /** `User.create(row)`: the row gets the next id of the sequence. */
    method Create(row: User) returns (id: int)
      requires Valid() && !EmailTaken(rows, row.email)
      modifies this
      ensures Valid()
      ensures id == old(nextId) && id !in old(rows)
      ensures rows == old(rows)[id := row.(id := id)] && nextId == old(nextId) + 1
    {
      id := nextId;
      rows := rows[id := row.(id := id)];
      nextId := nextId + 1;
    }

    /**
     * `user.update(...)` of the row under `row.id`. The unique email
     * constraint refuses an email another row holds; then nothing changes.
     */
    method Save(row: User) returns (saved: bool)
      requires Valid() && row.id in rows
      modifies this
      ensures Valid() && nextId == old(nextId)
      ensures saved <==> !EmailTakenByOther(old(rows), row.email, row.id)
      ensures rows == if saved then old(rows)[row.id := row] else old(rows)
    {
      if EmailTakenByOther(rows, row.email, row.id) {
        saved := false;
      } else {
        rows := rows[row.id := row];
        saved := true;
      }
    }

    /** `user.destroy()`. */
    method Destroy(id: int)
      requires Valid()
      modifies this
      ensures Valid() && rows == old(rows) - {id} && nextId == old(nextId)
    {
      rows := rows - {id};
    }
  }

  /** One validator of a route: its message when the check fails. */
  function Check(failed: bool, message: string): (r: seq<string>)
    ensures |r| <= 1 && (r == [] <==> !failed)
  {
    if failed then [message] else []
  }

  /** `value || null` for an optional text: an empty text is stored as null. */
  function NullIfEmpty(s: Option<string>): Option<string>
  {
    if s == Some("") then None else s
  }

  // ------------------------------------------------------------ listings

  /** `parseInt(q) || d`: `None` is a missing or unparsable parameter, whose `parseInt` is NaN. */
  function IntParamOr(q: Option<int>, d: int): int
  {
    if q.None? || q.value == 0 then d else q.value
  }

  datatype Paging = Paging(page: int, limit: int, offset: int)

  /** `page`, `limit` and `offset = (page - 1) * limit` of a listing route. */
  function PagingOf(pageParam: Option<int>, limitParam: Option<int>): (p: Paging)
    ensures p.limit != 0
    ensures pageParam.None? ==> p.page == 1 && p.offset == 0
    ensures limitParam.None? ==> p.limit == 10
  {
    var page := IntParamOr(pageParam, 1);
    var limit := IntParamOr(limitParam, 10);
    Paging(page, limit, (page - 1) * limit)
  }

  /** `Math.ceil(count / limit)`. */
  function TotalPages(count: nat, limit: int): int
    requires limit != 0
  {
    CeilDiv(count, limit)
  }

  /** The rows `LIMIT limit OFFSET offset` keeps of a query's result. */
  function PageRows<T>(matching: seq<T>, offset: nat, limit: nat): (r: seq<T>)
    ensures |r| <= limit
    ensures offset < |matching| && limit > 0 ==> |r| > 0
    ensures forall k :: 0 <= k < |r| ==> offset + k < |matching| && r[k] == matching[offset + k]
  {
    if |matching| <= offset then []
    else if |matching| - offset <= limit then matching[offset..]
    else matching[offset..offset + limit]
  }

  /** Pages 1 to `n` of a result, one after the other. */
  function FirstPages<T>(matching: seq<T>, limit: nat, n: nat): seq<T>
  {
    if n == 0 then [] else FirstPages(matching, limit, n - 1) + PageRows(matching, (n - 1) * limit, limit)
  }

  function Min(a: int, b: int): int
  {
    if a <= b then a else b
  }

  lemma {:induction false} FirstPagesArePrefix<T>(matching: seq<T>, limit: nat, n: nat)
    requires limit > 0
    ensures FirstPages(matching, limit, n) == matching[..Min(n * limit, |matching|)]
  {
    if n > 0 {
      FirstPagesArePrefix(matching, limit, n - 1);
      var start := (n - 1) * limit;
      assert n * limit == start + limit;
      var prev := matching[..Min(start, |matching|)];
      var page := PageRows(matching, start, limit);
      assert FirstPages(matching, limit, n) == prev + page;
      if |matching| <= start {
        assert page == [];
      } else {
        assert prev + page == matching[..Min(n * limit, |matching|)];
      }
    }
  }

  /**
   * `totalPages` pages hold the whole result, each at most `limit` rows, and
   * the last of them is not empty: no row is skipped or shown twice and no
   * page past the end is announced.
   */
  lemma PagesCoverResult<T>(matching: seq<T>, limit: nat)
    requires limit > 0
    ensures var n := TotalPages(|matching|, limit);
            && n >= 0
            && FirstPages(matching, limit, n) == matching
            && (n > 0 ==> |PageRows(matching, (n - 1) * limit, limit)| > 0)
  {
    var n := TotalPages(|matching|, limit);
    assert (n - 1) * limit < |matching| <= n * limit;
    assert n >= 0;
    FirstPagesArePrefix(matching, limit, n);
  }

  /** With a non-zero limit, the offset and the limit are both non-negative exactly for pages from 1 on. */
  lemma OffsetSign(page: int, limit: int)
    requires limit != 0
    ensures (page - 1) * limit >= 0 && limit >= 0 <==> page >= 1 && limit > 0
  {
    if limit > 0 && page < 1 {
      assert (page - 1) * limit <= -limit;
    }
    if limit < 0 && page > 1 {
      assert (page - 1) * limit <= limit;
    }
  }

  /** One page of a listing route's reply. */
  datatype Listing = Listing(users: seq<PublicUser>, totalUsers: nat, totalPages: int, currentPage: int)

  function PublicAll(rows: seq<User>): (r: seq<PublicUser>)
    ensures |r| == |rows| && forall k :: 0 <= k < |r| ==> r[k] == Public(rows[k])
  {
    seq(|rows|, k requires 0 <= k < |rows| => Public(rows[k]))
  }

  /**
   * The reply of a listing route whose query matched `matching`, in the
   * order of its `ORDER BY`. A page or limit that makes the offset or the
   * limit negative is refused by the database, and the route answers with
   * its 500 error `failure`.
   */
  function ListingOf(matching: seq<User>, pageParam: Option<int>, limitParam: Option<int>, failure: string): (r: Result<Listing>)
    ensures var p := PagingOf(pageParam, limitParam);
            (r.Ok? <==> p.page >= 1 && p.limit > 0) && (r.Err? ==> r.error == failure)
  {
    var p := PagingOf(pageParam, limitParam);
    OffsetSign(p.page, p.limit);
    if p.offset < 0 || p.limit < 0 then Err(failure)
    else Ok(Listing(PublicAll(PageRows(matching, p.offset, p.limit)), |matching|, TotalPages(|matching|, p.limit), p.page))
  }

  /**
   * A listing shows the page's rows of the query result in order, without
   * their passwords, at most `limit` of them, and counts the whole result.
   */
  lemma ListedPage(matching: seq<User>, pageParam: Option<int>, limitParam: Option<int>, failure: string)
    ensures var r, p := ListingOf(matching, pageParam, limitParam, failure), PagingOf(pageParam, limitParam);
            r.Ok? ==>
              && r.value.totalUsers == |matching|
              && r.value.currentPage == p.page
              && r.value.totalPages == TotalPages(|matching|, p.limit)
              && |r.value.users| <= p.limit
              && forall k :: 0 <= k < |r.value.users| ==>
                   p.offset + k < |matching| && r.value.users[k] == Public(matching[p.offset + k])
  {
  }

  /** `name ILIKE '%search%' OR email ILIKE '%search%'`. */
  predicate SearchMatches(u: User, search: string)
  {
    Contains(Lower(u.name), Lower(search)) || Contains(Lower(u.email), Lower(search))
  }
}
