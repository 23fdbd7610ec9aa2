/**
 * The user directory: the `User` table, `GET /api/users` (search, role
 * filter, ordering, paging) and `POST /api/users` (username uniqueness,
 * password hashing, password-free response).
 *
 * The table is a sequence of rows in insertion order. The bcrypt hash of
 * the submitted password is passed in (`hashed`), as are the new row's id
 * and the creation time.
 */
module UsersApi {
  import opened JsText
  import Sorting

  datatype Role = ADMIN | MANAGER | TRAINER | STUDENT

  datatype Language = KYRGYZ | RUSSIAN

  /** A row of the user table; `password` holds the bcrypt hash, times are in milliseconds. */
  datatype User = User(
    id: int,
    fullname: string,
    username: string,
    password: string,
    phoneNumber: Option<string>,
    telegramId: Option<string>,
    points: int,
    role: Role,
    language: Language,
    avatarUrl: Option<string>,
    createdAt: int,
    updatedAt: int)

  /**
   * The scalar columns GET and POST select (GET also loads the `subjects`
   * relation, which this model leaves out). There is no password field, so
   * no response can carry one.
   */
  datatype PublicUser = PublicUser(
    id: int,
    fullname: string,
    username: string,
    phoneNumber: Option<string>,
    telegramId: Option<string>,
    points: int,
    role: Role,
    avatarUrl: Option<string>,
    createdAt: int,
    updatedAt: int)

  function Public(u: User): PublicUser {
    PublicUser(u.id, u.fullname, u.username, u.phoneNumber, u.telegramId, u.points,
               u.role, u.avatarUrl, u.createdAt, u.updatedAt)
  }

  function RoleName(r: Role): string {
    match r
    case ADMIN => "ADMIN"
    case MANAGER => "MANAGER"
    case TRAINER => "TRAINER"
    case STUDENT => "STUDENT"
  }

  /** The enum value a query string names, if any. */
  function ParseRole(s: string): (r: Option<Role>)
    ensures r.Some? ==> RoleName(r.value) == s
    ensures r.None? ==> forall role: Role :: RoleName(role) != s
  {
    if s == "ADMIN" then Some(ADMIN)
    else if s == "MANAGER" then Some(MANAGER)
    else if s == "TRAINER" then Some(TRAINER)
    else if s == "STUDENT" then Some(STUDENT)
    else None
  }

  // ---------------------------------------------------------------------------
  // GET /api/users

  /** The query string: each parameter absent (None) or its text. */
  datatype UserQuery = UserQuery(
    search: Option<string>,
    role: Option<string>,
    sortBy: Option<string>,
    page: Option<string>,
    limit: Option<string>)

  /** `searchParams.get(p) || fallback`: an absent or empty parameter gives the fallback. */
  function ParamOr(p: Option<string>, fallback: string): string {
    if p.Some? && p.value != "" then p.value else fallback
  }

  function PageOf(q: UserQuery): Option<int> { JsParseInt(ParamOr(q.page, "1")) }

  function LimitOf(q: UserQuery): Option<int> { JsParseInt(ParamOr(q.limit, "10")) }

  /** page and limit read as positive numbers (NaN and non-positive values are outside the model). */
  predicate NumericPaging(q: UserQuery) {
    && PageOf(q).Some? && PageOf(q).value >= 1
    && LimitOf(q).Some? && LimitOf(q).value >= 1
  }

  datatype RoleFilter = AnyRole | OnlyRole(role: Role) | UnknownRole

  /** `role ? { role } : {}`; a name outside the enum is refused by the database layer. */
  function RoleFilterOf(q: UserQuery): RoleFilter {
    var name := ParamOr(q.role, "");
    if name == "" then AnyRole
    else match ParseRole(name)
      case Some(r) => OnlyRole(r)
      case None => UnknownRole
  }

  /** The `where` clause: case-insensitive substring of fullname or username, and the role. */
  predicate Matches(u: User, search: string, filter: RoleFilter) {
    && (search == "" || Includes(Lower(u.fullname), Lower(search)) || Includes(Lower(u.username), Lower(search)))
    && (filter.OnlyRole? ==> u.role == filter.role)
  }

  /** The matching rows in table order, each as often as the table holds it. */
  function Matching(table: seq<User>, search: string, filter: RoleFilter): (r: seq<User>)
    ensures forall u :: u in r <==> u in table && Matches(u, search, filter)
    ensures forall u :: multiset(r)[u] == if Matches(u, search, filter) then multiset(table)[u] else 0
    ensures |r| <= |table|
  {
    if table == [] then []
    else
      var rest := Matching(table[1..], search, filter);
      assert table == [table[0]] + table[1..];
      assert forall u :: u in table <==> u == table[0] || u in table[1..];
      if Matches(table[0], search, filter) then [table[0]] + rest else rest
  }

  /** Matching keeps table order: the rows of a concatenation are the rows of each part, in turn. */
  lemma {:induction false} MatchingConcat(a: seq<User>, b: seq<User>, search: string, filter: RoleFilter)
    ensures Matching(a + b, search, filter) == Matching(a, search, filter) + Matching(b, search, filter)
  {
    SplitHead(a, b);
    if a != [] {
      MatchingConcat(a[1..], b, search, filter);
      MatchingConsStep(a[0], a[1..], b, search, filter);
    }
  }

  /** One step of the induction: putting a row in front of both sides keeps the equation. */
  lemma MatchingConsStep(x: User, t: seq<User>, b: seq<User>, search: string, filter: RoleFilter)
    requires Matching(t + b, search, filter) == Matching(t, search, filter) + Matching(b, search, filter)
    ensures Matching([x] + t + b, search, filter) == Matching([x] + t, search, filter) + Matching(b, search, filter)
  {
    var head := if Matches(x, search, filter) then [x] else [];
    var mt, mb := Matching(t, search, filter), Matching(b, search, filter);
    ConsParts(x, t, b);
    assert Matching([x] + t + b, search, filter) == head + (mt + mb);
    assert Matching([x] + t, search, filter) == head + mt;
    AppendAssociative(head, mt, mb);
  }

  lemma SplitHead(a: seq<User>, b: seq<User>)
    ensures a == [] ==> a + b == b
    ensures a != [] ==> a == [a[0]] + a[1..] && a + b == [a[0]] + a[1..] + b
  {
  }

  lemma ConsParts(x: User, t: seq<User>, b: seq<User>)
    ensures ([x] + t + b)[0] == x && ([x] + t + b)[1..] == t + b
    ensures ([x] + t)[0] == x && ([x] + t)[1..] == t
  {
  }

  lemma AppendAssociative(x: seq<User>, y: seq<User>, z: seq<User>)
    ensures x + (y + z) == (x + y) + z
  {
  }

  datatype SortOrder = PointsAsc | PointsDesc | FullnameAsc | FullnameDesc | CreatedAtDesc

  /** The `switch (sortBy)`: the four known names, anything else newest first. */
  function OrderOf(sortBy: Option<string>): SortOrder {
    var s := ParamOr(sortBy, "");
    if s == "points_asc" then PointsAsc
    else if s == "points_desc" then PointsDesc
    else if s == "fullname_asc" then FullnameAsc
    else if s == "fullname_desc" then FullnameDesc
    else CreatedAtDesc
  }

  /** Code-point lexicographic order on strings. */
  predicate LexLe(a: string, b: string) {
    a == [] || (b != [] && (a[0] < b[0] || (a[0] == b[0] && LexLe(a[1..], b[1..]))))
  }

  lemma {:induction false} LexLeTotal(a: string, b: string)
    ensures LexLe(a, b) || LexLe(b, a)
  {
    if a != [] && b != [] && a[0] == b[0] {
      LexLeTotal(a[1..], b[1..]);
    }
  }

  lemma {:induction false} LexLeTransitive(a: string, b: string, c: string)
    requires LexLe(a, b) && LexLe(b, c)
    ensures LexLe(a, c)
  {
    if a != [] && a[0] == b[0] && b[0] == c[0] {
      LexLeTransitive(a[1..], b[1..], c[1..]);
    }
  }

  /** "a may come before b" under an ordering. */
  function Precedes(order: SortOrder): (User, User) -> bool {
    match order
    case PointsAsc => (a: User, b: User) => a.points <= b.points
    case PointsDesc => (a: User, b: User) => a.points >= b.points
    case FullnameAsc => (a: User, b: User) => LexLe(a.fullname, b.fullname)
    case FullnameDesc => (a: User, b: User) => LexLe(b.fullname, a.fullname)
    case CreatedAtDesc => (a: User, b: User) => a.createdAt >= b.createdAt
  }

  lemma PrecedesIsTotalPreorder(order: SortOrder)
    ensures Sorting.TotalPreorder(Precedes(order))
  {
    var le := Precedes(order);
    if order == FullnameAsc || order == FullnameDesc {
      forall a: User, b: User ensures le(a, b) || le(b, a) {
        LexLeTotal(a.fullname, b.fullname);
      }
      forall a: User, b: User, c: User | le(a, b) && le(b, c) ensures le(a, c) {
        if order == FullnameAsc {
          LexLeTransitive(a.fullname, b.fullname, c.fullname);
        } else {
          LexLeTransitive(c.fullname, b.fullname, a.fullname);
        }
      }
    }
  }

  /** All matching rows in response order. */
  function Ordered(table: seq<User>, q: UserQuery): seq<User>
  {
    Sorting.Sort(Matching(table, ParamOr(q.search, ""), RoleFilterOf(q)), Precedes(OrderOf(q.sortBy)))
  }

  /** `Math.ceil(total / limit)`. */
  function CeilDiv(total: nat, limit: int): (pages: nat)
    requires limit >= 1
    ensures pages * limit >= total
    ensures pages == 0 || (pages - 1) * limit < total
  {
    var p := (total + limit - 1) / limit;
    assert p * limit + (total + limit - 1) % limit == total + limit - 1;
    p
  }

  datatype Pagination = Pagination(total: int, pages: int, page: int, limit: int)

  datatype ListResponse =
    | UserList(users: seq<PublicUser>, pagination: Pagination)
    | ListError(status: int, error: string)

  function Min(a: int, b: int): int { if a <= b then a else b }

  /** `skip = (page - 1) * limit`. */
  function Skip(page: int, limit: int): (skip: int)
    requires page >= 1 && limit >= 1
    ensures skip >= 0
  {
    MulMonotone(0, page - 1, limit);
    (page - 1) * limit
  }

  /** `skip` and `take` on the ordered rows, each row stripped of its password. */
  function PageSlice(rows: seq<User>, page: int, limit: int): (users: seq<PublicUser>)
    requires page >= 1 && limit >= 1
    ensures var skip := Skip(page, limit);
      && |users| == Min(limit, if skip <= |rows| then |rows| - skip else 0)
      && forall i :: 0 <= i < |users| ==> users[i] == Public(rows[skip + i])
  {
    var skip := Skip(page, limit);
    var size := Min(limit, if skip <= |rows| then |rows| - skip else 0);
    seq(size, i requires 0 <= i < size => Public(rows[skip + i]))
  }

  /**
   * GET /api/users. The table is `None` when `count` or `findMany` fails,
   * which gives 500, as a role name outside the enum does. The page holds the matching rows from index
   * `skip = (page - 1) * limit` on, at most `limit` of them; `total` counts
   * every matching row.
   */
  function ListUsers(db: Option<seq<User>>, q: UserQuery): (r: ListResponse)
    requires NumericPaging(q)
    ensures r.ListError? <==> db.None? || RoleFilterOf(q) == UnknownRole
    ensures r.ListError? ==> r.status == 500 && r.error == "Failed to fetch users"
    ensures r.UserList? ==>
      var rows := Ordered(db.value, q);
      && r.pagination == Pagination(|rows|, CeilDiv(|rows|, LimitOf(q).value), PageOf(q).value, LimitOf(q).value)
      && r.users == PageSlice(rows, PageOf(q).value, LimitOf(q).value)
  {
    var page, limit := PageOf(q).value, LimitOf(q).value;
    if db.None? || RoleFilterOf(q) == UnknownRole then
      ListError(500, "Failed to fetch users")
    else
      var rows := Ordered(db.value, q);
      UserList(PageSlice(rows, page, limit), Pagination(|rows|, CeilDiv(|rows|, limit), page, limit))
  }

  /** The response rows are exactly the matching rows, each once, ordered by the requested column. */
  lemma OrderedIsSortedMatches(table: seq<User>, q: UserQuery)
    ensures var rows := Ordered(table, q);
      && Sorting.Sorted(rows, Precedes(OrderOf(q.sortBy)))
      && multiset(rows) == multiset(Matching(table, ParamOr(q.search, ""), RoleFilterOf(q)))
      && forall u :: u in rows <==> u in table && Matches(u, ParamOr(q.search, ""), RoleFilterOf(q))
  {
    var m := Matching(table, ParamOr(q.search, ""), RoleFilterOf(q));
    PrecedesIsTotalPreorder(OrderOf(q.sortBy));
    Sorting.SortSorted(m, Precedes(OrderOf(q.sortBy)));
    var rows := Ordered(table, q);
    forall u ensures u in rows <==> u in m {
      assert u in rows <==> u in multiset(rows);
      assert u in m <==> u in multiset(m);
    }
  }

  /** Any unknown or missing sortBy falls back to newest first. */
  lemma DefaultOrderIsNewestFirst(sortBy: Option<string>)
    requires ParamOr(sortBy, "") !in {"points_asc", "points_desc", "fullname_asc", "fullname_desc"}
    ensures OrderOf(sortBy) == CreatedAtDesc
    ensures forall a: User, b: User :: Precedes(OrderOf(sortBy))(a, b) <==> a.createdAt >= b.createdAt
  {
  }

  lemma SliceHoldsRow(rows: seq<User>, page: int, limit: int, row: nat)
    requires limit >= 1 && row < |rows| && page == row / limit + 1
    ensures var users := PageSlice(rows, page, limit);
      row % limit < |users| && users[row % limit] == Public(rows[row])
  {
    var skip := Skip(page, limit);
    assert skip == (row / limit) * limit;
    assert skip + row % limit == row;
  }

  lemma SliceNonEmptyIff(rows: seq<User>, page: int, limit: int)
    requires page >= 1 && limit >= 1
    ensures |PageSlice(rows, page, limit)| > 0 <==> page <= CeilDiv(|rows|, limit)
  {
    var pages := CeilDiv(|rows|, limit);
    var skip := Skip(page, limit);
    if page <= pages {
      MulMonotone(page - 1, pages - 1, limit);
    } else {
      MulMonotone(pages, page - 1, limit);
    }
  }

  /** Every matching row is on exactly the page `row / limit + 1`, at position `row % limit`. */
  lemma RowIsOnItsPage(table: seq<User>, q: UserQuery, row: nat)
    requires NumericPaging(q) && RoleFilterOf(q) != UnknownRole
    requires row < |Ordered(table, q)|
    requires PageOf(q).value == row / LimitOf(q).value + 1
    ensures var r := ListUsers(Some(table), q);
      r.UserList? && row % LimitOf(q).value < |r.users|
      && r.users[row % LimitOf(q).value] == Public(Ordered(table, q)[row])
  {
    var rows, page, limit := Ordered(table, q), PageOf(q).value, LimitOf(q).value;
    SliceHoldsRow(rows, page, limit, row);
    assert ListUsers(Some(table), q).users == PageSlice(rows, page, limit);
  }

  lemma MulMonotone(a: int, b: int, k: nat)
    requires a <= b
    ensures a * k <= b * k
  {
  }

  /** The pages 1..pages are all non-empty and every later page is empty. */
  lemma PagesBoundary(table: seq<User>, q: UserQuery)
    requires NumericPaging(q) && RoleFilterOf(q) != UnknownRole
    ensures var r := ListUsers(Some(table), q);
      r.UserList? && (|r.users| > 0 <==> PageOf(q).value <= r.pagination.pages)
  {
    SliceNonEmptyIff(Ordered(table, q), PageOf(q).value, LimitOf(q).value);
  }

  /** Fifteen matching users, ten per page: two pages, and the second holds five. */
  lemma FifteenUsersTwoPages(table: seq<User>, search: Option<string>, role: Option<string>, sortBy: Option<string>)
    requires |Matching(table, ParamOr(search, ""), RoleFilterOf(UserQuery(search, role, sortBy, None, None)))| == 15
    requires RoleFilterOf(UserQuery(search, role, sortBy, None, None)) != UnknownRole
    ensures var q := UserQuery(search, role, sortBy, Some("2"), Some("10"));
      NumericPaging(q) &&
      var r := ListUsers(Some(table), q);
      r.UserList? && r.pagination.total == 15 && r.pagination.pages == 2 && |r.users| == 5
  {
    var q := UserQuery(search, role, sortBy, Some("2"), Some("10"));
    SecondPageOfTen(q);
    OrderedLength(table, q);
    FifteenRowsTenPerPage(Ordered(table, q));
  }

  lemma SecondPageOfTen(q: UserQuery)
    requires q.page == Some("2") && q.limit == Some("10")
    ensures PageOf(q) == Some(2) && LimitOf(q) == Some(10)
  {
    DecimalTwo();
    DecimalTen();
  }

  lemma DecimalTwo()
    ensures JsParseInt("2") == Some(2)
  {
    ParseIntOfDecimal(2);
    assert IntToDecimal(2) == "2";
  }

  lemma DecimalTen()
    ensures JsParseInt("10") == Some(10)
  {
    ParseIntOfDecimal(10);
    assert IntToDecimal(10) == "10";
  }

  /** Sorting keeps every matching row: the total is the number of matches. */
  lemma OrderedLength(table: seq<User>, q: UserQuery)
    ensures |Ordered(table, q)| == |Matching(table, ParamOr(q.search, ""), RoleFilterOf(q))|
  {
  }

  lemma FifteenRowsTenPerPage(rows: seq<User>)
    requires |rows| == 15
    ensures CeilDiv(|rows|, 10) == 2 && |PageSlice(rows, 2, 10)| == 5
  {
    assert Skip(2, 10) == 10;
  }

  /** The total depends on the filter only: two queries that differ in page, limit or order count alike. */
  lemma TotalIgnoresPaging(table: seq<User>, q1: UserQuery, q2: UserQuery)
    requires NumericPaging(q1) && NumericPaging(q2)
    requires q1.search == q2.search && q1.role == q2.role
    ensures ListUsers(Some(table), q1).UserList? ==>
      ListUsers(Some(table), q1).pagination.total == ListUsers(Some(table), q2).pagination.total
  {
  }

  // ---------------------------------------------------------------------------
  // POST /api/users

  /** The JSON body the user form sends (the password may be absent). */
  datatype NewUser = NewUser(
    fullname: string,
    username: string,
    password: Option<string>,
    phoneNumber: Option<string>,
    telegramId: Option<string>,
    points: int,
    role: Role,
    language: Language,
    avatarUrl: Option<string>)

  datatype CreateResponse = CreatedUser(user: PublicUser) | CreateError(status: int, error: string)

  predicate UsernameTaken(table: seq<User>, name: string) {
    exists i :: 0 <= i < |table| && table[i].username == name
  }

  /** A present value of an optional unique column that some row already holds. */
  predicate OptionalTaken(table: seq<User>, value: Option<string>, column: User -> Option<string>) {
    value.Some? && exists i :: 0 <= i < |table| && column(table[i]) == value
  }

  function PhoneOf(u: User): Option<string> { u.phoneNumber }

  function TelegramOf(u: User): Option<string> { u.telegramId }

  /** The table's unique columns: id, username, and phoneNumber and telegramId where present. */
  ghost predicate UniqueColumns(table: seq<User>) {
    forall i, j :: 0 <= i < j < |table| ==>
      && table[i].id != table[j].id
      && table[i].username != table[j].username
      && (table[i].phoneNumber.Some? ==> table[i].phoneNumber != table[j].phoneNumber)
      && (table[i].telegramId.Some? ==> table[i].telegramId != table[j].telegramId)
  }

  const UsernameExistsMessage := "Username already exists"
  const CreateFailedMessage := "Failed to create user"

  /**
   * POST /api/users. The body is `None` when it is not JSON or has no
   * username (`findUnique` refuses an undefined unique key); that, and a
   * failing username lookup (`lookupFails`), give 500. A taken username is
   * refused with 400. A missing password makes hashing throw and a phone or
   * Telegram id collision makes the insert fail, both reported as 500.
   * Otherwise one row is appended holding the hash, never the submitted
   * password.
   */
  function CreateUser(table: seq<User>, body: Option<NewUser>, lookupFails: bool,
                      hashed: string, newId: int, now: int): (r: (seq<User>, CreateResponse))
    requires forall i :: 0 <= i < |table| ==> table[i].id != newId
    ensures r.1.CreateError? ==> r.0 == table
    ensures r.1.CreateError? ==>
      r.1 == CreateError(400, UsernameExistsMessage) || r.1 == CreateError(500, CreateFailedMessage)
    ensures body.None? || lookupFails ==> r.1 == CreateError(500, CreateFailedMessage)
    ensures r.1 == CreateError(400, UsernameExistsMessage) <==>
      body.Some? && !lookupFails && UsernameTaken(table, body.value.username)
    ensures r.1.CreatedUser? <==>
      && body.Some? && !lookupFails
      && !UsernameTaken(table, body.value.username) && body.value.password.Some?
      && !OptionalTaken(table, body.value.phoneNumber, PhoneOf)
      && !OptionalTaken(table, body.value.telegramId, TelegramOf)
    ensures r.1.CreatedUser? ==>
      && |r.0| == |table| + 1 && r.0[..|table|] == table
      && var b := body.value;
      && var row := r.0[|table|];
      && row.password == hashed && row.id == newId && row.username == b.username
      && row.fullname == b.fullname && row.phoneNumber == b.phoneNumber
      && row.telegramId == b.telegramId && row.role == b.role && row.points == b.points
      && row.language == b.language && row.avatarUrl == b.avatarUrl
      && row.createdAt == now && row.updatedAt == now
      && r.1.user == Public(row)
  {
    match body
    case None => (table, CreateError(500, CreateFailedMessage))
    case Some(b) =>
      if lookupFails then
        (table, CreateError(500, CreateFailedMessage))
      else if UsernameTaken(table, b.username) then
        (table, CreateError(400, UsernameExistsMessage))
      else if b.password.None?
           || OptionalTaken(table, b.phoneNumber, PhoneOf)
           || OptionalTaken(table, b.telegramId, TelegramOf) then
        (table, CreateError(500, CreateFailedMessage))
      else
        var row := User(newId, b.fullname, b.username, hashed, b.phoneNumber, b.telegramId,
                        b.points, b.role, b.language, b.avatarUrl, now, now);
        (table + [row], CreatedUser(Public(row)))
  }

  /** Creating a user keeps every unique column unique. */
  lemma CreateKeepsColumnsUnique(table: seq<User>, body: NewUser, hashed: string, newId: int, now: int)
    requires forall i :: 0 <= i < |table| ==> table[i].id != newId
    requires UniqueColumns(table)
    ensures UniqueColumns(CreateUser(table, Some(body), false, hashed, newId, now).0)
  {
    var r := CreateUser(table, Some(body), false, hashed, newId, now);
    if r.1.CreatedUser? {
      var t := r.0;
      forall i, j | 0 <= i < j < |t|
        ensures t[i].username != t[j].username
        ensures t[i].phoneNumber.Some? ==> t[i].phoneNumber != t[j].phoneNumber
        ensures t[i].telegramId.Some? ==> t[i].telegramId != t[j].telegramId
      {
        if j == |table| {
          assert t[i] == table[i];
          assert PhoneOf(table[i]) == table[i].phoneNumber;
          assert TelegramOf(table[i]) == table[i].telegramId;
        }
      }
    }
  }

  /** The same username submitted twice: the second request is refused and the table keeps one row for it. */
  lemma SecondCreateRefused(table: seq<User>, body: NewUser, hashed1: string, hashed2: string, id1: int, id2: int, now: int)
    requires forall i :: 0 <= i < |table| ==> table[i].id != id1 && table[i].id != id2
    requires id1 != id2
    requires CreateUser(table, Some(body), false, hashed1, id1, now).1.CreatedUser?
    ensures var t1 := CreateUser(table, Some(body), false, hashed1, id1, now).0;
      CreateUser(t1, Some(body), false, hashed2, id2, now) == (t1, CreateError(400, UsernameExistsMessage))
  {
    var t1 := CreateUser(table, Some(body), false, hashed1, id1, now).0;
    assert t1[|table|].username == body.username;
    assert UsernameTaken(t1, body.username);
  }
}
