/** `getallusers` (src/controllers/usersController.ts:6-89): the access
    guards, the paging parameters, the `where` object built by conditional
    assignment, the `findAndCountAll` query and the pagination metadata.
    The users table is a sequence of rows already in the order of
    `createdAt DESC`. The User model has no `name` and no `status` column,
    so a query whose `where` names either is refused by the database. */
module UsersController {
  import opened Common

  datatype UserRow = UserRow(id: string, email: string, role: Role)

  function RoleName(r: Role): string {
    match r
    case Admin => "admin"
    case User => "user"
  }

  /** The values of the `role` ENUM column. */
  predicate IsRoleValue(s: string) {
    s == "admin" || s == "user"
  }

  /** The query string: `page` and `limit` as `parseInt` reads them (None
      for a missing or non-numeric value), and the three filters, "" when
      absent. */
  datatype UsersQuery = UsersQuery(page: Option<int>, limit: Option<int>, search: string, role: string, status: string)

  datatype UsersError =
    | Unauthenticated  // 401
    | Forbidden        // 403
    | QueryFailed      // 500, the database refuses the query

  datatype UserPage = UserPage(users: seq<UserRow>, totalItems: nat, totalPages: nat, currentPage: int,
                               itemsPerPage: int, hasNext: bool, hasPrevious: bool)

  /** `parseInt(raw) || fallback`: a missing, non-numeric or zero value
      takes the fallback; any other number, negative ones included, is
      kept. */
  function PageParam(raw: Option<int>, fallback: int): (v: int)
    ensures raw.Some? && raw.value != 0 ==> v == raw.value
    ensures raw.None? || raw.value == 0 ==> v == fallback
  {
    if raw.Some? && raw.value != 0 then raw.value else fallback
  }

  // ---------------------------------------------------------------------
  // The where clause

  datatype WhereKey = AnyOf | RoleKey | StatusKey

  datatype WhereValue =
    | NameOrEmailLike(pattern: string)  // `[Op.or]` of two `iLike` conditions
    | Equals(value: string)

  /** Builds the `where` object one filter at a time; each key is set
      exactly when its query string is non-empty. */
  method BuildWhere(search: string, role: string, status: string) returns (where: map<WhereKey, WhereValue>)
    ensures AnyOf in where <==> search != ""
    ensures RoleKey in where <==> role != ""
    ensures StatusKey in where <==> status != ""
    ensures AnyOf in where ==> where[AnyOf] == NameOrEmailLike("%" + search + "%")
    ensures RoleKey in where ==> where[RoleKey] == Equals(role)
    ensures StatusKey in where ==> where[StatusKey] == Equals(status)
  {
    where := map[];
    if search != "" {
      where := where[AnyOf := NameOrEmailLike("%" + search + "%")];
    }
    if role != "" {
      where := where[RoleKey := Equals(role)];
    }
    if status != "" {
      where := where[StatusKey := Equals(status)];
    }
  }

  // ---------------------------------------------------------------------
  // The query

  /** Whether a role filter (None: no filter) keeps a row. */
  predicate Kept(u: UserRow, role: Option<string>) {
    role.None? || RoleName(u.role) == role.value
  }

  /** The rows a role filter keeps, in table order. */
  function WithRole(table: seq<UserRow>, role: Option<string>): (rows: seq<UserRow>)
    ensures |rows| <= |table|
    ensures role.None? ==> rows == table
    ensures forall u :: u in rows <==> u in table && Kept(u, role)
  {
    if table == [] then []
    else
      var rest := WithRole(table[1..], role);
      assert forall u :: u in table <==> u == table[0] || u in table[1..];
      if Kept(table[0], role) then [table[0]] + rest else rest
  }

  /** The filter keeps each kept row as often as the table holds it, and
      no other row. */
  lemma {:induction false} WithRoleCounts(table: seq<UserRow>, role: Option<string>, u: UserRow)
    ensures multiset(WithRole(table, role))[u] == if Kept(u, role) then multiset(table)[u] else 0
  {
    if table != [] {
      assert table == [table[0]] + table[1..];
      WithRoleCounts(table[1..], role, u);
    }
  }

  /** The filter keeps the table's order: filtering a concatenation is
      concatenating the filtered parts, so a kept row precedes another
      in the result exactly when it does in the table. */
  lemma {:induction false} WithRoleAppend(a: seq<UserRow>, b: seq<UserRow>, role: Option<string>)
    ensures WithRole(a + b, role) == WithRole(a, role) + WithRole(b, role)
  {
    if a == [] {
      assert a + b == b;
    } else {
      assert (a + b)[0] == a[0];
      assert (a + b)[1..] == a[1..] + b;
      WithRoleAppend(a[1..], b, role);
    }
  }

  /** `limit` rows from `offset` on, fewer at the end of the list. */
  function Window(xs: seq<UserRow>, offset: nat, limit: nat): (w: seq<UserRow>)
    ensures |w| == if offset >= |xs| then 0 else Min(limit, |xs| - offset)
    ensures forall i :: 0 <= i < |w| ==> w[i] == xs[offset + i]
  {
    if offset >= |xs| then [] else xs[offset..offset + Min(limit, |xs| - offset)]
  }

  /** `User.findAndCountAll`: the number of matching rows and the window
      the limit and offset select. A `name` or `status` condition names a
      column the table does not have, a role outside the ENUM is not a
      value of the column, and a negative limit or offset is not a valid
      query; each is refused. */
  function FindAndCountAll(table: seq<UserRow>, where: map<WhereKey, WhereValue>, limit: int, offset: int)
    : (r: Result<(nat, seq<UserRow>), UsersError>)
    ensures r.Ok? <==> && AnyOf !in where && StatusKey !in where
                       && (RoleKey in where ==> where[RoleKey].Equals? && IsRoleValue(where[RoleKey].value))
                       && limit >= 0 && offset >= 0
    ensures r.Err? ==> r.error == QueryFailed
    ensures r.Ok? ==>
              var rows := WithRole(table, if RoleKey in where then Some(where[RoleKey].value) else None);
              r.value == (|rows|, Window(rows, offset, limit))
  {
    if AnyOf in where || StatusKey in where then Err(QueryFailed)
    else if RoleKey in where && !(where[RoleKey].Equals? && IsRoleValue(where[RoleKey].value)) then Err(QueryFailed)
    else if limit < 0 || offset < 0 then Err(QueryFailed)
    else
      var rows := WithRole(table, if RoleKey in where then Some(where[RoleKey].value) else None);
      Ok((|rows|, Window(rows, offset, limit)))
  }

  // ---------------------------------------------------------------------
  // The handler

  /** `getallusers`. The guards come before any query: no requester is
      401 and a borrower is 403, whatever the query and the table. */
  method GetAllUsers(requester: Option<Role>, q: UsersQuery, table: seq<UserRow>) returns (r: Result<UserPage, UsersError>)
    ensures requester.None? ==> r == Err(Unauthenticated)
    ensures requester == Some(User) ==> r == Err(Forbidden)
    ensures requester == Some(Admin) ==>
              var page, limit := PageParam(q.page, 1), PageParam(q.limit, 10);
              && (r.Ok? <==> && q.search == "" && q.status == "" && (q.role == "" || IsRoleValue(q.role))
                             && limit > 0 && (page - 1) * limit >= 0)
              && (r.Err? ==> r.error == QueryFailed)
              && (r.Ok? ==>
                    var rows := WithRole(table, if q.role == "" then None else Some(q.role));
                    && r.value.users == Window(rows, (page - 1) * limit, limit)
                    && r.value.totalItems == |rows|
                    && r.value.currentPage == page && r.value.itemsPerPage == limit
                    && r.value.totalItems <= r.value.totalPages * limit
                    && (r.value.totalPages == 0 || (r.value.totalPages - 1) * limit < r.value.totalItems)
                    && r.value.hasNext == (page < r.value.totalPages)
                    && r.value.hasPrevious == (page > 1))
  {
    if requester.None? {
      return Err(Unauthenticated);
    }
    if requester.value == User {
      return Err(Forbidden);
    }
    var page := PageParam(q.page, 1);
    var limit := PageParam(q.limit, 10);
    var offset := (page - 1) * limit;
    var where := BuildWhere(q.search, q.role, q.status);
    var found := FindAndCountAll(table, where, limit, offset);
    if found.Err? {
      return Err(found.error);
    }
    var (count, users) := found.value;
    var totalPages := CeilDiv(count, limit);
    r := Ok(UserPage(users, count, totalPages, page, limit, page < totalPages, page > 1));
  }

  // ---------------------------------------------------------------------
  // Properties of the pagination

  /** There is a next page exactly when the rows before the end of this
      page do not exhaust the count. */
  lemma HasNextIff(count: nat, page: int, limit: nat)
    requires limit > 0
    ensures page < CeilDiv(count, limit) <==> page * limit < count
  {
    var t: int := CeilDiv(count, limit);
    if page < t {
      MulMonotone(page, t - 1, limit);
    } else {
      MulMonotone(t, page, limit);
    }
  }

  lemma MulMonotone(a: int, b: int, k: nat)
    requires a <= b
    ensures a * k <= b * k
  {
    assert b * k - a * k == (b - a) * k;
  }

  /** `hasNext` promises a non-empty next page: the page after a page
      that has one holds rows, and the page after the last holds none. */
  lemma NextPageNonEmptyIff(rows: seq<UserRow>, page: int, limit: nat)
    requires page >= 1 && limit > 0
    ensures page < CeilDiv(|rows|, limit) <==> Window(rows, page * limit, limit) != []
  {
    HasNextIff(|rows|, page, limit);
    MulMonotone(1, page, limit);
  }

  /** The pages from the first to the last list every matching row exactly
      once: row `i` is on page `i / limit + 1` at position `i % limit`. */
  lemma RowOnItsPage(rows: seq<UserRow>, limit: nat, i: nat)
    requires limit > 0 && i < |rows|
    ensures var page := i / limit + 1;
            && 1 <= page <= CeilDiv(|rows|, limit)
            && i % limit < |Window(rows, (page - 1) * limit, limit)|
            && Window(rows, (page - 1) * limit, limit)[i % limit] == rows[i]
  {
    var q, r := i / limit, i % limit;
    PageOffset(i, limit);
    var offset := (q + 1 - 1) * limit;
    var w := Window(rows, offset, limit);
    assert |w| > r;
    assert w[r] == rows[offset + r];
    HasNextIff(|rows|, q, limit);
  }

  /** Index `i` lies `i % limit` rows into the page that starts at
      `(i / limit) * limit`. */
  lemma PageOffset(i: nat, limit: nat)
    requires limit > 0
    ensures var q := i / limit;
            && (q + 1 - 1) * limit == q * limit
            && q * limit + i % limit == i && 0 <= i % limit < limit
  {
  }
}
