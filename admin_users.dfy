/**
 * The administrators' user controller (`AdminUserController.java`): the
 * password-free listing, the edit with its role resolution, reactivation,
 * the soft delete, and the registrations-per-day statistic computed by hand
 * when the repository's grouping query fails.
 */
module AdminUsers {
  import opened Common
  import opened ContentRepository

  /** A creation time: `day` is its `toLocalDate().toString()`
   *  (`yyyy-MM-dd`), `time` the rest of it. */
  datatype Timestamp = Timestamp(day: string, time: nat)

  /** The fields of a user this controller reads or writes; roles are held
   *  by their names. */
  datatype UserRecord = UserRecord(username: Option<string>, email: Option<string>, password: Option<string>,
                                   roles: set<string>, mfaEnabled: bool, active: bool,
                                   createDateTime: Option<Timestamp>)

  type UserRow = Row<UserRecord>

  /** The user table behind `UserRepository`. */
  class UserTable {
    var users: seq<UserRow>

    predicate Valid()
      reads this
    {
      DistinctIds(users)
    }

    constructor (users0: seq<UserRow>)
      requires DistinctIds(users0)
      ensures users == users0 && Valid()
    {
      users := users0;
    }
  }

  /** A role in a request body: a role object, a bare string, or anything
   *  else the JSON held. */
  datatype RoleValue = RoleObject(name: string) | RoleText(text: string) | OtherValue

  /** Why an edit failed; each surfaces as an uncaught exception. */
  datatype RoleError =
    | NoRoles                       // `getRoles()` is null
    | NoEnumConstant(text: string)  // `ERole.valueOf` of an unknown name
    | InvalidRoleFormat(value: RoleValue)
    | RoleNotFound(value: RoleValue)

  datatype Roles = Resolved(names: set<string>) | Rejected(error: RoleError)

  /** The body of an edit request. */
  datatype UserUpdate = UserUpdate(username: Option<string>, email: Option<string>,
                                   roles: Option<seq<RoleValue>>, mfaEnabled: bool, active: bool)

  datatype Body =
    | UserBody(user: UserRow)
    | UserList(users: seq<UserRow>)
    | ReactivatedBody(message: string, user: UserRow)
    | MessageBody(message: string)
    | RoleFailure(error: RoleError)
    | NoBody

  datatype Response = Response(status: int, body: Body)

  const REACTIVATED := "User account reactivated successfully"
  const DEACTIVATED := "User deactivated successfully"

  /** A user as this controller replies with it: no password. */
  function WithoutPassword(u: UserRow): UserRow
  {
    u.(value := u.value.(password := None))
  }

  // ---------------------------------------------------------------------
  // GET /api/admin/users

  /** `getAllUsers`: every user, in table order, with the password nulled
   *  and every other field as stored. */
  function GetAllUsers(table: UserTable): (resp: Response)
    reads table
    ensures resp.status == 200 && resp.body.UserList?
    ensures |resp.body.users| == |table.users|
    ensures forall i :: 0 <= i < |table.users| ==>
      resp.body.users[i].value.password.None?
      && resp.body.users[i].id == table.users[i].id
      && resp.body.users[i].value.(password := table.users[i].value.password) == table.users[i].value
  {
    var users := table.users;
    Response(200, UserList(seq(|users|, i requires 0 <= i < |users| => WithoutPassword(users[i]))))
  }

  // ---------------------------------------------------------------------
  // PUT /api/admin/users/{id}

  /** `extractRoleName(r)`: a role object gives its name, a string the enum
   *  constant of that name, and anything else fails. `eroles` are the
   *  names of the role enumeration's constants. */
  function RoleName(v: RoleValue, eroles: set<string>): (r: Result<string>)
    ensures r.Ok? <==> v.RoleObject? || (v.RoleText? && v.text in eroles)
    ensures v.RoleObject? ==> r == Ok(v.name)
    ensures v.RoleText? && v.text in eroles ==> r == Ok(v.text)
  {
    match v
    case RoleObject(name) => Ok(name)
    case RoleText(text) => if text in eroles then Ok(text) else Err(text)
    case OtherValue => Err("")
  }

  /** The failure `v` raises, if any: a bad name, or a name missing from
   *  the role table. */
  function RoleFailureOf(v: RoleValue, eroles: set<string>, roleTable: set<string>): Option<RoleError>
  {
    match v
    case RoleObject(name) => if name in roleTable then None else Some(RoleNotFound(v))
    case RoleText(text) =>
      if text !in eroles then Some(NoEnumConstant(text))
      else if text in roleTable then None
      else Some(RoleNotFound(v))
    case OtherValue => Some(InvalidRoleFormat(v))
  }

  /** A request role that maps to a row of the role table. */
  predicate Resolves(v: RoleValue, eroles: set<string>, roleTable: set<string>)
  {
    RoleName(v, eroles).Ok? && RoleName(v, eroles).value in roleTable
  }

  /** The stream that maps every request role to its role row, stopping at
   *  the first failure. */
  function ResolveRoles(values: seq<RoleValue>, eroles: set<string>, roleTable: set<string>): (r: Roles)
    ensures r.Resolved? <==> forall v :: v in values ==> Resolves(v, eroles, roleTable)
    ensures r.Resolved? ==> r.names <= roleTable
    ensures r.Resolved? ==> forall v :: v in values ==> RoleName(v, eroles).value in r.names
    ensures r.Rejected? ==> exists v :: v in values && RoleFailureOf(v, eroles, roleTable) == Some(r.error)
    decreases |values|
  {
    if values == [] then Resolved({})
    else
      match RoleFailureOf(values[0], eroles, roleTable)
      case Some(e) => assert values[0] in values; Rejected(e)
      case None =>
        match ResolveRoles(values[1..], eroles, roleTable)
        case Rejected(e) => Rejected(e)
        case Resolved(names) => Resolved({RoleName(values[0], eroles).value} + names)
  }

  /** Every resolved name comes from one of the request's roles. */
  lemma {:induction false} ResolvedNamesRequested(values: seq<RoleValue>, eroles: set<string>, roleTable: set<string>, n: string)
    requires ResolveRoles(values, eroles, roleTable).Resolved?
    requires n in ResolveRoles(values, eroles, roleTable).names
    ensures exists v :: v in values && RoleName(v, eroles) == Ok(n)
    decreases |values|
  {
    if RoleName(values[0], eroles) != Ok(n) {
      ResolvedNamesRequested(values[1..], eroles, roleTable, n);
      var v :| v in values[1..] && RoleName(v, eroles) == Ok(n);
      assert v in values;
    }
  }

  /** The roles an edit sets: a null list fails before any lookup. */
  function NewRoles(roles: Option<seq<RoleValue>>, eroles: set<string>, roleTable: set<string>): (r: Roles)
    ensures roles.None? ==> r == Rejected(NoRoles)
    ensures roles.Some? ==> r == ResolveRoles(roles.value, eroles, roleTable)
  {
    if roles.None? then Rejected(NoRoles) else ResolveRoles(roles.value, eroles, roleTable)
  }

  /** `updateUser(id, updatedUser)`: 404 for a missing id; a role that fails
   *  to resolve aborts with nothing saved; otherwise username, email,
   *  roles, the MFA flag and the active flag are taken from the request,
   *  the password and creation time are kept, and the reply omits the
   *  password. */
  method UpdateUser(table: UserTable, id: int, update: UserUpdate, eroles: set<string>, roleTable: set<string>)
    returns (resp: Response)
    requires table.Valid()
    modifies table
    ensures table.Valid()
    ensures id !in Ids(old(table.users)) ==> resp == Response(404, NoBody) && table.users == old(table.users)
    ensures id in Ids(old(table.users)) && NewRoles(update.roles, eroles, roleTable).Rejected? ==>
      resp == Response(500, RoleFailure(NewRoles(update.roles, eroles, roleTable).error))
      && table.users == old(table.users)
    ensures id in Ids(old(table.users)) && NewRoles(update.roles, eroles, roleTable).Resolved? ==>
      var before := Find(old(table.users), id).value;
      var after := before.(username := update.username, email := update.email,
                           roles := NewRoles(update.roles, eroles, roleTable).names,
                           mfaEnabled := update.mfaEnabled, active := update.active);
      table.users == Replace(old(table.users), id, after)
      && resp == Response(200, UserBody(WithoutPassword(Row(id, after))))
      && Find(table.users, id) == Some(after)
  {
    var found := Find(table.users, id);
    if found.None? {
      return Response(404, NoBody);
    }
    var roles := NewRoles(update.roles, eroles, roleTable);
    if roles.Rejected? {
      return Response(500, RoleFailure(roles.error));
    }
    var user := found.value.(username := update.username, email := update.email, roles := roles.names,
                             mfaEnabled := update.mfaEnabled, active := update.active);
    ReplaceFound(table.users, id, user, id);
    table.users := Replace(table.users, id, user);
    resp := Response(200, UserBody(WithoutPassword(Row(id, user))));
  }

  // ---------------------------------------------------------------------
  // POST /api/admin/users/{id}/reactivate and DELETE /api/admin/users/{id}

  /** `reactivateUser(id)`: the account is made active and its creation
   *  time restarts at `now`, which extends its expiry. */
  method ReactivateUser(table: UserTable, id: int, now: Timestamp) returns (resp: Response)
    requires table.Valid()
    modifies table
    ensures table.Valid()
    ensures id !in Ids(old(table.users)) ==> resp == Response(404, NoBody) && table.users == old(table.users)
    ensures id in Ids(old(table.users)) ==>
      var after := Find(old(table.users), id).value.(active := true, createDateTime := Some(now));
      table.users == Replace(old(table.users), id, after)
      && resp == Response(200, ReactivatedBody(REACTIVATED, WithoutPassword(Row(id, after))))
    ensures id in Ids(table.users) ==> Find(table.users, id).value.active
  {
    var found := Find(table.users, id);
    if found.None? {
      return Response(404, NoBody);
    }
    var user := found.value.(active := true, createDateTime := Some(now));
    ReplaceFound(table.users, id, user, id);
    table.users := Replace(table.users, id, user);
    resp := Response(200, ReactivatedBody(REACTIVATED, WithoutPassword(Row(id, user))));
  }

  /** `deleteUser(id)`: the row is never removed; the account is made
   *  inactive. (The final plain 200 of the source follows an existence
   *  check and a lookup of the same id, so it cannot be reached.) */
  method DeleteUser(table: UserTable, id: int) returns (resp: Response)
    requires table.Valid()
    modifies table
    ensures table.Valid()
    ensures Ids(table.users) == Ids(old(table.users))
    ensures id !in Ids(old(table.users)) ==> resp == Response(404, NoBody) && table.users == old(table.users)
    ensures id in Ids(old(table.users)) ==>
      table.users == Replace(old(table.users), id, Find(old(table.users), id).value.(active := false))
      && resp == Response(200, MessageBody(DEACTIVATED))
      && !Find(table.users, id).value.active
  {
    if id !in Ids(table.users) {
      return Response(404, NoBody);
    }
    var found := Find(table.users, id);
    var user := found.value.(active := false);
    ReplaceFound(table.users, id, user, id);
    table.users := Replace(table.users, id, user);
    resp := Response(200, MessageBody(DEACTIVATED));
  }

  // ---------------------------------------------------------------------
  // GET /api/admin/users/registrations-per-day, fallback branch

  /** One element of the reply: a day and the number of users created on it. */
  datatype DayCount = DayCount(date: string, count: nat)

  /** `String.compareTo(a, b) < 0`: lexicographic order by character, a
   *  proper prefix first. */
  predicate Below(a: string, b: string)
    decreases |a|
  {
    if a == [] then b != []
    else if b == [] then false
    else a[0] < b[0] || (a[0] == b[0] && Below(a[1..], b[1..]))
  }

  /** Of two different strings one is below the other. */
  lemma {:induction false} BelowTotal(a: string, b: string)
    requires a != b
    ensures Below(a, b) || Below(b, a)
    decreases |a|
  {
    if a != [] && b != [] && a[0] == b[0] {
      assert a == [a[0]] + a[1..] && b == [b[0]] + b[1..];
      BelowTotal(a[1..], b[1..]);
    }
  }

  /** No string is below itself. */
  lemma {:induction false} BelowIrreflexive(a: string)
    ensures !Below(a, a)
    decreases |a|
  {
    if a != [] {
      BelowIrreflexive(a[1..]);
    }
  }

  /** The test that picks the users created on `day`. */
  function CreatedOn(day: string): UserRow -> bool
  {
    (u: UserRow) => u.value.createDateTime.Some? && u.value.createDateTime.value.day == day
  }

  /** The map the first loop fills: for each user with a creation time,
   *  one more for its day. */
  function Tally(users: seq<UserRow>): map<string, nat>
    decreases |users|
  {
    if users == [] then map[]
    else
      var counts := Tally(users[..|users| - 1]);
      var u := users[|users| - 1];
      if u.value.createDateTime.None? then counts
      else
        var day := u.value.createDateTime.value.day;
        counts[day := (if day in counts then counts[day] else 0) + 1]
  }

  /** The tally holds exactly the days someone was created on, each with
   *  the number of users created that day. */
  lemma {:induction false} TallyCounts(users: seq<UserRow>, day: string)
    ensures day in Tally(users) <==> CountIf(users, CreatedOn(day)) > 0
    ensures day in Tally(users) ==> Tally(users)[day] == CountIf(users, CreatedOn(day))
    decreases |users|
  {
    if users != [] {
      var init := users[..|users| - 1];
      var u := users[|users| - 1];
      assert users == init + [u];
      TallyCounts(init, day);
      FilterConcat(init, [u], CreatedOn(day));
      assert CountIf([u], CreatedOn(day)) == if CreatedOn(day)(u) then 1 else 0 by {
        assert [u][1..] == [];
      }
    }
  }

  /** The days of a list of entries. */
  function Dates(s: seq<DayCount>): (ds: set<string>)
    ensures forall e :: e in s ==> e.date in ds
    decreases |s|
  {
    if s == [] then {} else {s[0].date} + Dates(s[1..])
  }

  /** No day occurs twice. */
  predicate DistinctDates(s: seq<DayCount>)
    decreases |s|
  {
    s == [] || (s[0].date !in Dates(s[1..]) && DistinctDates(s[1..]))
  }

  /** Each day strictly below the next. */
  predicate Ascending(s: seq<DayCount>)
    decreases |s|
  {
    |s| < 2 || (Below(s[0].date, s[1].date) && Ascending(s[1..]))
  }

  /** Every date of the entries belongs to one of them. */
  lemma {:induction false} DatesOwner(s: seq<DayCount>, day: string) returns (e: DayCount)
    requires day in Dates(s)
    ensures e in s && e.date == day
    decreases |s|
  {
    if s[0].date == day {
      e := s[0];
    } else {
      e := DatesOwner(s[1..], day);
    }
  }

  /** The dates and distinctness of entries extended at the end. */
  lemma {:induction false} DatesAppend(s: seq<DayCount>, e: DayCount)
    ensures Dates(s + [e]) == Dates(s) + {e.date}
    ensures DistinctDates(s) && e.date !in Dates(s) ==> DistinctDates(s + [e])
    decreases |s|
  {
    if s == [] {
      assert [e][1..] == [];
    } else {
      assert (s + [e])[1..] == s[1..] + [e];
      DatesAppend(s[1..], e);
    }
  }

  /** `e` put in front of the first entry whose date is not below its own. */
  function Insert(s: seq<DayCount>, e: DayCount): (r: seq<DayCount>)
    ensures |r| == |s| + 1
    ensures r[0] == e || (s != [] && r[0] == s[0])
    decreases |s|
  {
    if s == [] || !Below(s[0].date, e.date) then [e] + s
    else [s[0]] + Insert(s[1..], e)
  }

  /** `data.sort(...)` by date: the entries rearranged in date order. */
  function SortedByDate(s: seq<DayCount>): seq<DayCount>
    decreases |s|
  {
    if s == [] then [] else Insert(SortedByDate(s[1..]), s[0])
  }

  /** Inserting keeps every entry and adds one. */
  lemma {:induction false} InsertMembers(s: seq<DayCount>, e: DayCount)
    ensures multiset(Insert(s, e)) == multiset(s) + multiset{e}
    decreases |s|
  {
    if s != [] && Below(s[0].date, e.date) {
      InsertMembers(s[1..], e);
      assert s == [s[0]] + s[1..];
    }
  }

  /** Inserting a new day into ascending entries keeps them ascending. */
  lemma {:induction false} InsertAscending(s: seq<DayCount>, e: DayCount)
    requires Ascending(s) && e.date !in Dates(s)
    ensures Ascending(Insert(s, e))
    decreases |s|
  {
    if s != [] {
      if !Below(s[0].date, e.date) {
        BelowTotal(s[0].date, e.date);
      } else {
        InsertAscending(s[1..], e);
        var rest := Insert(s[1..], e);
        assert Insert(s, e) == [s[0]] + rest;
        assert ([s[0]] + rest)[1..] == rest;
      }
    }
  }

  /** Sorting keeps every entry and, for distinct days, sorts strictly. */
  lemma {:induction false} SortedByDateSorts(s: seq<DayCount>)
    requires DistinctDates(s)
    ensures multiset(SortedByDate(s)) == multiset(s)
    ensures Ascending(SortedByDate(s))
    decreases |s|
  {
    if s != [] {
      SortedByDateSorts(s[1..]);
      InsertMembers(SortedByDate(s[1..]), s[0]);
      assert s == [s[0]] + s[1..];
      DatesOfMembers(SortedByDate(s[1..]), s[1..], s[0].date);
      InsertAscending(SortedByDate(s[1..]), s[0]);
    }
  }

  /** The dates of entries with the same members. */
  lemma DatesOfMembers(s: seq<DayCount>, t: seq<DayCount>, day: string)
    requires multiset(s) == multiset(t)
    ensures day in Dates(s) <==> day in Dates(t)
  {
    if day in Dates(s) {
      var e := DatesOwner(s, day);
      assert e in multiset(t);
    }
    if day in Dates(t) {
      var e := DatesOwner(t, day);
      assert e in multiset(s);
    }
  }

  /** Strictly ascending entries have distinct days. */
  lemma {:induction false} AscendingDistinct(s: seq<DayCount>)
    requires Ascending(s)
    ensures DistinctDates(s)
    ensures s != [] ==> forall d :: d in Dates(s[1..]) ==> Below(s[0].date, d)
    decreases |s|
  {
    if |s| >= 2 {
      AscendingDistinct(s[1..]);
      forall d | d in Dates(s[1..]) ensures Below(s[0].date, d) {
        if d != s[1].date {
          BelowTransitive(s[0].date, s[1].date, d);
        }
      }
      BelowIrreflexive(s[0].date);
    } else if |s| == 1 {
      assert s[1..] == [];
    }
  }

  /** The order is transitive. */
  lemma {:induction false} BelowTransitive(a: string, b: string, c: string)
    requires Below(a, b) && Below(b, c)
    ensures Below(a, c)
    decreases |a|
  {
    if a != [] && a[0] == b[0] && b[0] == c[0] {
      BelowTransitive(a[1..], b[1..], c[1..]);
    }
  }

  /** The entries of the tally, sorted by day, are the reply the method
   *  promises. */
  lemma ReplyFromTally(users: seq<UserRow>, unsorted: seq<DayCount>)
    requires DistinctDates(unsorted)
    requires Dates(unsorted) == Tally(users).Keys
    requires forall e :: e in unsorted ==> e.date in Tally(users) && e.count == Tally(users)[e.date]
    ensures var data := SortedByDate(unsorted);
      && Ascending(data)
      && DistinctDates(data)
      && (forall day :: day in Dates(data) <==> CountIf(users, CreatedOn(day)) > 0)
      && (forall e :: e in data ==> e.count == CountIf(users, CreatedOn(e.date)))
  {
    var data := SortedByDate(unsorted);
    SortedByDateSorts(unsorted);
    AscendingDistinct(data);
    forall day ensures day in Dates(data) <==> CountIf(users, CreatedOn(day)) > 0 {
      DatesOfMembers(data, unsorted, day);
      TallyCounts(users, day);
    }
    forall e | e in data ensures e.count == CountIf(users, CreatedOn(e.date)) {
      assert e in multiset(unsorted);
      TallyCounts(users, e.date);
    }
  }

  /** The fallback of `getRegistrationsPerDay`: the first loop counts users
   *  per creation day, the second turns the map's entries, in whatever
   *  order the map yields them, into a list, which is then sorted by day.
   *  The reply lists each day someone was created on exactly once, in
   *  strictly ascending order, with the number of users created that day. */
  method RegistrationsPerDay(users: seq<UserRow>) returns (data: seq<DayCount>)
    ensures Ascending(data)
    ensures DistinctDates(data)
    ensures forall day :: day in Dates(data) <==> CountIf(users, CreatedOn(day)) > 0
    ensures forall e :: e in data ==> e.count == CountIf(users, CreatedOn(e.date))
  {
    var counts: map<string, nat> := map[];
    var i := 0;
    while i < |users|
      invariant 0 <= i <= |users|
      invariant counts == Tally(users[..i])
    {
      var u := users[i];
      assert users[..i + 1][..i] == users[..i];
      if u.value.createDateTime.Some? {
        var day := u.value.createDateTime.value.day;
        counts := counts[day := (if day in counts then counts[day] else 0) + 1];
      }
      i := i + 1;
    }
    assert users[..|users|] == users;

    var remaining := counts.Keys;
    data := [];
    while remaining != {}
      invariant remaining <= counts.Keys
      invariant Dates(data) == counts.Keys - remaining
      invariant DistinctDates(data)
      invariant forall e :: e in data ==> e.date in counts && e.count == counts[e.date]
      decreases remaining
    {
      var day :| day in remaining;
      DatesAppend(data, DayCount(day, counts[day]));
      data := data + [DayCount(day, counts[day])];
      remaining := remaining - {day};
    }

    ReplyFromTally(users, data);
    data := SortedByDate(data);
  }
}
