/** The tenant-scoped user routes of the admin router
    (backend/src/routes/admin.ts): paginated listing, CSV export, soft delete,
    reactivation and role change. The database table is an in-memory map from
    user id to row; a row is visible to a request only when its tenant id
    matches the request's. */
module AdminUsers {
  import opened Wrappers
  import opened AdminQuery
  import Text
  import Csv
  import opened Sequences

  /** A row of the user table. `createdAt` is held as its ISO-8601 text. */
  datatype User = User(
    id: int,
    tenantId: string,
    email: string,
    name: Option<string>,
    role: string,
    totalXp: int,
    level: Option<int>,
    isActive: bool,
    createdAt: string)

  /** The `select` of the status routes (with `isActive`) and of the role route. */
  datatype UserView =
    | StatusView(id: int, email: string, name: Option<string>, role: string, isActive: bool)
    | RoleView(id: int, email: string, name: Option<string>, role: string)

  function StatusViewOf(u: User): UserView {
    StatusView(u.id, u.email, u.name, u.role, u.isActive)
  }

  function RoleViewOf(u: User): UserView {
    RoleView(u.id, u.email, u.name, u.role)
  }

  /** `roleSchema`: the four roles the role route accepts. */
  const Roles: seq<string> := ["user", "moderator", "admin", "superadmin"]

  /** Every row is stored under its own id. */
  ghost predicate KeyedById(rows: map<int, User>) {
    forall id :: id in rows ==> rows[id].id == id
  }

  /** `findFirst({ where: { id, tenantId } })` finds a row. */
  predicate InTenant(rows: map<int, User>, id: int, tenantId: string) {
    id in rows && rows[id].tenantId == tenantId
  }

  // ---------------------------------------------------------------------
  // Listing and export
  // ---------------------------------------------------------------------

  /** The `where` of the list and export routes: the tenant's rows, and only
      the active ones unless `includeInactive`. */
  predicate Listed(u: User, tenantId: string, includeInactive: bool) {
    u.tenantId == tenantId && (includeInactive || u.isActive)
  }

  /** The rows the `where` selects, in the order the database returned them:
      an order-keeping selection holding every listed row as often as the
      table does, and nothing else. */
  function SelectUsers(ordered: seq<User>, tenantId: string, includeInactive: bool): (r: seq<User>)
    ensures |r| <= |ordered|
    ensures IsSubsequence(r, ordered)
    ensures forall u :: multiset(r)[u] == if Listed(u, tenantId, includeInactive) then multiset(ordered)[u] else 0
    ensures forall u :: u in r <==> u in ordered && Listed(u, tenantId, includeInactive)
  {
    if |ordered| == 0 then []
    else
      var rest := SelectUsers(ordered[1..], tenantId, includeInactive);
      assert ordered == [ordered[0]] + ordered[1..];
      assert multiset(ordered) == multiset{ordered[0]} + multiset(ordered[1..]);
      if Listed(ordered[0], tenantId, includeInactive) then
        assert ([ordered[0]] + rest)[1..] == rest;
        assert multiset([ordered[0]] + rest) == multiset{ordered[0]} + multiset(rest);
        [ordered[0]] + rest
      else
        SkipHead(rest, ordered);
        rest
  }

  /** A selection from the tail is a selection from the whole. */
  lemma SkipHead<T>(xs: seq<T>, ys: seq<T>)
    requires |ys| > 0 && IsSubsequence(xs, ys[1..])
    ensures IsSubsequence(xs, ys)
  {
  }

  datatype UserPage = UserPage(users: seq<User>, page: int, pageSize: int, total: int)

  /** GET /users: the page `skip .. skip + pageSize` of the selected rows, and
      their total count. `ordered` is the table in the database's order. */
  function ListUsers(page: Option<JsNumber>, pageSize: Option<JsNumber>, includeInactive: QueryValue,
                     tenantId: Option<string>, ordered: seq<User>): (r: Reply<UserPage>)
    ensures ParseListQuery(page, pageSize, includeInactive).None? ==> r == Fail(400, "Invalid pagination")
    ensures ParseListQuery(page, pageSize, includeInactive).Some? && TenantMissing(tenantId) ==>
              r == Fail(500, TenantMissingError)
    ensures r.Ok? <==> ParseListQuery(page, pageSize, includeInactive).Some? && !TenantMissing(tenantId)
    ensures r.Ok? ==> 1 <= r.data.page && 1 <= r.data.pageSize <= MaxPageSize
    ensures r.Ok? ==> |r.data.users| <= r.data.pageSize
    ensures r.Ok? ==>
              var q := ParseListQuery(page, pageSize, includeInactive).value;
              var selected := SelectUsers(ordered, tenantId.value, q.includeInactive);
              && r.data.page == q.page && r.data.pageSize == q.pageSize && r.data.total == |selected|
              && r.data.users == PageWindow(selected, q)
              && (forall u :: u in r.data.users ==> u in ordered && Listed(u, tenantId.value, q.includeInactive))
  {
    match ParseListQuery(page, pageSize, includeInactive)
    case None => Fail(400, "Invalid pagination")
    case Some(q) =>
      if TenantMissing(tenantId) then Fail(500, TenantMissingError)
      else
        var selected := SelectUsers(ordered, tenantId.value, q.includeInactive);
        Ok(UserPage(PageWindow(selected, q), q.page, q.pageSize, |selected|))
  }

  /** `skip: (page - 1) * pageSize, take: pageSize`: the selected rows from
      position skip on, pageSize of them or as many as remain, none past the
      end. */
  function PageWindow(selected: seq<User>, q: ListQuery): (w: seq<User>)
    requires ValidListQuery(q)
    ensures |w| == if Skip(q) >= |selected| then 0
                   else if |selected| - Skip(q) < q.pageSize then |selected| - Skip(q)
                   else q.pageSize
    ensures forall i :: 0 <= i < |w| ==> w[i] == selected[Skip(q) + i]
    ensures forall u :: u in w ==> u in selected
  {
    var skip := Skip(q);
    var from := if skip < |selected| then skip else |selected|;
    var to := if from + q.pageSize < |selected| then from + q.pageSize else |selected|;
    selected[from..to]
  }

  /** Every selected user is on a page, and (by `PagesTile`) on only that
      one: the user at position j of the selection is entry j % pageSize of
      page p = j / pageSize + 1. */
  lemma ListedOnItsPage(pageSize: Option<JsNumber>, includeInactive: QueryValue, tenantId: Option<string>,
                        ordered: seq<User>, q: ListQuery, j: int, p: int)
    requires ParseListQuery(None, pageSize, includeInactive) == Some(q) && !TenantMissing(tenantId)
    requires 0 <= j < |SelectUsers(ordered, tenantId.value, q.includeInactive)|
    requires p == j / q.pageSize + 1
    ensures var r := ListUsers(Some(Finite(p as real)), pageSize, includeInactive, tenantId, ordered);
            && r.Ok? && r.data.page == p && j % q.pageSize < |r.data.users|
            && r.data.users[j % q.pageSize] == SelectUsers(ordered, tenantId.value, q.includeInactive)[j]
  {
    WindowAt(SelectUsers(ordered, tenantId.value, q.includeInactive), q, j);
    AskForPage(pageSize, includeInactive, q, p);
  }

  /** Position j of the selection is entry j % pageSize of the window of page
      j / pageSize + 1. */
  lemma WindowAt(selected: seq<User>, q: ListQuery, j: int)
    requires ValidListQuery(q) && 0 <= j < |selected|
    ensures j / q.pageSize + 1 >= 1
    ensures var w := PageWindow(selected, q.(page := j / q.pageSize + 1));
            j % q.pageSize < |w| && w[j % q.pageSize] == selected[j]
  {
    PositionOnPage(q, j);
  }

  /** Asking for page p with the same other parameters parses to the same
      query on page p. */
  lemma AskForPage(pageSize: Option<JsNumber>, includeInactive: QueryValue, q: ListQuery, p: int)
    requires ParseListQuery(None, pageSize, includeInactive) == Some(q) && p >= 1
    ensures ParseListQuery(Some(Finite(p as real)), pageSize, includeInactive) == Some(q.(page := p))
  {
    assert (p as real).Floor == p;
  }

  const ExportHeader: seq<string> := ["ID", "Email", "Name", "Role", "XP", "Level", "Active", "Created"]

  /** The eight values of a user's line, in the header's order. */
  function ExportRow(u: User): (r: seq<Csv.CsvScalar>)
    ensures |r| == |ExportHeader|
  {
    [ Csv.Num(u.id),
      Csv.Str(u.email),
      if u.name.Some? then Csv.Str(u.name.value) else Csv.Null,
      Csv.Str(u.role),
      Csv.Num(u.totalXp),
      if u.level.Some? then Csv.Num(u.level.value) else Csv.Null,
      Csv.Flag(u.isActive),
      Csv.Str(u.createdAt) ]
  }

  /** The text of each of a user's eight fields, before escaping. */
  function RowTexts(u: User): seq<string> {
    var row := ExportRow(u);
    seq(|row|, j requires 0 <= j < |row| => Csv.ScalarText(row[j]))
  }

  /** The escaped line of one user: `row.join(",")`. */
  function UserLine(u: User): string {
    var row := ExportRow(u);
    Text.Join(seq(|row|, j requires 0 <= j < |row| => Csv.ToCsvValue(row[j])), ',')
  }

  /** The header line followed by one line per user, joined by line feeds.
      Read back with the RFC 4180 reader, it gives the header and then exactly
      the eight field texts of each user, in order. */
  function UsersCsv(users: seq<User>): (csv: string)
    ensures Csv.ParseDocument(csv) == Some([ExportHeader] + seq(|users|, i requires 0 <= i < |users| => RowTexts(users[i])))
  {
    var lines := [Text.Join(ExportHeader, ',')] + seq(|users|, i requires 0 <= i < |users| => UserLine(users[i]));
    var records := [ExportHeader] + seq(|users|, i requires 0 <= i < |users| => RowTexts(users[i]));
    FormatsAsRecords(users, lines, records);
    Csv.ParseFormatted(records);
    Text.Join(lines, '\n')
  }

  lemma FormatsAsRecords(users: seq<User>, lines: seq<string>, records: seq<seq<string>>)
    requires lines == [Text.Join(ExportHeader, ',')] + seq(|users|, i requires 0 <= i < |users| => UserLine(users[i]))
    requires records == [ExportHeader] + seq(|users|, i requires 0 <= i < |users| => RowTexts(users[i]))
    ensures |records| >= 1 && forall i :: 0 <= i < |records| ==> |records[i]| >= 1
    ensures Text.Join(lines, '\n') == Csv.FormatDocument(records)
  {
    var formatted := seq(|records|, i requires 0 <= i < |records| => Csv.FormatRecord(records[i]));
    forall i | 0 <= i < |records|
      ensures |records[i]| >= 1 && lines[i] == formatted[i]
    {
      if i == 0 {
        assert records[0] == ExportHeader;
        HeaderIsPlain();
      } else {
        assert records[i] == RowTexts(users[i - 1]);
        assert lines[i] == UserLine(users[i - 1]);
        UserLineIsRecord(users[i - 1]);
      }
    }
    assert lines == formatted;
  }

  /** The header needs no quoting. */
  lemma HeaderIsPlain()
    ensures Csv.EscapeAll(ExportHeader) == ExportHeader
  {
    Csv.PlainFieldsUnchanged(ExportHeader);
  }

  /** A user's line is the formatted record of its field texts. */
  lemma UserLineIsRecord(u: User)
    ensures UserLine(u) == Csv.FormatRecord(RowTexts(u))
  {
    var row := ExportRow(u);
    var texts := RowTexts(u);
    forall j | 0 <= j < |row|
      ensures Csv.ToCsvValue(row[j]) == Csv.EscapeField(texts[j])
    {
    }
    assert seq(|row|, j requires 0 <= j < |row| => Csv.ToCsvValue(row[j])) == Csv.EscapeAll(texts);
  }

  /** GET /users/export. The reply's data is the CSV text, sent with status
      200 as `text/csv`. */
  function ExportUsers(includeInactive: QueryValue, tenantId: Option<string>, ordered: seq<User>): (r: Reply<string>)
    ensures CoerceBoolean(includeInactive).None? ==> r == Fail(400, "Invalid export query")
    ensures CoerceBoolean(includeInactive).Some? && TenantMissing(tenantId) ==> r == Fail(500, TenantMissingError)
    ensures r.Ok? <==> CoerceBoolean(includeInactive).Some? && !TenantMissing(tenantId)
    ensures r.Ok? ==> r.data == UsersCsv(SelectUsers(ordered, tenantId.value, CoerceBoolean(includeInactive).value))
  {
    match CoerceBoolean(includeInactive)
    case None => Fail(400, "Invalid export query")
    case Some(flag) =>
      if TenantMissing(tenantId) then Fail(500, TenantMissingError)
      else Ok(UsersCsv(SelectUsers(ordered, tenantId.value, flag)))
  }

  // ---------------------------------------------------------------------
  // Soft delete, reactivate, role change: specification
  // ---------------------------------------------------------------------

  /** A route's reply together with the table it leaves behind. */
  datatype Outcome = Outcome(reply: Reply<UserView>, rows: map<int, User>)

  /** DELETE /users/:id (active = false) and POST /users/:id/reactivate
      (active = true). */
  function SetActiveOutcome(rows: map<int, User>, rawId: JsNumber, tenantId: Option<string>, active: bool): Outcome {
    match ParseNumericId(rawId)
    case None => Outcome(Fail(400, "Invalid user id"), rows)
    case Some(id) =>
      if TenantMissing(tenantId) then Outcome(Fail(500, TenantMissingError), rows)
      else if !InTenant(rows, id, tenantId.value) then Outcome(Fail(404, "User not found"), rows)
      else
        var updated := rows[id := rows[id].(isActive := active)];
        Outcome(Ok(StatusViewOf(updated[id])), updated)
  }

  /** PUT /users/:id/role: the role payload is checked first, then the id with
      `Number.isInteger` only. */
  function RoleOutcome(rows: map<int, User>, role: Option<string>, rawId: JsNumber, tenantId: Option<string>): Outcome {
    if role.None? || role.value !in Roles then Outcome(Fail(400, "Invalid role payload"), rows)
    else match IntegerId(rawId)
      case None => Outcome(Fail(400, "Invalid user id"), rows)
      case Some(id) =>
        if TenantMissing(tenantId) then Outcome(Fail(500, TenantMissingError), rows)
        else if !InTenant(rows, id, tenantId.value) then Outcome(Fail(404, "User not found"), rows)
        else
          var updated := rows[id := rows[id].(role := role.value)];
          Outcome(Ok(RoleViewOf(updated[id])), updated)
  }

  /** The status routes act only on the row whose id and tenant both match:
      a refusal leaves the table as it was, 404 exactly when no such row
      exists, and on success only that row's `isActive` changes. */
  lemma SetActiveEffect(rows: map<int, User>, rawId: JsNumber, tenantId: Option<string>, active: bool)
    ensures var o := SetActiveOutcome(rows, rawId, tenantId, active);
      && o.rows.Keys == rows.Keys
      && (o.reply.Fail? ==> o.rows == rows)
      && (ParseNumericId(rawId).None? ==> o.reply == Fail(400, "Invalid user id"))
      && (ParseNumericId(rawId).Some? && TenantMissing(tenantId) ==> o.reply == Fail(500, TenantMissingError))
      && (o.reply == Fail(404, "User not found") <==>
            ParseNumericId(rawId).Some? && !TenantMissing(tenantId)
            && !InTenant(rows, ParseNumericId(rawId).value, tenantId.value))
      && (o.reply.Ok? <==>
            ParseNumericId(rawId).Some? && !TenantMissing(tenantId)
            && InTenant(rows, ParseNumericId(rawId).value, tenantId.value))
      && (o.reply.Ok? ==>
            var id := ParseNumericId(rawId).value;
            && o.rows[id] == rows[id].(isActive := active)
            && o.reply.data.isActive == active
            && forall k :: k in rows && k != id ==> o.rows[k] == rows[k])
  {
  }

  /** The role route likewise changes nothing but the matched row's role. */
  lemma RoleEffect(rows: map<int, User>, role: Option<string>, rawId: JsNumber, tenantId: Option<string>)
    ensures var o := RoleOutcome(rows, role, rawId, tenantId);
      && o.rows.Keys == rows.Keys
      && (o.reply.Fail? ==> o.rows == rows)
      && (role.None? || role.value !in Roles ==> o.reply == Fail(400, "Invalid role payload"))
      && (role.Some? && role.value in Roles && IntegerId(rawId).None? ==> o.reply == Fail(400, "Invalid user id"))
      && (role.Some? && role.value in Roles && IntegerId(rawId).Some? && TenantMissing(tenantId) ==>
            o.reply == Fail(500, TenantMissingError))
      && (o.reply == Fail(404, "User not found") <==>
            role.Some? && role.value in Roles && IntegerId(rawId).Some? && !TenantMissing(tenantId)
            && !InTenant(rows, IntegerId(rawId).value, tenantId.value))
      && (o.reply.Ok? <==>
            role.Some? && role.value in Roles && IntegerId(rawId).Some? && !TenantMissing(tenantId)
            && InTenant(rows, IntegerId(rawId).value, tenantId.value))
      && (o.reply.Ok? ==>
            var id := IntegerId(rawId).value;
            && o.rows[id] == rows[id].(role := role.value)
            && forall k :: k in rows && k != id ==> o.rows[k] == rows[k])
  {
  }

  /** No user route touches a row of another tenant. */
  lemma OtherTenantsUntouched(rows: map<int, User>, rawId: JsNumber, tenantId: Option<string>, active: bool,
                              role: Option<string>, k: int)
    requires k in rows && (tenantId.None? || rows[k].tenantId != tenantId.value)
    ensures SetActiveOutcome(rows, rawId, tenantId, active).rows[k] == rows[k]
    ensures RoleOutcome(rows, role, rawId, tenantId).rows[k] == rows[k]
  {
  }

  /** Reactivating a user that was just deactivated restores the table. */
  lemma ReactivateUndoesDeactivate(rows: map<int, User>, rawId: JsNumber, tenantId: Option<string>)
    requires ParseNumericId(rawId).Some? && !TenantMissing(tenantId)
    requires InTenant(rows, ParseNumericId(rawId).value, tenantId.value)
    requires rows[ParseNumericId(rawId).value].isActive
    ensures SetActiveOutcome(SetActiveOutcome(rows, rawId, tenantId, false).rows, rawId, tenantId, true).rows == rows
  {
    var id := ParseNumericId(rawId).value;
    var once := SetActiveOutcome(rows, rawId, tenantId, false).rows;
    var twice := SetActiveOutcome(once, rawId, tenantId, true).rows;
    assert twice[id] == rows[id];
    assert twice == rows;
  }

  /** Deactivating twice leaves the same table as deactivating once. */
  lemma SetActiveIdempotent(rows: map<int, User>, rawId: JsNumber, tenantId: Option<string>, active: bool)
    ensures var once := SetActiveOutcome(rows, rawId, tenantId, active).rows;
            SetActiveOutcome(once, rawId, tenantId, active).rows == once
  {
  }

  /** With positive ids only in the table (as the database assigns them), a
      zero or negative id reaches the role route's lookup and is answered 404,
      where the status routes answer 400. */
  lemma NonPositiveIdOnRoleRoute(rows: map<int, User>, role: string, n: JsNumber, tenantId: string)
    requires forall id :: id in rows ==> id >= 1
    requires role in Roles && tenantId != ""
    requires IntegerId(n).Some? && IntegerId(n).value <= 0
    ensures RoleOutcome(rows, Some(role), n, Some(tenantId)).reply == Fail(404, "User not found")
    ensures SetActiveOutcome(rows, n, Some(tenantId), false).reply == Fail(400, "Invalid user id")
  {
    IdChecksDiffer(n);
  }

  // ---------------------------------------------------------------------
  // The table
  // ---------------------------------------------------------------------

  class UserTable {
    var rows: map<int, User>

    ghost predicate Valid()
      reads this
    {
      KeyedById(rows)
    }

    constructor (initial: map<int, User>)
      requires KeyedById(initial)
      ensures Valid() && rows == initial
    {
      rows := initial;
    }

    /** DELETE /users/:id: the soft delete. */
    method Deactivate(rawId: JsNumber, tenantId: Option<string>) returns (reply: Reply<UserView>)
      requires Valid()
      modifies this
      ensures Valid()
      ensures Outcome(reply, rows) == SetActiveOutcome(old(rows), rawId, tenantId, false)
    {
      reply := SetActive(rawId, tenantId, false);
    }

    /** POST /users/:id/reactivate. */
    method Reactivate(rawId: JsNumber, tenantId: Option<string>) returns (reply: Reply<UserView>)
      requires Valid()
      modifies this
      ensures Valid()
      ensures Outcome(reply, rows) == SetActiveOutcome(old(rows), rawId, tenantId, true)
    {
      reply := SetActive(rawId, tenantId, true);
    }

    method SetActive(rawId: JsNumber, tenantId: Option<string>, active: bool) returns (reply: Reply<UserView>)
      requires Valid()
      modifies this
      ensures Valid()
      ensures Outcome(reply, rows) == SetActiveOutcome(old(rows), rawId, tenantId, active)
    {
      var userId := ParseNumericId(rawId);
      if userId.None? {
        return Fail(400, "Invalid user id");
      }
      if TenantMissing(tenantId) {
        return Fail(500, TenantMissingError);
      }
      var id := userId.value;
      if !(id in rows && rows[id].tenantId == tenantId.value) {
        return Fail(404, "User not found");
      }
      rows := rows[id := rows[id].(isActive := active)];
      reply := Ok(StatusViewOf(rows[id]));
    }

    /** PUT /users/:id/role. */
    method ChangeRole(role: Option<string>, rawId: JsNumber, tenantId: Option<string>) returns (reply: Reply<UserView>)
      requires Valid()
      modifies this
      ensures Valid()
      ensures Outcome(reply, rows) == RoleOutcome(old(rows), role, rawId, tenantId)
    {
      if role.None? || role.value !in Roles {
        return Fail(400, "Invalid role payload");
      }
      var userId := IntegerId(rawId);
      if userId.None? {
        return Fail(400, "Invalid user id");
      }
      if TenantMissing(tenantId) {
        return Fail(500, TenantMissingError);
      }
      var id := userId.value;
      if !(id in rows && rows[id].tenantId == tenantId.value) {
        return Fail(404, "User not found");
      }
      rows := rows[id := rows[id].(role := role.value)];
      reply := Ok(RoleViewOf(rows[id]));
    }
  }
}
