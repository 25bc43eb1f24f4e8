/** Request helpers of the admin router (backend/src/routes/admin.ts): the
    numeric-id check of the `:id` routes, the boolean query flag, the
    pagination query and its skip offset, and the reply envelope. */
module AdminQuery {
  import opened Wrappers
  import Text

  // ---------------------------------------------------------------------
  // Reply envelope
  // ---------------------------------------------------------------------

  /** `{ success: true, data }` with status 200, or `{ success: false, error }`
      with the given status. */
  datatype Reply<T> = Ok(data: T) | Fail(status: int, error: string)

  /** `if (!tenantId)`: an absent or empty tenant id is refused with 500. */
  predicate TenantMissing(tenantId: Option<string>) {
    tenantId.None? || tenantId.value == ""
  }

  const TenantMissingError := "Tenant context missing"

  // ---------------------------------------------------------------------
  // Ids
  // ---------------------------------------------------------------------

  /** What `Number(raw)` produced: a finite double, or NaN / an infinity. */
  datatype JsNumber = Finite(value: real) | NotFinite

  /** `Number.isInteger(n)`. */
  predicate IsInteger(n: JsNumber) {
    n.Finite? && n.value.Floor as real == n.value
  }

  /** `parseNumericId`: the id when it is an integer greater than zero. */
  function ParseNumericId(n: JsNumber): (r: Option<int>)
    ensures r.Some? <==> IsInteger(n) && n.value > 0.0
    ensures r.Some? ==> r.value >= 1 && r.value as real == n.value
  {
    if !IsInteger(n) || n.value <= 0.0 then None else Some(n.value.Floor)
  }

  /** The id check of the role route: `Number.isInteger` alone. */
  function IntegerId(n: JsNumber): (r: Option<int>)
    ensures r.Some? <==> IsInteger(n)
    ensures r.Some? ==> r.value as real == n.value
  {
    if IsInteger(n) then Some(n.value.Floor) else None
  }

  /** The two id checks agree exactly on positive integers: the role route
      additionally lets zero and negative integers through to the lookup. */
  lemma IdChecksDiffer(n: JsNumber)
    ensures ParseNumericId(n).Some? <==> IntegerId(n).Some? && IntegerId(n).value > 0
    ensures ParseNumericId(n).Some? ==> ParseNumericId(n) == IntegerId(n)
    ensures IntegerId(n).Some? && IntegerId(n).value <= 0 ==> ParseNumericId(n).None?
  {
  }

  // ---------------------------------------------------------------------
  // Boolean query flag (`booleanQuerySchema`)
  // ---------------------------------------------------------------------

  /** A query-string value: absent, one string, or anything else the query
      parser can produce (an array, a nested object). */
  datatype QueryValue = Missing | One(s: string) | NonString

  /** `booleanQuerySchema`: "true"/"false" in any letter case become the
      boolean, an absent value defaults to false, and everything else reaches
      `z.boolean()` unconverted and fails (None). */
  function CoerceBoolean(v: QueryValue): (r: Option<bool>)
    ensures r == Some(true) <==> v.One? && Text.ToLower(v.s) == "true"
    ensures r == Some(false) <==> v.Missing? || (v.One? && Text.ToLower(v.s) == "false")
    ensures r.None? <==> v.NonString? || (v.One? && Text.ToLower(v.s) != "true" && Text.ToLower(v.s) != "false")
  {
    match v
    case Missing => Some(false)
    case NonString => None
    case One(s) =>
      if Text.ToLower(s) == "true" then Some(true)
      else if Text.ToLower(s) == "false" then Some(false)
      else None
  }

  // ---------------------------------------------------------------------
  // Pagination (`paginationSchema`)
  // ---------------------------------------------------------------------

  const DefaultPage := 1
  const DefaultPageSize := 20
  const MaxPageSize := 100

  /** `z.coerce.number().int().positive()` with an optional upper bound, after
      `.default(d)` for an absent value. NaN and the infinities fail. */
  function CoercePositiveInt(p: Option<JsNumber>, default: int, max: Option<int>): (r: Option<int>)
    requires default >= 1 && (max.Some? ==> default <= max.value)
    ensures p.None? ==> r == Some(default)
    ensures p.Some? ==> (r.Some? <==> IsInteger(p.value) && p.value.value > 0.0
                                       && (max.Some? ==> p.value.value <= max.value as real))
    ensures p.Some? && r.Some? ==> r.value as real == p.value.value
    ensures r.Some? ==> r.value >= 1 && (max.Some? ==> r.value <= max.value)
  {
    match p
    case None => Some(default)
    case Some(n) =>
      if !IsInteger(n) || n.value <= 0.0 then None
      else if max.Some? && n.value > max.value as real then None
      else Some(n.value.Floor)
  }

  datatype ListQuery = ListQuery(page: int, pageSize: int, includeInactive: bool)

  predicate ValidListQuery(q: ListQuery) {
    q.page >= 1 && 1 <= q.pageSize <= MaxPageSize
  }

  /** `userListQuerySchema.safeParse(req.query)`; None is the 400 "Invalid
      pagination" reply. */
  function ParseListQuery(page: Option<JsNumber>, pageSize: Option<JsNumber>, includeInactive: QueryValue): (r: Option<ListQuery>)
    ensures r.Some? ==> ValidListQuery(r.value)
    ensures r.Some? <==> CoercePositiveInt(page, DefaultPage, None).Some?
                         && CoercePositiveInt(pageSize, DefaultPageSize, Some(MaxPageSize)).Some?
                         && CoerceBoolean(includeInactive).Some?
    ensures page.None? && pageSize.None? && includeInactive.Missing? ==>
              r == Some(ListQuery(DefaultPage, DefaultPageSize, false))
  {
    var p := CoercePositiveInt(page, DefaultPage, None);
    var size := CoercePositiveInt(pageSize, DefaultPageSize, Some(MaxPageSize));
    var inactive := CoerceBoolean(includeInactive);
    if p.Some? && size.Some? && inactive.Some? then Some(ListQuery(p.value, size.value, inactive.value))
    else None
  }

  /** `skip = (page - 1) * pageSize`: the rows on the earlier pages. */
  function Skip(q: ListQuery): (k: int)
    requires ValidListQuery(q)
    ensures 0 <= k
    ensures q.page == 1 ==> k == 0
  {
    (q.page - 1) * q.pageSize
  }

  /** Consecutive pages are adjacent windows: page p + 1 starts where page p ends. */
  lemma NextPageFollows(q: ListQuery)
    requires ValidListQuery(q)
    ensures Skip(q.(page := q.page + 1)) == Skip(q) + q.pageSize
  {
  }

  /** Every row position lies on exactly one page: page i / pageSize + 1. */
  lemma PagesTile(q: ListQuery, i: int)
    requires ValidListQuery(q) && i >= 0
    ensures ValidListQuery(q.(page := i / q.pageSize + 1))
    ensures Skip(q.(page := i / q.pageSize + 1)) <= i < Skip(q.(page := i / q.pageSize + 1)) + q.pageSize
    ensures Skip(q) <= i < Skip(q) + q.pageSize <==> q.page == i / q.pageSize + 1
  {
    var n := q.pageSize;
    var k := i / n;
    var m := q.page - 1;
    DivBounds(i, n);
    assert Skip(q.(page := k + 1)) == k * n;
    assert Skip(q) == m * n;
    if m * n <= i < m * n + n {
      SameWindow(m, k, n, i);
    }
  }

  /** Position i is entry i % pageSize of page i / pageSize + 1. */
  lemma PositionOnPage(q: ListQuery, i: int)
    requires ValidListQuery(q) && i >= 0
    ensures ValidListQuery(q.(page := i / q.pageSize + 1))
    ensures 0 <= i % q.pageSize < q.pageSize
    ensures Skip(q.(page := i / q.pageSize + 1)) + i % q.pageSize == i
  {
    var n := q.pageSize;
    DivBounds(i, n);
    assert Skip(q.(page := i / n + 1)) == (i / n) * n;
    assert i == (i / n) * n + i % n;
  }

  /** The quotient's window holds the position. */
  lemma DivBounds(i: int, n: int)
    requires i >= 0 && n > 0
    ensures 0 <= i / n
    ensures (i / n) * n <= i < (i / n) * n + n
  {
    assert i == (i / n) * n + i % n && 0 <= i % n < n;
  }

  /** Two windows of width n holding the same position are the same window. */
  lemma SameWindow(m: int, k: int, n: int, i: int)
    requires n > 0
    requires m * n <= i < m * n + n && k * n <= i < k * n + n
    ensures m == k
  {
    if m < k {
      MulMonotone(m + 1, k, n);
    } else if k < m {
      MulMonotone(k + 1, m, n);
    }
  }

  lemma MulMonotone(a: int, b: int, n: int)
    requires a <= b && n >= 0
    ensures a * n <= b * n
    ensures (a - 1) * n + n == a * n
  {
    assert b * n - a * n == (b - a) * n;
  }
}
