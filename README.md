# Lean RPG: admin API, guards, health and tenant front end in Dafny

This project models the core of the Lean RPG platform, a multi-tenant
gamified lean-manufacturing training application. It covers the backend
and the front end separately.

The backend parts:

- the admin API's user management: listing, CSV export, deactivation,
  reactivation and role changes;
- the admin API's catalogue management: badge and achievement creation,
  update and guarded deletion;
- the query coercions behind these routes;
- the authentication and authorisation middleware;
- the central error handler;
- the health check;
- the level formula of `/me`.

The front-end parts:

- the tenant provider: slug extraction, the config cache in browser storage,
  the stored language, and loading with the in-flight guard;
- the two training games built on the tenant config: the audit checklist and
  the layered-process-audit (LPA) quiz.

The database is replaced by in-memory tables. Routes whose work is a
sequence of validations and a single write are pure functions from the old
table to a reply and a new table (`SetActiveOutcome`, `RoleOutcome`,
`DeleteOutcome`, `UpdateBadgeOutcome`). The classes `UserTable` and
`Catalog` hold the tables. Each of their methods is proved to produce
exactly that function's result. React state and `localStorage` are
classes whose methods update their fields. These are
`TenantProvider.Provider`, `TenantCache.LocalStorage`, `LpaGame.LpaQuiz`
and `AuditGame.AuditBoard`.

Cross-cutting facts are proved as lemmas:

- a delete never leaves a dangling reference;
- a status change touches one user of one tenant;
- the CSV export reads back as the header followed by one record per user;
- a cache entry set within its TTL is read back, and an expired one never is;
- guard chains pass exactly when every guard passes;
- toggling a checklist item twice restores it;
- the quiz score always counts the compliant answers given.

Modules:

| file | module | models |
|---|---|---|
| wrappers.dfy | Wrappers | `Option` with `??` (`GetOr`, `OrElse`) |
| text.dfy | Text | `split`/`join`, ASCII case conversion, `filter(Boolean)`, integer printing |
| csv.dfy | Csv | `toCsvValue` quoting (RFC 4180, section 2) and a reader for the round trip |
| admin_query.dfy | AdminQuery | zod coercions of ids, booleans and pagination |
| admin_users.dfy | AdminUsers | user routes of `admin.ts` |
| admin_catalog.dfy | AdminCatalog | badge and achievement routes of `admin.ts` |
| error_handler.dfy | ErrorHandler | `HttpError` and `errorHandler` |
| auth.dfy | Auth | `verifyToken`, `adminCheck`, `requireRole`, `requireTenantFeature` |
| health.dfy | Health | `GET /health` |
| levels.dfy | Levels | `calculateLevel` and `GET /me` |
| tenant_types.dfy | TenantTypes | the tenant config shape |
| tenant_slug.dfy | TenantSlug | the slug rule and `extractSlug` |
| tenant_cache.dfy | TenantCache | `cache.ts` |
| tenant_provider.dfy | TenantProvider | `TenantProvider` state and effects |
| lpa_game.dfy | LpaGame | `LPAGame` |
| audit_game.dfy | AuditGame | `AuditGame` |
| sequences.dfy | Sequences | order-keeping selection and `find` by id |

## Model

| member | source | states |
|---|---|---|
| AdminQuery.ParseNumericId | backend/src/routes/admin.ts:74-80 | an id is accepted iff it is a finite integer greater than zero; it is then returned unchanged and is at least 1 |
| AdminQuery.IntegerId | backend/src/routes/admin.ts:363-369 | the role route accepts any finite integer id, zero and negatives included, and returns it unchanged |
| AdminQuery.IdChecksDiffer | backend/src/routes/admin.ts:74-80 | the delete/reactivate id check is the role route's check plus positivity; an integer id ≤ 0 passes one and fails the other |
| AdminQuery.CoerceBoolean | backend/src/routes/admin.ts:16-22 | "true"/"false" in any ASCII case give true/false; a missing value defaults to false; any other value is rejected |
| AdminQuery.CoercePositiveInt | backend/src/routes/admin.ts:11-14 | a missing value takes the default; a given one is accepted iff it is a positive integer within the maximum, and is kept unchanged |
| AdminQuery.ParseListQuery | backend/src/routes/admin.ts:11-14 | the list query parses iff page, page size and the inactive flag all parse; the result has page ≥ 1 and 1 ≤ pageSize ≤ 100; an empty query gives page 1 and size 20 |
| AdminQuery.Skip | backend/src/routes/admin.ts:153 | the offset is non-negative and is 0 on page 1 |
| AdminQuery.NextPageFollows | backend/src/routes/admin.ts:153 | the next page starts exactly one page size after the current one |
| AdminQuery.PagesTile | backend/src/routes/admin.ts:153 | every row index lies on exactly one page: the page `i / pageSize + 1` |
| AdminUsers.SelectUsers | backend/src/routes/admin.ts:154-157 | the selection keeps the database's order (a subsequence of the table); each user of the tenant that is active, or any when inactive users are included, appears as often as in the table, and no other user appears |
| AdminUsers.ListUsers | backend/src/routes/admin.ts:131-189 | a bad query gives 400 "Invalid pagination"; a missing tenant gives 500; otherwise Ok, with the parsed page and pageSize echoed, the users being the page window of the selection, and the total counting every selected user |
| AdminUsers.PageWindow | backend/src/routes/admin.ts:160-164 | `skip`/`take`: entry i of the page is the selected user at position skip + i; pageSize of them, or as many as remain, none past the end |
| AdminUsers.ListedOnItsPage | backend/src/routes/admin.ts:131-189 | the selected user at position j is entry j % pageSize of page j / pageSize + 1, so every listed user is shown on a page (and on only that one, by `PagesTile`) |
| AdminUsers.ExportRow | backend/src/routes/admin.ts:232-242 | each user row has one cell per header column |
| AdminUsers.UsersCsv | backend/src/routes/admin.ts:231-244 | the CSV text parses back as the header record followed by each user's cell texts, in order |
| AdminUsers.FormatsAsRecords | backend/src/routes/admin.ts:231-244 | the header and the joined rows are exactly the formatted records |
| AdminUsers.ExportUsers | backend/src/routes/admin.ts:191-250 | a bad query gives 400 "Invalid export query"; a missing tenant gives 500; the export succeeds exactly when the flag parses and a tenant is present, and its body is the CSV of the selected users |
| AdminUsers.SetActiveEffect | backend/src/routes/admin.ts:252-348 | deactivate/reactivate: 400 "Invalid user id" for an id that is not a positive integer, 500 without a tenant, 404 exactly for a user outside the tenant, Ok exactly otherwise; a refusal changes nothing, and a success changes only that user's `isActive` |
| AdminUsers.RoleEffect | backend/src/routes/admin.ts:350-404 | role change: 400 "Invalid role payload" for a missing or unknown role, then 400 "Invalid user id" for a non-integer id, 500 without a tenant, 404 exactly for a user outside the tenant, Ok exactly otherwise; a refusal changes nothing, and a success changes only that user's role |
| AdminUsers.OtherTenantsUntouched | backend/src/routes/admin.ts:273-282 | a user of another tenant is never changed by these routes |
| AdminUsers.ReactivateUndoesDeactivate | backend/src/routes/admin.ts:252-348 | deactivating then reactivating an active user restores the table |
| AdminUsers.SetActiveIdempotent | backend/src/routes/admin.ts:252-348 | applying the same status change twice equals applying it once |
| AdminUsers.NonPositiveIdOnRoleRoute | backend/src/routes/admin.ts:363-388 | with positive ids in the table, an id ≤ 0 gets 404 on the role route but 400 on the status routes |
| AdminUsers.UserTable.constructor | backend/src/routes/admin.ts:252-404 | the table starts with the given rows, keyed by id |
| AdminUsers.UserTable.Deactivate | backend/src/routes/admin.ts:252-299 | reply and new rows are those of `SetActiveOutcome(…, false)`; rows stay keyed by id |
| AdminUsers.UserTable.Reactivate | backend/src/routes/admin.ts:301-348 | reply and new rows are those of `SetActiveOutcome(…, true)` |
| AdminUsers.UserTable.SetActive | backend/src/routes/admin.ts:252-348 | the shared status update, equal to `SetActiveOutcome` |
| AdminUsers.UserTable.ChangeRole | backend/src/routes/admin.ts:350-404 | reply and new rows are those of `RoleOutcome` |
| AdminCatalog.BadgeUpdateData | backend/src/routes/admin.ts:504-509 | a badge patch keeps the given fields, renames `xpBonus` to `xpReward` and `iconUrl` to `icon`, and leaves absent fields absent |
| AdminCatalog.BadgeUpdateFields | backend/src/routes/admin.ts:504-514 | an update changes exactly the fields the patch gives, keeping id and unlock type |
| AdminCatalog.EmptyBadgePatch | backend/src/routes/admin.ts:504-514 | an empty patch changes nothing |
| AdminCatalog.NewBadge | backend/src/routes/admin.ts:449-460 | a created badge carries the payload, unlock type "manual", an empty unlock condition `{}`, and an icon only when a non-null URL was given |
| AdminCatalog.AchievementUpdateData | backend/src/routes/admin.ts:667-673 | an achievement patch maps `trackingType` to both `trackingField` and `type`; the target value is an integer ≥ 1 |
| AdminCatalog.AchievementUpdateFields | backend/src/routes/admin.ts:667-678 | an update changes exactly the fields the patch gives |
| AdminCatalog.NewAchievement | backend/src/routes/admin.ts:614-623 | a created achievement carries the payload, with the tracking type in both fields |
| AdminCatalog.CountRefs | backend/src/routes/admin.ts:550-559 | the count of rows referring to an id is at most the number of rows, and is zero exactly when no row refers to the id |
| AdminCatalog.DeleteGuarded | backend/src/routes/admin.ts:521-569 | a delete keeps every reference valid; a refusal changes nothing; a success removes exactly that id, which no row referred to |
| AdminCatalog.UnguardedDeleteDangles | backend/src/routes/admin.ts:550-559 | without the count guard a referenced record's deletion would leave a dangling reference |
| AdminCatalog.UpdateBadgeScoped | backend/src/routes/admin.ts:467-519 | an update keeps the set of badges and every other badge; 404 iff the id is unknown; a refusal changes nothing |
| AdminCatalog.UpdateAchievementScoped | backend/src/routes/admin.ts:630-683 | the same for achievements |
| AdminCatalog.Catalog.constructor | backend/src/routes/admin.ts:428-733 | the catalogue holds the given badges, achievements, award rows and progress rows, each record keyed by its id and every row pointing at a stored record |
| AdminCatalog.Catalog.CreateBadge | backend/src/routes/admin.ts:428-465 | 400 for an invalid payload, 500 without a tenant; a valid payload with a tenant always succeeds with `NewBadge` under the next id, which is then advanced; other tables unchanged |
| AdminCatalog.Catalog.CreateAchievement | backend/src/routes/admin.ts:593-628 | 400 for an invalid payload, 500 without a tenant; a valid payload with a tenant always succeeds with `NewAchievement` under the next id, which is then advanced |
| AdminCatalog.Catalog.UpdateBadge | backend/src/routes/admin.ts:467-519 | reply and badges are those of `UpdateBadgeOutcome`; the rest unchanged |
| AdminCatalog.Catalog.UpdateAchievement | backend/src/routes/admin.ts:630-683 | reply and achievements are those of `UpdateAchievementOutcome` |
| AdminCatalog.Catalog.DeleteBadge | backend/src/routes/admin.ts:521-569 | reply and badges are those of the guarded delete; references stay valid |
| AdminCatalog.Catalog.DeleteAchievement | backend/src/routes/admin.ts:685-733 | reply and achievements are those of the guarded delete with the progress rows as references |
| Csv.ToCsvValue | backend/src/routes/admin.ts:82-88 | null prints empty; numbers and booleans print plain; a string is quoted exactly when it holds `"`, `,` or a newline |
| Csv.ParseFormatted | backend/src/routes/admin.ts:244 | a document of records joined by commas and newlines reads back as the same records |
| Csv.EscapeFieldRoundTrip | backend/src/routes/admin.ts:82-88 | an escaped field reads back as the original text |
| ErrorHandler.NewHttpError | backend/src/middleware/errorHandler.ts:4-13 | the status code defaults to 500; message and details are kept |
| ErrorHandler.HandleError | backend/src/middleware/errorHandler.ts:15-37 | validation errors give 400 with the issues; an `HttpError` gives its own status, message and details; anything else gives 500 "Internal server error" |
| ErrorHandler.HandleErrorCases | backend/src/middleware/errorHandler.ts:15-37 | exactly one body kind per error kind, with validation errors taking precedence |
| ErrorHandler.DefaultStatusReply | backend/src/middleware/errorHandler.ts:8-11 | an `HttpError` built without a status is answered with 500 |
| Auth.ExtractToken | backend/src/middleware/auth.ts:20-21 | the token is the second space-separated piece of the header, present iff it exists and is non-empty |
| Auth.TokenOfBearer | backend/src/middleware/auth.ts:20-21 | `<scheme> <token>` followed by anything yields that token |
| Auth.NoSpaceNoToken | backend/src/middleware/auth.ts:20-25 | a header without a space has no token |
| Auth.DoubleSpaceNoToken | backend/src/middleware/auth.ts:20-25 | two spaces after the scheme give an empty second piece, so no token |
| Auth.Authenticate | backend/src/middleware/auth.ts:19-43 | no token gives 401 "Missing token"; a token the verifier refuses gives 401 "Invalid token"; otherwise the claims become the user, without a tenant |
| Auth.VerifyToken | backend/src/middleware/auth.ts:19-43 | the request's user is set exactly when authentication succeeds, and is the authenticated user |
| Auth.AdminCheck | backend/src/middleware/auth.ts:45-55 | no user gives 401; the check passes iff the role is admin or superadmin, else 403 |
| Auth.RequireRole | backend/src/middleware/auth.ts:57-69 | no user gives 401; passes iff the role is listed, else 403 |
| Auth.RequireTenantFeature | backend/src/middleware/auth.ts:71-84 | no tenant gives 400; passes iff the tenant's flags (empty if absent) include the feature, else 403 |
| Auth.AdminCheckIsRequireRole | backend/src/middleware/auth.ts:45-69 | the admin check is the role guard with `["admin", "superadmin"]` |
| Auth.RequireRoleMonotone | backend/src/middleware/auth.ts:57-69 | widening the role list never turns a pass into a refusal |
| Auth.RunChain | backend/src/middleware/auth.ts:45-84 | a chain of guards passes iff every guard passes |
| Auth.ChainIdempotent | backend/src/middleware/auth.ts:45-84 | running a chain twice decides as running it once |
| Auth.ChainAppend | backend/src/middleware/auth.ts:45-84 | after a passing chain, the next chain alone decides |
| Auth.ChainStopsAtRefusal | backend/src/middleware/auth.ts:45-84 | the first refusal is the answer, whatever follows |
| Health.CheckQueue | backend/src/routes/health.ts:65-78 | a failed stats call reports a stopped queue with zero counts; otherwise running, with absent counts as 0 |
| Health.AggregateStatus | backend/src/routes/health.ts:103-109 | unhealthy iff both database and redis are down; healthy iff everything is up; degraded otherwise |
| Health.HttpStatusCode | backend/src/routes/health.ts:122 | 503 iff unhealthy, else 200 |
| Health.StatusMonotone | backend/src/routes/health.ts:103-109 | more failing components never improve the status |
| Health.QueueNeverUnhealthy | backend/src/routes/health.ts:103-109 | the queue alone never decides unhealthiness |
| Health.ReportCircuit | backend/src/routes/health.ts:96-101 | the breaker state is upper-cased; failures and last failure are copied |
| Health.CheckHealth | backend/src/routes/health.ts:89-123 | the report carries the probes, the queue state, the breaker report and the aggregated status, with the matching HTTP code |
| Health.CircuitIgnored | backend/src/routes/health.ts:96-122 | the breaker state never changes the status or the HTTP code |
| Health.QueueFailureDegrades | backend/src/routes/health.ts:65-78 | with database and redis up, a failed stats call gives "degraded" and 200 |
| Levels.CalculateLevel | backend/src/routes/users.ts:6-11 | the level is at least 1; for non-negative XP it is the 100-XP band the XP falls in, and the next threshold is level × 100 |
| Levels.LevelMonotone | backend/src/routes/users.ts:6-11 | more XP never lowers the level |
| Levels.LevelUnique | backend/src/routes/users.ts:6-11 | the band containing the XP determines the level |
| Levels.NextLevelStep | backend/src/routes/users.ts:6-11 | reaching the next threshold raises the level by exactly one |
| Levels.ReportedLevel | backend/src/routes/users.ts:32 | a stored level wins; otherwise the computed one |
| Levels.Me | backend/src/routes/users.ts:14-35 | 401 when signed out, 404 for an unknown user; the profile is returned exactly when signed in and found, with the stored email, name and role and the reported level |
| Levels.ComputedProfileConsistent | backend/src/routes/users.ts:24-33 | without a stored level, the profile's XP lies below its next-level threshold |
| TenantSlug.ExtractSlug | frontend/src/contexts/TenantProvider.tsx:25-32 | the slug is the segment after the first "tenant" segment, present iff that segment exists and matches `^[a-z0-9-]+$` |
| TenantSlug.FindTenant | frontend/src/contexts/TenantProvider.tsx:28 | the first index of "tenant", or -1 iff absent |
| TenantSlug.Segments | frontend/src/contexts/TenantProvider.tsx:27 | path segments are non-empty and contain no slash |
| TenantSlug.ExtractFromTenantPath | frontend/src/contexts/TenantProvider.tsx:25-32 | `/tenant/<slug>` with any suffix yields the slug |
| TenantSlug.SelectSlug | frontend/src/contexts/TenantProvider.tsx:57-58 | an explicit slug wins over the one taken from the path |
| TenantSlug.DerivedSlugUsable | frontend/src/contexts/TenantProvider.tsx:57-59 | a slug taken from the path always passes the validity check |
| TenantCache.ConfigKeyInjective | frontend/src/lib/cache.ts:17 | different slugs have different cache keys |
| TenantCache.KeysDisjoint | frontend/src/lib/cache.ts:17 | a config key is never a language key |
| TenantCache.GetCachedConfig | frontend/src/lib/cache.ts:10-25 | the cached config is returned iff storage works and holds a parseable entry for the slug younger than its TTL |
| TenantCache.SetCachedConfig | frontend/src/lib/cache.ts:27-38 | writes the slug's entry stamped with the time and a five-minute TTL; failing storage is left unchanged |
| TenantCache.ClearCachedConfig | frontend/src/lib/cache.ts:40-46 | removes the slug's entry; failing storage is left unchanged |
| TenantCache.SetThenGet | frontend/src/lib/cache.ts:10-38 | a config set less than the TTL ago is read back |
| TenantCache.SetThenGetExpired | frontend/src/lib/cache.ts:10-38 | one set the TTL or more ago is not |
| TenantCache.OtherSlugsUnchanged | frontend/src/lib/cache.ts:15-46 | writing or clearing one slug never changes another slug's read |
| TenantCache.LanguageUntouched | frontend/src/lib/cache.ts:27-46 | the cache never changes a language entry |
| TenantCache.ClearThenGet | frontend/src/lib/cache.ts:15-46 | after a clear nothing is read |
| TenantCache.ExpiredStaysExpired | frontend/src/lib/cache.ts:10-13 | once expired, an entry stays expired |
| TenantCache.LocalStorage.constructor | frontend/src/lib/cache.ts:15-46 | storage starts with the given items and availability |
| TenantProvider.ReadLanguage | frontend/src/contexts/TenantProvider.tsx:34-43 | the stored language for a non-empty slug; nothing without a slug or when storage fails |
| TenantProvider.ChooseLanguage | frontend/src/contexts/TenantProvider.tsx:67-80 | a non-empty stored language wins, then the config's language, else the language is unchanged |
| TenantProvider.PersistThenRead | frontend/src/contexts/TenantProvider.tsx:34-53 | a persisted language is read back |
| TenantProvider.CacheWriteKeepsLanguage | frontend/src/contexts/TenantProvider.tsx:34-43 | cache writes and clears never change the language read back |
| TenantProvider.LanguageWriteKeepsCache | frontend/src/contexts/TenantProvider.tsx:45-53 | persisting a language never changes a cached config |
| TenantProvider.Provider.constructor | frontend/src/contexts/TenantProvider.tsx:55-65 | the slug is the selected slug; no config, no error, not loading, language "en" |
| TenantProvider.Provider.LoadLanguage | frontend/src/contexts/TenantProvider.tsx:67-80 | the language becomes `ChooseLanguage` of the language stored under the provider's slug or the config's slug |
| TenantProvider.Provider.LoadConfig | frontend/src/contexts/TenantProvider.tsx:82-103 | an unusable slug sets the slug error; an in-flight load changes nothing; a cache hit shows the config and ends loading; a miss starts a fetch |
| TenantProvider.Provider.CompleteFetch | frontend/src/contexts/TenantProvider.tsx:105-118 | a fetched config is shown, cached and its language loaded; a failure clears the config and sets the error; loading ends either way |
| TenantProvider.Provider.RefreshConfig | frontend/src/contexts/TenantProvider.tsx:138-142 | for a usable slug, the cached entry is dropped and a load bypassing the cache starts (unless one is in flight); the language never changes, and unusable storage is left as it was |
| TenantProvider.Provider.SetLanguage | frontend/src/contexts/TenantProvider.tsx:144-150 | the language is shown at once and persisted under the exposed slug |
| TenantProvider.Provider.Mount | frontend/src/contexts/TenantProvider.tsx:123-136 | an unusable slug sets the error and changes nothing else; otherwise a stored language is shown first, then a load already in flight is left alone, a valid cache entry is shown at once with loading ended, and without one a fetch starts |
| TenantProvider.UnusableSlugNeverFetches | frontend/src/contexts/TenantProvider.tsx:84-88 | with an unusable slug, mount, load and refresh never start a fetch |
| TenantProvider.CacheHitCompletes | frontend/src/contexts/TenantProvider.tsx:96-103 | a load that finds a valid cache entry ends at once with that config |
| TenantProvider.InFlightGuard | frontend/src/contexts/TenantProvider.tsx:90-118 | a second load while one is in flight changes nothing, and loading ends when the first completes |
| LpaGame.CountCompliant | frontend/src/components/LPAGame.tsx:45-49 | the compliant count never exceeds the number of answers; it is the full count exactly when every answer is "Compliant" and zero exactly when none is |
| LpaGame.CountCompliantConcat | frontend/src/components/LPAGame.tsx:45-51 | counting distributes over appending answers |
| Sequences.FindById | frontend/src/components/LPAGame.tsx:21-24 | `find` by id, as both games use it (`LpaGame.FindAudit`, `AuditGame.FindTemplate`): the FIRST element carrying the id, none iff the id is absent or no element carries it |
| LpaGame.LpaQuiz.constructor | frontend/src/components/LPAGame.tsx:13-19 | nothing selected, no answers, score 0 |
| LpaGame.LpaQuiz.ResetAudit | frontend/src/components/LPAGame.tsx:26-32 | clears the selection and all progress |
| LpaGame.LpaQuiz.StartAudit | frontend/src/components/LPAGame.tsx:34-40 | selects the template and starts from question 0 with no answers |
| LpaGame.LpaQuiz.HandleAnswer | frontend/src/components/LPAGame.tsx:42-70 | appends the answer, adds one for a compliant answer, then advances or reports the score out of the question count; the score stays the compliant count |
| AuditGame.FilteredAudits | frontend/src/components/AuditGame.tsx:20-27 | the filtered list keeps order, holds exactly the templates matching both filters, each as often as in the full list, and is the whole list when both are "all" |
| AuditGame.Categories | frontend/src/components/AuditGame.tsx:163 | each template category appears exactly once |
| AuditGame.Put | frontend/src/components/AuditGame.tsx:37 | setting a key stores the value, changes no other key and keeps keys distinct |
| AuditGame.Toggle | frontend/src/components/AuditGame.tsx:44-46 | toggling flips the item's checked state and changes no other item |
| AuditGame.ToggleTwice | frontend/src/components/AuditGame.tsx:44-46 | toggling twice restores every item's checked state, and the record itself when the key existed |
| AuditGame.InitialStatus | frontend/src/components/AuditGame.tsx:36-39 | one entry per item id, in order of the ids' first occurrence; its value is whether the last item with that id is "done" |
| AuditGame.CompletedCount | frontend/src/components/AuditGame.tsx:48-50 | the completed count never exceeds the number of entries and is zero exactly when no entry is done |
| AuditGame.CountMatchesPayload | frontend/src/components/AuditGame.tsx:48-58 | the progress count equals the length of the submitted item list |
| AuditGame.CompletedItemsExact | frontend/src/components/AuditGame.tsx:56-58 | an id is submitted iff it is marked done |
| AuditGame.ToggleCount | frontend/src/components/AuditGame.tsx:44-50 | each toggle moves the completed count by exactly one |
| AuditGame.AuditBoard.constructor | frontend/src/components/AuditGame.tsx:13-18 | nothing selected, both filters "all", no item status, no feedback |
| AuditGame.AuditBoard.StartAudit | frontend/src/components/AuditGame.tsx:31-42 | selects the id and clears feedback; a known template resets the checklist from its items, an unknown id keeps the old one |
| AuditGame.AuditBoard.ToggleItem | frontend/src/components/AuditGame.tsx:44-46 | the checklist becomes `Toggle` of the old one |
| AuditGame.AuditBoard.BackToList | frontend/src/components/AuditGame.tsx:100 | only the selection is cleared |
| AuditGame.AuditBoard.SetDifficultyFilter | frontend/src/components/AuditGame.tsx:179 | sets the difficulty filter |
| AuditGame.AuditBoard.SetCategoryFilter | frontend/src/components/AuditGame.tsx:194 | sets the category filter |
| AuditGame.AuditBoard.CompleteAudit | frontend/src/components/AuditGame.tsx:52-72 | without a selection nothing happens; otherwise the payload lists exactly the ids marked done, and the feedback reports the XP or the error message (default "Failed to save audit results") |

## Left out

- The database is replaced by in-memory maps and link lists. Query ordering (`orderBy: createdAt desc`) is a parameter: `ordered` is the rows already in that order.
- The quest routes, the statistics route and the list routes for badges and achievements in `admin.ts` are not modelled. They are reads that pass database results through.
- `tenantContext` and `requireTenantContext` are not part of this model. The tenant id is a parameter, and a missing one takes the 500 path the routes themselves contain.
- JWT signature checking is a parameter `verify` of `Authenticate`. `jsonwebtoken` is not part of this model.
- `backend/src/middleware/errors.js` is not part of this model. `HttpError` in `auth.ts` is taken to be the class in `errorHandler.ts`.
- `Number(raw)` string parsing is not modelled: ids and page numbers arrive as the number JavaScript would produce (`JsNumber`: finite or not).
- Health.ReportCircuit: `toUpperCase` is ASCII-only. A breaker state with non-ASCII letters would be upper-cased by JavaScript but is kept as it is here.
- Text.IntToString: `String(n)` is plain decimal for every integer, whereas JavaScript writes magnitudes from 1e21 on in exponent notation ("1e+21"). An exported `totalXp` or id of that size is not modelled as JavaScript would print it.
- AdminQuery.CoerceBoolean: `toLowerCase` is ASCII-only. This is exact for the comparison against "true" and "false", since no non-ASCII letter lower-cases into them.
- Floating-point values are left out: XP percentages, the LPA XP rounding, memory figures and latencies. Latencies are values inside `Probe`.
- The text of the LPA result message and of the audit "Earned … XP" feedback is left out. They are kept as the numbers they show.
- Health probes are not modelled: database, redis and queue statistics arrive as results. So do the circuit breaker's snapshot, the timestamp and the uptime.
- `fetch` is not modelled, and neither is the asynchronous interleaving. A pending fetch is modelled as `LoadConfig` returning `pending` followed by `CompleteFetch`; other interleavings are not modelled.
- TenantProvider.Provider: `tenantSlug` is fixed when the provider is built, whereas in the source it follows the pathname. What a slug change does is therefore not modelled. The in-flight flag survives the change, so a load for the new tenant started while the old fetch is pending is dropped, and the old tenant's config is then shown.
- The LPA answer POST is left out: it never changes the quiz state.
- TenantProvider.ReadLanguage: a value stored as a cache entry under a language key reads as absent rather than as its JSON text. Such a value can never be written there (`TenantCache.KeysDisjoint`).
- AuditGame.InitialStatus: the record is an insertion-ordered entry list. JavaScript lists integer-like keys first in ascending order, which changes only the order of `completedItems`, not its contents.
- AdminCatalog.BadgePayload and AdminCatalog.AchievementPayload: each field is already of its schema's type (a string, a number, or `null` for the icon). A body that is not a JSON object, or a field of the wrong JSON type (`"code": 5`, `"name": null`), gets a 400 from the schema in the source, but it cannot be written as a payload here and is not modelled.
- LpaGame.LpaQuiz and AuditGame.AuditBoard: the template list is fixed when the component is built (`audits`). The source re-reads it from the tenant config on every render, so a config refresh that drops the selected template, and shows "no template" or the list again, is not modelled.
- The `typeof window === "undefined"` server-rendering checks are left out. Storage availability is the `available` flag.
- Csv.ToCsvValue: a carriage return alone does not force quoting, exactly as in the source. The reader only needs to read what the writer wrote.
- `Date.toISOString()` of `createdAt` is taken as already-formatted text, which never contains `"`, `,` or a newline.
- Rendering, styling and navigation are left out.

## Notes

- `GET /me` looks up `req.user.id`, while `verifyToken` sets `req.user.userId`. `Me` takes the looked-up user as a parameter, so the model does not depend on which field is used.
- The role route accepts any integer id (`AdminQuery.IntegerId`), while the other user routes require a positive one (`AdminQuery.ParseNumericId`). `AdminUsers.NonPositiveIdOnRoleRoute` states the resulting difference in replies.
- A category literally named "all" cannot be selected on its own: "all" means no filter.
