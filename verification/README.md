# Dance academy: a verified model of the decision logic

The dance academy application (Next.js, Prisma, next-auth) lets parents
("tutores") follow their children's attendance, evaluations and payments, and
lets teachers ("maestros") record attendance and evaluations ("pautas"). This
project models the decision logic of that application in Dafny and proves
what it promises:

- the route handlers under `app/api/`: the role gates; the point award of an
  evaluation and the increment of one student's `puntos`; the attendance
  upsert (at most one record per student, class and day); the payment status
  derivation and the pay action; the attendance percentage and the ownership
  filter of a tutor's children;
- the tier and trend classification of `components/StudentCard.tsx`;
- `getDaysUntil` and `getRelativeTime` of `lib/utils.ts`;
- the redirect of the site root (`app/page.tsx`);
- the credential check of `lib/auth.ts` and its `jwt` and `session` callbacks.

The database is an in-memory `Store.Db` object whose tables are sequences of
row datatypes (`Estudiante`, `Asistencia`, `Pago`, `Pauta`). Its invariant
says that ids are primary keys and that the autoincrement counters stay above
every id. Handlers that write are module-level methods that take the `Db`
object as a parameter and modify its tables. They state their
whole new state through pure functions of the old tables (`IncrementPuntos`,
`Upsert`, `MarkPaid`), and the properties are proved about those functions.
Handlers that only read are functions of the tables.

Dates are integer millisecond timestamps. The clock and the local midnights
are parameters: `now`, `today`, `tomorrow`, `todayUtc`. The session is a
parameter too: `None` when there is no session. Its `user` fields are
optional strings, as the session callback leaves them.

A handler's answer is a `Common.Response`:
- `Ok(body)` is status 200;
- `Unauthorized` is 401 "No autorizado";
- `InternalError` is the 500 "Error interno del servidor" of each handler's
  `catch`.

The model raises `InternalError` wherever Prisma would throw:
- `parseInt(session.user.id)` is NaN where a query or a create needs it;
- a create names a student that does not exist (a foreign-key violation);
- an update names an id that does not exist.

In each of these cases the store is left unchanged.

`parseInt` and `Number.prototype.toString` on ids are modelled in
`Numerals`. `Numerals.ParseDecimalString` proves that the id text written at
sign-in parses back to the stored id. The composition of the sign-in
callbacks (`Auth.SignIn`) carries that fact to the session every handler
reads.

Modules, one per source file of the core, plus shared ones:
- `Options`, `Numerals`, `Common`, `Seqs`, `Store`: shared values, list
  operations and the store;
- `PautasRoute`, `AsistenciasRoute`, `PagosRoute`, `EstudiantesRoute`: the
  four route handlers;
- `StudentCard`, `Utils`, `RootPage`, `Auth`: the card helpers, the date
  helpers, the root redirect and authentication.

Decisions the code makes that the model keeps:
- The role checks in the POST handlers are enforced. The POST handlers of
  `app/api/pautas` and `app/api/asistencias` answer 401 to any role other
  than `maestro`. An authorization failure in an API handler is a 401
  answer, not a redirect; of the modelled files only the site root
  redirects.
- The award conditions compare with the literal values the code uses
  (`disciplina === 5`, `participacion >= 8`, `progreso === 'sobresaliente'`,
  `uniforme === 'completo'`).
- The pauta is created before the points are incremented. The two steps are
  not one transaction.

## Model

| member | source | states |
|---|---|---|
| PautasRoute.Bonuses | app/api/pautas/route.ts:57-61 | an evaluation has exactly four bonuses, in the handler's order: 20 iff disciplina = 5, 15 iff participacion ≥ 8, 30 iff progreso = 'sobresaliente', 5 iff uniforme = 'completo', and 0 otherwise |
| PautasRoute.PointsToAdd | app/api/pautas/route.ts:57-61 | the four sequential `if`s accumulating `pointsToAdd` compute exactly the award, the sum of the bonuses |
| PautasRoute.Award | app/api/pautas/route.ts:57-61 | the award, the total of the bonuses, is 20·[disciplina = 5] + 15·[participacion ≥ 8] + 30·[progreso = 'sobresaliente'] + 5·[uniforme = 'completo'] |
| PautasRoute.AwardBounds | app/api/pautas/route.ts:57-61 | the award lies in 0..70; it is 70 iff all four conditions hold and 0 iff none holds |
| PautasRoute.AwardExamples | app/api/pautas/route.ts:57-61 | four concrete evaluations score 70, 0, 20 and 50 |
| PautasRoute.SumPermutation | app/api/pautas/route.ts:57-61 | a sum of bonuses does not depend on the order of its terms |
| PautasRoute.AwardOrderIndependent | app/api/pautas/route.ts:57-61 | testing the four conditions in any order gives the same award |
| PautasRoute.IncrementPuntos | app/api/pautas/route.ts:64-71 | the update by id keeps the table's length and every row's id, so the table stays keyed as before (its contents are stated by IncrementPuntosAt) |
| PautasRoute.IncrementPuntosAt | app/api/pautas/route.ts:64-71 | after the increment, the row at each position is the old row, with `puntos + n` when its id is the target |
| PautasRoute.IncrementOnlyTarget | app/api/pautas/route.ts:64-71 | the increment keeps the table's length; students with another id are unchanged; the target changes only in `puntos`, by exactly n |
| PautasRoute.IncrementByZero | app/api/pautas/route.ts:63-72 | an increment by 0 leaves the table as it is, so skipping the update for a zero award loses nothing |
| PautasRoute.IncrementTwice | app/api/pautas/route.ts:64-71 | two increments add up (a + b): repeating the update is not idempotent |
| PautasRoute.IncrementAbsent | app/api/pautas/route.ts:64-71 | the by-id update function leaves a table without that id unchanged; a fact IncrementTotal uses for the rows after the target (the handler itself never updates a missing id: it answers 500 before, as Prisma's `update` would throw) |
| PautasRoute.IncrementTotal | app/api/pautas/route.ts:64-71 | with distinct ids and an existing target, the points of all students together grow by exactly n |
| PautasRoute.UpdateRowIsIncrement | app/api/pautas/route.ts:64-71 | updating the target's row in place is the update by id, because ids are distinct |
| PautasRoute.CreatePauta | app/api/pautas/route.ts:41-54 | `pauta.create` appends exactly the new pauta (next id, `fecha` now, the submitted fields, the given teacher as `maestroId`) and advances the counter, keeping ids distinct |
| PautasRoute.UpdatePuntos | app/api/pautas/route.ts:64-71 | the in-place update of the target's row leaves the table equal to the increment by id, keeping ids distinct |
| PautasRoute.AwardPoints | app/api/pautas/route.ts:56-72 | the points added are the award, and the table becomes the increment of the target by the award (no write when it is 0) |
| PautasRoute.Post | app/api/pautas/route.ts:30-79 | 401 iff there is no session or the role is not 'maestro', with nothing changed; 500 and nothing changed for a NaN session id or an unknown student; otherwise exactly one pauta is appended (maestroId = session user), only the target's points grow by the award, the other tables are untouched, and the answer carries the pauta and `pointsAwarded` = the award |
| PautasRoute.Recent | app/api/pautas/route.ts:19-20 | `orderBy` fecha desc then `take: n` lists min(n, all) of the stored pautas (a sub-multiset), newest first |
| PautasRoute.RecentAreNewest | app/api/pautas/route.ts:19-20 | no pauta left out of the list is newer than one listed |
| PautasRoute.Get | app/api/pautas/route.ts:6-28 | 401 iff there is no session; otherwise at most 20 stored pautas in descending `fecha` |
| AsistenciasRoute.FindOnDay | app/api/asistencias/route.ts:69-78 | the search finds the first record of the student and class dated in [today, tomorrow), or reports that there is none |
| AsistenciasRoute.CountZeroIffNotFound | app/api/asistencias/route.ts:69-80 | the search finds nothing exactly when there is no record for that student, class and day |
| AsistenciasRoute.CountAfterUpdate | app/api/asistencias/route.ts:82-85 | changing a record's `estado` does not change how many records a student has for a class and day |
| AsistenciasRoute.CountAfterAppend | app/api/asistencias/route.ts:89-96 | appending a record adds one to that count exactly when the record falls in the window |
| AsistenciasRoute.Upsert | app/api/asistencias/route.ts:80-97 | a repeat submission keeps the table's length; a first one adds exactly one record |
| AsistenciasRoute.UpsertCount | app/api/asistencias/route.ts:69-97 | when the clock lies in today's window, the POST leaves exactly one record for the student and class if there was none, and as many as before otherwise |
| AsistenciasRoute.UpsertTouchesOneRecord | app/api/asistencias/route.ts:80-97 | only the matched record changes, and only in `estado`; without a match the old records keep their places and the new one (next id, `now`, the submitted fields, the teacher's id) is last |
| AsistenciasRoute.UpdateEstado | app/api/asistencias/route.ts:82-85 | `asistencia.update` changes only the record at the found position, only in `estado`, and keeps ids distinct |
| AsistenciasRoute.CreateAsistencia | app/api/asistencias/route.ts:89-96 | `asistencia.create` appends exactly one record (next id, `now`, the submitted fields, the teacher) and advances the counter |
| AsistenciasRoute.Post | app/api/asistencias/route.ts:52-103 | 401 iff there is no session or the role is not 'maestro', with nothing changed; a repeat submission updates the matched record's `estado` in place and answers that updated record; a first submission appends one record (next id, `now`, the submitted fields, the session user as `maestroId`) and answers it (500 and nothing changed when the id is NaN or the student unknown); the one-record-per-day count is kept |
| AsistenciasRoute.ClaseOrDefault | app/api/asistencias/route.ts:15 | a missing or empty `clase` parameter falls back to 'Ballet Intermedio - Grupo A'; any other value is used as given |
| AsistenciasRoute.RowFor | app/api/asistencias/route.ts:37-45 | a roster entry carries the student's id, names, photo, specialty and level unchanged |
| AsistenciasRoute.RowAttendanceIsFirst | app/api/asistencias/route.ts:24-44 | an entry has no record iff the student has none for the class in [day, day + 24h); otherwise it is the first such record |
| AsistenciasRoute.RowIsHeadOfIncluded | app/api/asistencias/route.ts:44 | the entry's record is the head of the records the query includes, or null when it includes none |
| AsistenciasRoute.Rows | app/api/asistencias/route.ts:37-45 | the map gives one entry per student, in order |
| AsistenciasRoute.Get | app/api/asistencias/route.ts:6-50 | 401 iff there is no session; otherwise one entry per Ballet/Intermedio student, all of them Ballet/Intermedio, each with that day's record of the requested class |
| PagosRoute.WithStatus | app/api/pagos/route.ts:23-30 | a paid payment is shown as stored; an unpaid one due strictly before now is shown as 'vencido'; any other keeps its estado; no other field ever changes |
| PagosRoute.WithStatusIdempotent | app/api/pagos/route.ts:23-30 | deriving the status twice gives the same as once |
| PagosRoute.OverdueStaysOverdue | app/api/pagos/route.ts:25-28 | a payment shown overdue stays overdue at every later time |
| PagosRoute.WithStatuses | app/api/pagos/route.ts:23-30 | the map keeps length and order and derives each payment's status |
| PagosRoute.OwnedBy | app/api/pagos/route.ts:14-17 | exactly the payments whose `tutorId` is the given tutor are kept |
| PagosRoute.Statement | app/api/pagos/route.ts:14-30 | the statement has as many entries as the tutor has payments, all of that tutor, in ascending `fechaVenc` |
| PagosRoute.StatementComplete | app/api/pagos/route.ts:14-30 | every payment of the tutor appears, with its status as of now |
| PagosRoute.StatementSound | app/api/pagos/route.ts:14-30 | every entry is a payment of the tutor with its status as of now |
| PagosRoute.Get | app/api/pagos/route.ts:6-37 | 401 iff there is no session; 500 iff the session id is NaN; otherwise the tutor's statement |
| PagosRoute.MarkPaid | app/api/pagos/route.ts:51-54 | the update sets the payment with the given id to 'pagado' and leaves every other payment as it is |
| PagosRoute.MarkPaidIdempotent | app/api/pagos/route.ts:51-54 | paying twice is paying once |
| PagosRoute.PaidIsShownPaid | app/api/pagos/route.ts:24-54 | after the update the paid payment is shown as 'pagado' at any time, and every other payment is shown as before |
| PagosRoute.UpdateRowIsMarkPaid | app/api/pagos/route.ts:51-54 | updating the row in place is the update by id, because ids are distinct |
| PagosRoute.Post | app/api/pagos/route.ts:39-61 | 401 iff there is no session; 500 and nothing changed for an unknown id; otherwise exactly that payment becomes 'pagado', whoever owns it |
| EstudiantesRoute.Percentage | app/api/estudiantes/route.ts:37-39 | the percentage lies in 0..100; it is 0 with no records; otherwise it is the integer r with r − ½ ≤ 100·presentes/total < r + ½, halves rounded up |
| EstudiantesRoute.PercentageUnique | app/api/estudiantes/route.ts:37-39 | that rounding condition has exactly one solution |
| EstudiantesRoute.PercentageExtremes | app/api/estudiantes/route.ts:37-39 | attending all classes gives 100; attending none gives 0 |
| EstudiantesRoute.PercentageMonotone | app/api/estudiantes/route.ts:35-39 | more classes attended never lower the percentage |
| EstudiantesRoute.RecentAsistencias | app/api/estudiantes/route.ts:19-25 | a student's included records are exactly theirs dated at or after now − 30 days |
| EstudiantesRoute.RecentIgnoresOthers | app/api/estudiantes/route.ts:19-25 | a record of another student, or one older than 30 days, does not change a student's included records |
| EstudiantesRoute.Presentes | app/api/estudiantes/route.ts:36 | exactly the records with estado 'presente' count as present |
| EstudiantesRoute.AttendancePercentage | app/api/estudiantes/route.ts:35-39 | the figure lies in 0..100, is 0 for no records, and otherwise rounds the share of 'presente' records to the nearest percent |
| EstudiantesRoute.AttendanceExtremes | app/api/estudiantes/route.ts:35-39 | all records 'presente' gives 100; none 'presente' gives 0 |
| EstudiantesRoute.PautasOf | app/api/estudiantes/route.ts:27-30 | exactly the pautas of the given student are considered |
| EstudiantesRoute.StatsFor | app/api/estudiantes/route.ts:34-53 | id, names, photo, specialty, level and `puntos` pass through unchanged; the attendance figure lies in 0..100, is 0 when the student has no record in the last 30 days, and otherwise rounds the share of 'presente' among those records to the nearest percent |
| EstudiantesRoute.StatsIgnoreOthers | app/api/estudiantes/route.ts:19-25 | a record of another student, or one older than 30 days, leaves a student's entry unchanged |
| EstudiantesRoute.StatsAttendanceExtremes | app/api/estudiantes/route.ts:19-39 | a student with records in the last 30 days, all 'presente', shows 100; one with none 'presente' there shows 0 |
| EstudiantesRoute.StatsPautas | app/api/estudiantes/route.ts:27-30 | the shown pautas are at most five, all of that student, newest first, and none left out is newer |
| EstudiantesRoute.ChildrenOf | app/api/estudiantes/route.ts:14-17 | exactly the students whose `tutorId` is the given tutor are kept |
| EstudiantesRoute.AllStats | app/api/estudiantes/route.ts:34-53 | the map gives one entry per student, in order |
| EstudiantesRoute.Get | app/api/estudiantes/route.ts:6-60 | 401 iff there is no session; 500 iff the session id is NaN; otherwise one entry per student of the tutor, in table order |
| EstudiantesRoute.GetShowsOnlyOwnChildren | app/api/estudiantes/route.ts:14-17 | a tutor never receives an entry for another tutor's student |
| StudentCard.GetLevel | components/StudentCard.tsx:20-24 | 'Oro' iff puntos ≥ 1000, 'Plata' iff 500 ≤ puntos < 1000, 'Bronce' iff puntos < 500 |
| StudentCard.GetLevelMonotone | components/StudentCard.tsx:20-24 | more points never give a lower tier |
| StudentCard.LevelNamesDistinct | components/StudentCard.tsx:21-23 | the three tiers have distinct names and distinct colours |
| StudentCard.TrendOf | components/StudentCard.tsx:28 | 'up' iff asistencia ≥ 90, 'stable' iff 70 ≤ asistencia < 90, 'down' iff asistencia < 70 |
| StudentCard.TrendMonotone | components/StudentCard.tsx:28 | a higher percentage never gives a worse trend |
| StudentCard.AttendanceColor | components/StudentCard.tsx:79-80 | green iff asistencia ≥ 90, yellow iff 70 ≤ asistencia < 90, red iff asistencia < 70 |
| StudentCard.ColorAgreesWithTrend | components/StudentCard.tsx:79-80 | the colour is the trend's colour for every percentage: both use the same thresholds |
| StudentCard.ShowsTrendIcon | components/StudentCard.tsx:84-86 | the rising-trend icon is drawn iff asistencia ≥ 90 |
| Utils.CeilDiv | lib/utils.ts:36 | the result q is the ceiling of x / d: (q − 1)·d < x ≤ q·d |
| Utils.DaysUntil | lib/utils.ts:32-37 | the day count d satisfies (d − 1)·86400000 < target − now ≤ d·86400000 |
| Utils.DaysUntilUnique | lib/utils.ts:32-37 | that bracket has exactly one solution |
| Utils.DaysUntilMonotone | lib/utils.ts:32-37 | a later target is never fewer days away |
| Utils.DaysUntilWholeDays | lib/utils.ts:32-37 | a target exactly k days ahead is k days away |
| Utils.Classify | lib/utils.ts:40-46 | the branches partition the integers: "Hace −d días" iff d < 0, "Hoy" iff d = 0, "Mañana" iff d = 1, days iff 2 ≤ d < 7, weeks iff 7 ≤ d < 30 (a count of 1..5, the ceiling of d/7), months iff d ≥ 30 (a count ≥ 1, the ceiling of d/30) |
| Utils.Render | lib/utils.ts:41-46 | only the today phrase reads "Hoy" and only the tomorrow phrase reads "Mañana" |
| Utils.RenderCounted | lib/utils.ts:41-46 | a counted phrase reads prefix, decimal count, suffix |
| Utils.RenderInjective | lib/utils.ts:41-46 | different phrases never produce the same text, so the text determines the bucket and the count |
| Utils.RelativeTime | lib/utils.ts:39-47 | "Hoy" iff the target is within the day before now; "Mañana" iff within the day after; a target a day or more back reads "Hace n días" with n its whole days back |
| RootPage.RootRedirect | app/page.tsx:5-18 | '/login' iff there is no session; '/asistencia' iff the role is 'maestro'; '/home' for any other session; always exactly one of the three |
| Auth.UserOf | lib/auth.ts:33-39 | the signed-in user's id is the decimal text of the stored id and parses back to it; email, name, role and avatar come from the row |
| Auth.Authorize | lib/auth.ts:14-40 | missing or empty credentials iff 'Por favor ingresa email y contraseña'; otherwise an unknown email iff 'Usuario no encontrado'; otherwise a failed comparison iff 'Contraseña incorrecta'; otherwise the user built from the looked-up row |
| Auth.MissingCredentialsBeforeLookup | lib/auth.ts:15-21 | missing credentials are rejected whatever the lookup and the comparison would say |
| Auth.UnknownEmailBeforeComparison | lib/auth.ts:19-31 | an unknown email is rejected whatever the comparison would say |
| Auth.Jwt | lib/auth.ts:44-51 | with a user, the token's role, id and avatar become the user's; without one the token is unchanged; name and email are never touched |
| Auth.SessionCallback | lib/auth.ts:52-59 | when the session has a user, its role, id and avatar become the token's and its name and email stay; without a user nothing changes |
| Auth.SignIn | lib/auth.ts:33-59 | after sign-in the session's id parses to the stored user id, the teacher check holds iff the stored role is 'maestro', and the avatar is the stored one |
| Numerals.DecimalString | lib/auth.ts:34 | the text of a number is a non-empty run of digits with no leading zero |
| Numerals.ParseInt | app/api/pagos/route.ts:16 | parseInt gives a number iff, after an optional sign, the text starts with a digit |
| Numerals.ParseDecimalString | lib/auth.ts:34 | parseInt of n.toString() is n |
| Numerals.DecimalStringInjective | lib/auth.ts:34 | distinct ids have distinct texts |
| Common.SessionUserIdOfDecimal | app/api/pagos/route.ts:16 | a session whose id is the text of n parses to n |
| Seqs.Filter | app/api/estudiantes/route.ts:36 | `filter` and a Prisma `where` keep exactly the elements that satisfy the predicate, and never more than there were |
| Seqs.FilterCounts | app/api/estudiantes/route.ts:36 | every element that satisfies the predicate is kept as many times as it occurs, and no other element is kept; this fixes the lengths that `presentes`, `total` and the owned lists are counted from |
| Seqs.FilterKeepsOrder | app/api/estudiantes/route.ts:36 | filtering keeps order: what is kept before an element comes before it (when it is kept), and what is kept after it comes after |
| Seqs.SortBy | app/api/pagos/route.ts:18 | `orderBy` gives a permutation of the rows, sorted by the key |
| Seqs.Take | app/api/pautas/route.ts:20 | `take: n` gives the first min(n, length) rows |
| Seqs.FirstOfFilter | app/api/asistencias/route.ts:44 | the head of a filtered list is the first matching element, and the filtered list is empty iff nothing matches |
| Seqs.TakeSortedIsSmallest | app/api/pautas/route.ts:19-20 | after ordering and `take`, nothing left out ranks before anything taken |
| Store.IndexOfEstudiante | app/api/pautas/route.ts:64-65 | the lookup by id finds the student with that id, or reports that none has it |
| Store.IndexOfPago | app/api/pagos/route.ts:51-53 | the lookup by id finds the payment with that id, or reports that none has it |

## Left out

- Prisma, HTTP and JSON are not modelled. The tables are sequences; request bodies are datatypes; answers are `Response` values. Relation `include`s (`estudiante`, `maestro` in the pautas GET, `logros` in the estudiantes GET) are not carried in the answers. The pagos POST answers the paid row rather than `{ success: true, pago }`.
- JSON coercions are not modelled. A body field of the wrong JSON type (a string `disciplina`, a missing `estudianteId`) is assumed to have its declared type.
- The maestro foreign key is not checked. Creating a pauta or an attendance record with a numeric session id whose user does not exist would fail in the database. The model accepts it, because users are not a table of the store.
- Creating a pauta and incrementing the points are two steps, in that order, without a transaction. Concurrent requests and partial failure between the two steps are not modelled.
- Timezones are not modelled. The attendance POST uses local midnights and the GET uses UTC midnight of the `fecha` parameter. Both arrive as integer parameters, and the POST's `now` comes from the database clock. `AsistenciasRoute.UpsertCount` holds only when `now` lies in [today, tomorrow), which is stated as its precondition.
- AsistenciasRoute.Get: `fechaParam` is the already-parsed UTC midnight. A missing or empty `fecha` is `None` (today's UTC date); an unparseable one (an Invalid Date, which makes Prisma throw) is not modelled.
- EstudiantesRoute.Percentage: computed in exact integer arithmetic. `Math.round` on the floating-point quotient can differ when the float product lands just below a half.
- Numerals.ParseInt: leading whitespace, `0x` prefixes and digits beyond 2^53 are not modelled. Session ids are the decimal text the sign-in writes.
- Utils.DaysUntil: the floating-point division before `Math.ceil` is taken as exact. For any difference below 2^53 ms its ceiling is the integer one. `Math.ceil` can give -0, which compares equal to 0, so it lands in "Hoy" as in the model.
- `formatDate`, `formatShortDate`, `formatCurrency` and `cn` in lib/utils.ts are locale formatting and CSS-class merging, not decision logic.
- `monto` is an integer in the model. Amounts are only passed through, never computed.
- `undefined` and `null` are both `None`, for the avatar and for the optional token and session fields.
- bcrypt is the parameter `passwordMatches`, and the user lookup is the parameter `findUser`. The NextAuth internals (token signing, the secret, the session strategy, the sign-in page) are outside the model.
- StudentCard renders more than the tier, trend and colour (photo, names, buttons, animation). Rendering is outside the model.
- The eventos route, the seed script, ProgressRing, the layouts and every client page are outside the model. The route-group layouts' redirects are not part of this model: the admin, maestro and padre layouts send visitors without a session to /login (app/(admin)/layout.tsx:12-14, app/(maestro)/layout.tsx:12-14, app/(padre)/layout.tsx:13-15), the admin layout sends any role other than 'admin' to /home (app/(admin)/layout.tsx:16-19), and the maestro layout's role check is commented out (app/(maestro)/layout.tsx:16-19), so any signed-in user reaches the teacher pages.
