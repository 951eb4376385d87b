# Clinic scheduling and subscription rules, in Dafny

This project models the decision logic of a multi-tenant clinic application. Each tenant is a clinic (an *instância*). A tenant's doctors sign in to a doctor area. That area is open to a doctor who holds a paid subscription, or whom an administrator has granted a manual access override (`acesso_liberado`).

The model covers:

- **The three client-side guards:**
  - the tenant gate;
  - the doctor gate;
  - the subscription gate, which lazily marks lapsed "active" rows as "expired".
- **The server routes:**
  - the tenant override lookup;
  - the two checkout starts;
  - checkout confirmation;
  - self-service cancellation;
  - the payment provider's webhook, which inserts and rewrites subscription rows.
- **The hidden administration page:** creating tenants and doctors, linking them, deleting tenants, and flipping the override.
- **The doctor pages:**
  - sign-in with its session writes and one-shot redirect;
  - the subscription page's classification and buttons;
  - the appointment month view;
  - the month calendar grid;
  - the time-slot picker;
  - the patient search;
  - the on/off switch.
- **The helpers in `lib/utils.ts`:** CPF and CNPJ check digits (the Receita Federal modulo-11 scheme), digit masks, half-hour slots, truncation, the DD/MM/YYYY ↔ YYYY-MM-DD swap (the ISO 8601 extended calendar date, ISO 8601:2004 section 4.1.2.2), the e-mail check and age in whole years.

**Layout.** There is one module per source file. Four modules are shared:

- `Text`: characters and strings.
- `Query`: the database query shapes.
- `Store`: the tables, as a `Db` class whose fields are sequences of rows.
- `Subscriptions`: subscription rows and their rewrites.

`Civil` holds calendar dates.

**Form of the model.**

- Code that changes state is modelled with classes and methods:
  - a page's React state is a class's fields;
  - a route's database writes are changes to `Db`'s fields.
- Each such method is tied to a function that specifies it. The properties are proved about that function.
- Loops in the source are `while` loops with invariants:
  - the CPF/CNPJ sums;
  - the slot generator;
  - the calendar fill;
  - the appointment counting and classification;
  - the expiry loop.
- Database reads go through `Query.Single`. `.single()` and `.maybeSingle()` return a row only when exactly one row matches, so duplicates behave as the source does.
- Times are integer milliseconds.
- Outcomes of the payment provider, of the database and of the clock are parameters.

## Model

| member | source | states |
|---|---|---|
| VerificarAcesso.AcessoLiberadoCases | app/api/verificar-acesso/route.ts:10-48 | no `instanciaId` cookie, or a failed or throwing query, answers `acessoLiberado: false`; otherwise the answer is true exactly when some login of that tenant carries `acesso_liberado` |
| VerificarAcesso.OtherTenantsIrrelevant | app/api/verificar-acesso/route.ts:21-36 | logins of other tenants never change a tenant's answer |
| InstanciaAuthCheck.ConcedeAsWritten | components/instancia-auth-check.tsx:21-41 | the guard as written: a pathname that merely starts with `/login`, `/admin-secreto` or `/medico` is let through; any other needs `instanciaAutenticada = "true"` and an `instanciaId` in the session |
| InstanciaAuthCheck.Concede | components/instancia-auth-check.tsx:21-41 | the guard with whole-segment route matching: the three routes and the pages below them are let through; any other page needs a signed-in tenant |
| InstanciaAuthCheck.MedicosBypassedAsWritten | components/instancia-auth-check.tsx:21 | as written, the tenant page `/medicos` opens with an empty session |
| InstanciaAuthCheck.MedicosGuarded | components/instancia-auth-check.tsx:21-38 | with whole-segment matching `/medicos` is granted exactly when the session holds a signed-in tenant |
| InstanciaAuthCheck.CorrectedBypassNarrower | components/instancia-auth-check.tsx:21 | the corrected bypass admits nothing the written one rejects, and still admits `/login` and every page under `/admin-secreto/` and `/medico/` |
| InstanciaAuthCheck.Verificar | components/instancia-auth-check.tsx:19-42 | the effect as written grants (leaving loading) exactly when `ConcedeAsWritten` holds, and otherwise pushes `/login` and stays in loading |
| InstanciaAuthCheck.VerificarCorrigido | components/instancia-auth-check.tsx:21 | the effect with the route test of the finding below corrected: it grants exactly when `Concede` holds, and otherwise pushes `/login` and stays in loading |
| AuthGate.Gate.constructor | components/instancia-auth-check.tsx:16-17 | a guard starts in loading, not authenticated, with no redirect |
| AuthGate.Gate.Conceder | components/instancia-auth-check.tsx:40-41 | granting sets authenticated and leaves loading |
| AuthGate.Gate.Negar | components/medico-auth-check.tsx:37 | a redirect records the target and leaves the guard unauthenticated and loading |
| AuthGate.Gate.Exibe | components/medico-auth-check.tsx:82-90 | the render is the loading text while pending, nothing when denied, and the children exactly when loading has ended with a grant |
| MedicoAuthCheck.ChaveDeBusca | components/medico-auth-check.tsx:48 | the id looked up is `medicoAuthId` when that is non-empty and `medicoId` otherwise, and is never empty |
| MedicoAuthCheck.Consulta | components/medico-auth-check.tsx:45-72 | a grant needs a lookup without error that found a row linked to the session's tenant; the lookup always happens on this path |
| MedicoAuthCheck.NaoAutenticadoNegado | components/medico-auth-check.tsx:31-39 | without `medicoAutenticado = "true"`, an email and a doctor id the guard denies without reading `medicos_auth` |
| MedicoAuthCheck.SemInstanciaConcedido | components/medico-auth-check.tsx:42-76 | a signed-in doctor with no `instanciaId` in the session passes without a lookup |
| MedicoAuthCheck.ConsultaSound | components/medico-auth-check.tsx:45-62 | a granted lookup means the lookup did not fail and some row with the looked-up id is linked to the tenant |
| MedicoAuthCheck.VinculoDecide | components/medico-auth-check.tsx:42-76 | with a tenant in the session and unique login ids, a signed-in doctor passes exactly when the lookup succeeds and the row with the looked-up id is linked to that tenant |
| MedicoAuthCheck.ConsultaConcede | components/medico-auth-check.tsx:54 | a found row whose tenant is the session's tenant is granted |
| MedicoAuthCheck.SessaoVinculadaConcede | components/medico-auth-check.tsx:25-76 | a session naming a login row that the id lookup finds, linked to the session's tenant, is granted after a lookup |
| MedicoAuthCheck.FalhaNega | components/medico-auth-check.tsx:51-71 | a failed or throwing lookup never grants when the session names a tenant |
| MedicoAuthCheck.VerificarAutenticacao | components/medico-auth-check.tsx:24-77 | the effect grants exactly when the decision grants, and otherwise pushes `/medico/login` |
| ToggleSwitch.Clicado | components/toggle-switch.tsx:20-24 | a click leaves a disabled switch as it is and flips an enabled one |
| ToggleSwitch.CliquesParity | components/toggle-switch.tsx:20-24 | after `n` clicks an enabled switch has flipped exactly when `n` is odd, and a disabled one never moves; two clicks restore the state |
| ToggleSwitch.Switch.constructor | components/toggle-switch.tsx:12-13 | `checked` and `disabled` default to false, and the internal state starts at `checked` |
| ToggleSwitch.Switch.SincronizarProp | components/toggle-switch.tsx:16-18 | a new `checked` prop overwrites the internal state and reports nothing |
| ToggleSwitch.Switch.HandleChange | components/toggle-switch.tsx:20-29 | the state becomes `Clicado` of the old state, and an enabled switch with `onChange` reports exactly the new value |
| HorariosDisponiveis.GerarHorarios | components/horarios-disponiveis.tsx:19-35 | the nested hour/minute loop yields the 19 slots `Horarios()` |
| HorariosDisponiveis.HorariosEnds | components/horarios-disponiveis.tsx:21-22 | the slots start at "08:00" and end at "17:00" |
| HorariosDisponiveis.HorariosIncreasing | components/horarios-disponiveis.tsx:25-31 | the slots strictly increase in minutes of the day |
| HorariosDisponiveis.HorariosSkipHalfPastFive | components/horarios-disponiveis.tsx:27-28 | slot `k` is 08:00 plus `30k` minutes, and "17:30" is not among them |
| HorariosDisponiveis.Picker.constructor | components/horarios-disponiveis.tsx:15-16 | nothing is selected or reported at first |
| HorariosDisponiveis.Picker.Clicar | components/horarios-disponiveis.tsx:44-61 | a click on an occupied slot changes nothing; a click on a free slot selects it and reports it; no occupied slot is ever reported |
| HorariosDisponiveis.Picker.HandleSelectHorario | components/horarios-disponiveis.tsx:39-42 | the slot becomes the selection and is appended to what was reported |
| Calendario.Anteriores | components/calendario.tsx:26-35 | as many leading cells as the weekday of the 1st, holding the last days of the previous month in ascending order, none current or available |
| Calendario.Atuais | components/calendario.tsx:37-47 | one cell per day of the shown month |
| Calendario.Seguintes | components/calendario.tsx:49-59 | the requested number of cells, days 1.. of the next month |
| Calendario.Grade | components/calendario.tsx:20-59 | the grid has exactly 42 cells |
| Calendario.DiasDoMes | components/calendario.tsx:21-59 | the three loops, one after the other, build `Grade` |
| Calendario.PreencherAnteriores | components/calendario.tsx:26-35 | the `unshift` loop builds `Anteriores` |
| Calendario.PreencherAtuais | components/calendario.tsx:37-47 | the second loop appends `Atuais` to what is already there |
| Calendario.PreencherSeguintes | components/calendario.tsx:49-59 | the third loop appends next-month days until there are 42 cells |
| Calendario.GradeConsecutive | components/calendario.tsx:22-59 | cell `i` is a real date, `i` days after the Sunday that opens the grid, so the grid runs day by day across both month boundaries |
| Calendario.GradeColumnIsWeekday | components/calendario.tsx:26-98 | cell `i` falls on weekday `i % 7`, so the columns are Sunday to Saturday |
| Calendario.GradeCells | components/calendario.tsx:37-59 | a cell belongs to the shown month exactly when it lies after the leading cells and within the month's length; such a cell is day `i - lead + 1`; a cell is available exactly when it is of the shown month and its "yyyy-MM-dd" key is listed |
| Calendario.AgruparSemanas | components/calendario.tsx:61-65 | the loop stepping by seven yields the consecutive slices of seven, `Semanas` |
| Calendario.SemanasOfGrade | components/calendario.tsx:61-65 | the grid splits into six weeks of seven whose cell `c` of week `w` is grid cell `7w + c` |
| Calendario.AoClicar | components/calendario.tsx:111-115 | a click reports the cell's date exactly when the cell is of the shown month and `onSelectDate` was given |
| Calendario.ClickReportsShownMonth | components/calendario.tsx:111-115 | a reported date is a valid date of the shown month |
| Calendario.Navegacao.constructor | components/calendario.tsx:14-15 | the grid starts at the given month |
| Calendario.Navegacao.NextMonth | components/calendario.tsx:17 | the month advances by one, rolling December over to January of the next year |
| Calendario.Navegacao.PrevMonth | components/calendario.tsx:18 | the month goes back by one, rolling January back to December of the previous year |
| Calendario.NavegacaoRoundTrip | components/calendario.tsx:17-18 | forward then back, or back then forward, shows the same month |
| Pacientes.PacientesFiltrados | app/pacientes/page.tsx:38-48 | the filter never lists more patients than were loaded |
| Pacientes.FiltroMembership | app/pacientes/page.tsx:38-48 | a patient is listed exactly when it was loaded and the term is empty or its name, CPF, phone or email contains the lower-cased term ignoring case; an empty term lists everyone unchanged |
| Pacientes.FilterIsSubsequence | app/pacientes/page.tsx:38 | `filter` keeps an ordered selection of the list |
| Pacientes.FiltroKeepsOrder | app/pacientes/page.tsx:38-48 | the listed patients appear in the loaded order, so the name order survives a search |
| Pacientes.FiltroIgnoresCase | app/pacientes/page.tsx:41 | terms equal up to case list the same patients |
| Pacientes.ContainsIgnoringCase | app/pacientes/page.tsx:41-46 | a column containing the term as typed, in any case, makes the patient match |
| Pacientes.NomeLeTotal | app/pacientes/page.tsx:27 | the name order used by `order("nome")` is total |
| Pacientes.NomeLeTransitive | app/pacientes/page.tsx:27 | the name order used by `order("nome")` is transitive |
| Pacientes.Inserir | app/pacientes/page.tsx:27 | inserting adds exactly that patient to the multiset of rows |
| Pacientes.InserirOrdenado | app/pacientes/page.tsx:27 | inserting into a name-ordered list keeps it name-ordered |
| Pacientes.Ordenar | app/pacientes/page.tsx:27 | sorting is a permutation of the rows |
| Pacientes.OrdenarOrdenado | app/pacientes/page.tsx:27 | sorting yields a name-ordered list |
| Pacientes.ConsultaShape | app/pacientes/page.tsx:23-27 | the query returns every row of the tenant, as often as the table holds it, no row of another tenant, in name order |
| Pacientes.PacientesPage.constructor | app/pacientes/page.tsx:10-12 | the page starts with no patients, an empty term and no tenant |
| Pacientes.PacientesPage.CarregarPacientes | app/pacientes/page.tsx:15-32 | the tenant id is taken from the session; without one, or without data, the list is kept; otherwise the list becomes the query's result |
| Pacientes.PacientesPage.SetTermoBusca | app/pacientes/page.tsx:69 | typing replaces the term and nothing else |
| Pacientes.PacientesPage.Listados | app/pacientes/page.tsx:38-87 | the table shows exactly the loaded patients that match the current term |
| MedicoLogin.OuVazio | app/medico/login/page.tsx:74-77 | `x \|\| ""`: the value when it is truthy, the empty string otherwise |
| MedicoLogin.SessaoDoMedico | app/medico/login/page.tsx:73-82 | a sign-in writes the five doctor keys with the row's values (id, doctor id or "", name, email, "true"), writes the tenant id when there is one, and leaves every other key alone |
| MedicoLogin.Redirecionar | app/medico/login/page.tsx:88-98 | a pending redirect is removed from the session and becomes the target; without one the target is the doctor's agenda and the session is unchanged |
| MedicoLogin.Entrar | app/medico/login/page.tsx:55-98 | a sign-in succeeds only without a lookup failure and with a row of this email in this tenant whose password matches; it never leaves a pending redirect behind |
| MedicoLogin.EntrarDecide | app/medico/login/page.tsx:57-71 | with exactly one row for the email in the tenant, sign-in succeeds iff the password matches, with that row's session and redirect |
| MedicoLogin.EmailDuplicadoNega | app/medico/login/page.tsx:57-66 | two rows with the same email in the tenant make `.single()` fail, so sign-in is refused |
| MedicoLogin.SessaoDoMedicoLida | app/medico/login/page.tsx:73-98 | after a sign-in the session holds the tenant id, the authenticated flag and the doctor's auth id and email that the doctor-area guard reads |
| MedicoLogin.EntrarComo | app/medico/login/page.tsx:57-98 | when the single row found has the typed password, the sign-in is as that row, for that email and tenant |
| MedicoLogin.SessaoDoMedicoAbre | app/medico/login/page.tsx:73-98 | the session a sign-in as a complete row leaves passes the doctor-area guard |
| MedicoLogin.EntrarAbreAreaDoMedico | app/medico/login/page.tsx:51-108 | a successful sign-in, with unique auth ids, lets the doctor through the guard on the next page |
| MedicoLogin.LoginPage.constructor | app/medico/login/page.tsx:18-25 | the page starts with no tenant, not loading, no route change and no error |
| MedicoLogin.LoginPage.Montar | app/medico/login/page.tsx:27-44 | the tenant is read from the session; without one the page goes to `/login`; nothing else changes |
| MedicoLogin.LoginPage.GravarSessao | app/medico/login/page.tsx:73-82 | the session becomes the sign-in session of the row; nothing else changes |
| MedicoLogin.LoginPage.SeguirRedirecionamento | app/medico/login/page.tsx:88-98 | the route and the session follow `Redirecionar` |
| MedicoLogin.LoginPage.OnSubmit | app/medico/login/page.tsx:51-108 | on success session and route follow `Entrar`; on any failure the error is shown and session and route are unchanged; loading ends either way |
| Agendamentos.Periodo | app/medico/area/agendamentos/page.tsx:119-121 | the i-th visited day is `dataInicial` plus i days, for i below the count |
| Agendamentos.WindowKeys | app/medico/area/agendamentos/page.tsx:75-78 | from 1 January five years back to a year after today there are at least 365 days, and every day of the window has a yyyy-MM-dd key |
| Agendamentos.WindowKey | app/medico/area/agendamentos/page.tsx:116-121 | each day the loop visits, up to `diasTotais`, has a yyyy-MM-dd key |
| Agendamentos.Buscar | app/medico/area/agendamentos/page.tsx:82-88 | a row is fetched iff it is this doctor's, in this tenant, on or after `dataInicial` and before `dataFinal` |
| Agendamentos.FetchedHaveKeys | app/medico/area/agendamentos/page.tsx:82-98 | every fetched row's date can be formatted as a key |
| Agendamentos.Chaves | app/medico/area/agendamentos/page.tsx:97-98 | one key per fetched row, in order, each the row's formatted date |
| Agendamentos.ContarPorDia | app/medico/area/agendamentos/page.tsx:93-106 | the map ends with exactly the keys that occur, each mapped to its number of occurrences |
| Agendamentos.CountIsRowsOnThatDay | app/medico/area/agendamentos/page.tsx:96-104 | the count under a day's key is the number of rows on that day |
| Agendamentos.DiasDaClasseMembro | app/medico/area/agendamentos/page.tsx:119-146 | a day is in a list iff it was visited and the loop body put it in that list |
| Agendamentos.ColocarDia | app/medico/area/agendamentos/page.tsx:123-145 | a weekend or past day is skipped; otherwise the day is appended to exactly the list its class names |
| Agendamentos.ClassificationCases | app/medico/area/agendamentos/page.tsx:123-145 | no day is in both lists; weekends and past days in neither; 2 May always free; any other day full iff it has 18 or more appointments |
| Agendamentos.AoClicar | app/medico/area/agendamentos/page.tsx:157-160 | a click opens the day's route exactly when the day is not a weekend |
| Agendamentos.CellAfterLoad | app/medico/area/agendamentos/page.tsx:162-174 | after a load a day shows disabled iff weekend, neutral iff a past weekday, available or unavailable iff the loop classified it so |
| Agendamentos.Visitar | app/medico/area/agendamentos/page.tsx:119-146 | one turn keeps each list equal to the visited days of its class |
| Agendamentos.JanelaClassificada | app/medico/area/agendamentos/page.tsx:116-146 | after `diasTotais + 1` days the lists are those of the whole window |
| Agendamentos.ClassificarJanela | app/medico/area/agendamentos/page.tsx:108-146 | the loop leaves exactly the window's days of each class, in date order |
| Agendamentos.ContarJanela | app/medico/area/agendamentos/page.tsx:75-106 | the count map is the per-day count of the fetched rows |
| Agendamentos.CalcularVagas | app/medico/area/agendamentos/page.tsx:80-149 | fetch, count and classify yield the two lists of the load |
| Agendamentos.Page.constructor | app/medico/area/agendamentos/page.tsx:25-27 | the page starts with both lists empty and loading |
| Agendamentos.Page.CarregarDisponibilidadeDias | app/medico/area/agendamentos/page.tsx:73-155 | loading ends either way; a failed read keeps both lists; otherwise they become the load's lists |
| Agendamentos.Page.Montar | app/medico/area/agendamentos/page.tsx:35-58 | with a doctor and tenant in the session the page loads; otherwise it goes to `/login` and changes nothing |
| AssinaturaPage.ClassifyEmpty | app/medico/area/assinatura/page.tsx:85-91 | a doctor without rows has no subscription and nothing is shown or written |
| AssinaturaPage.ClassifyAtiva | app/medico/area/assinatura/page.tsx:97-108 | `ativa` iff some row is active, never cancelled and inside its period; the first such row, newest first, is shown |
| AssinaturaPage.ClassifyCancelada | app/medico/area/assinatura/page.tsx:110-120 | otherwise `cancelada_periodo_valido` iff some row is active, cancelled and inside its period; that row is shown |
| AssinaturaPage.ClassifyExpireWrite | app/medico/area/assinatura/page.tsx:122-133 | only the newest row is ever marked expired, exactly when the first two classes fail and it is still "active"; its period is then over and the class is `expirada` |
| AssinaturaPage.ClassifyFallback | app/medico/area/assinatura/page.tsx:122-139 | past the first two classes the newest row is shown; `expirada` iff its status is active, expired or canceled, `sem_assinatura` for any other status |
| AssinaturaPage.ActiveUntilPeriodEndShowsNoSubscription | app/medico/area/assinatura/page.tsx:134-139 | a lone "active_until_period_end" row is shown as no subscription |
| AssinaturaPage.StartCheckout | app/medico/area/assinatura/page.tsx:149-186 | without a doctor id go to login; with an active or cancelled-but-valid subscription refuse; otherwise request a monthly checkout for that doctor |
| AssinaturaPage.DiasRestantes | app/medico/area/assinatura/page.tsx:307-313 | the days left are the time left divided by a day, rounded up, and never negative |
| AssinaturaPage.DiasRestantesEdges | app/medico/area/assinatura/page.tsx:307-313 | a period already over shows 0 days; one ending within the next day shows 1 |
| AssinaturaPage.BotaoAcao | app/medico/area/assinatura/page.tsx:315-343 | cancel button iff `ativa`, wait button iff cancelled-but-valid, subscribe button iff none or expired; the first and last are disabled while loading |
| AssinaturaPage.BotaoMatchesCheckoutGuard | app/medico/area/assinatura/page.tsx:149-168 | the subscribe button appears exactly in the states where checkout is not refused |
| AssinaturaPage.CancelKeepsPaidPeriod | app/medico/area/assinatura/page.tsx:243-284 | cancelling the row shown as `ativa` leaves the next check at `ativa` or `cancelada_periodo_valido` |
| AssinaturaPage.Page.constructor | app/medico/area/assinatura/page.tsx:19-26 | the page starts with no subscription, nothing shown, no error and not loading |
| AssinaturaPage.Page.VerificarAssinatura | app/medico/area/assinatura/page.tsx:70-147 | a failed read shows `sem_assinatura` with the error; otherwise the state is the classification of the doctor's rows, and the newest row is marked expired only when the classification says so and the write succeeds |
| AssinaturaPage.Page.CancelarAssinatura | app/medico/area/assinatura/page.tsx:243-296 | without a doctor, a shown row id or the user's confirmation nothing changes; a failed write sets the error; otherwise the row gets `canceled_at` and the page re-checks |
| GlobalCheck.Decide | components/assinatura-global-check.tsx:35-124 | the expiry loop runs only for a signed-in doctor, and rewrites nothing when it does not run |
| GlobalCheck.NonDoctorPassesWithoutReads | components/assinatura-global-check.tsx:43-49 | anyone not signed in as a doctor is let through, and no table, fault or clock changes that |
| GlobalCheck.SubscriptionPageCarveOut | components/assinatura-global-check.tsx:56-61 | on the subscription page a doctor is always let through, whatever the rows |
| GlobalCheck.ValidActiveRowGrants | components/assinatura-global-check.tsx:63-81 | any "active" row of the doctor whose period is still valid grants access, cancelled or not |
| GlobalCheck.OnlyOverrideWithoutValidActive | components/assinatura-global-check.tsx:72-116 | without a valid "active" row, access is granted iff an expiry write throws or the override lookup succeeds and grants it; no other status counts |
| GlobalCheck.ExpiryCondition | components/assinatura-global-check.tsx:72-96 | the expiry loop runs iff the read succeeded, found "active" rows and none of them is valid |
| GlobalCheck.QueryFaults | components/assinatura-global-check.tsx:63-120 | a returned read error skips to the override and writes nothing; a thrown read lets the doctor in and writes nothing |
| GlobalCheck.MissingAuthIdDenies | components/assinatura-global-check.tsx:84-116 | without a `medicoAuthId` and without a valid "active" row the doctor is let in iff the read succeeded and an expiry write throws |
| GlobalCheck.GuardAndPageDisagree | components/assinatura-global-check.tsx:63-116 | a cancelled "active" row in its period passes the guard while the page says cancelled; an "active_until_period_end" row in its period is blocked while the page says no subscription |
| GlobalCheck.ExpireByKeysIsExpireActive | components/assinatura-global-check.tsx:84-95 | with unique ids, expiring the lapsed rows by id expires exactly the doctor's "active" rows |
| GlobalCheck.FirstThrow | components/assinatura-global-check.tsx:86-95 | the writes before the returned index do not throw, and the one at it does when it is inside the loop |
| GlobalCheck.Landed | components/assinatura-global-check.tsx:86-95 | a key has landed iff one of the first `n` writes, with no fault, was for that row |
| GlobalCheck.ExpiryWriteFaults | components/assinatura-global-check.tsx:84-121 | once the loop runs, a throwing write grants access, otherwise the override decides; the expired keys are exactly those of the rows written without fault before the first throw |
| GlobalCheck.LapsedRowWriteFault | components/assinatura-global-check.tsx:84-121 | one lapsed "active" row: a thrown write grants and writes nothing; a returned write error writes nothing and leaves the verdict to the override; a clean write expires the row |
| GlobalCheck.LandedWithoutFaults | components/assinatura-global-check.tsx:86-95 | with no faulty write, the written keys are the keys of the rows visited, in order |
| GlobalCheck.AllWritesLand | components/assinatura-global-check.tsx:84-95 | with unique ids and no faulty write, the loop does not throw and expires exactly the doctor's "active" rows |
| GlobalCheck.ExpiryWriteStep | components/assinatura-global-check.tsx:86-95 | a landed write adds its row to the expired ones; a write returning an error adds none |
| GlobalCheck.ExpirarUma | components/assinatura-global-check.tsx:88-94 | the write sets the row with that id to expired and keeps ids unique |
| GlobalCheck.VerificarAtivas | components/assinatura-global-check.tsx:65-96 | `valida` iff the read succeeded and found a valid "active" row; otherwise, when it found some, the expiry loop runs: `lancou` iff one of its writes throws, and exactly the rows whose writes landed before it become expired |
| GlobalCheck.ExpirarAtivas | components/assinatura-global-check.tsx:84-95 | the loop reports whether a write threw, and expires exactly the lapsed rows whose writes landed before the first throw; a write returning an error leaves its row unchanged |
| GlobalCheck.Render | components/assinatura-global-check.tsx:130-153 | the spinner iff loading; the block screen iff loaded, a doctor, and access not granted |
| GlobalCheck.Decidir | components/assinatura-global-check.tsx:38-120 | the verdict and the table writes are those `Decide` prescribes, a throwing expiry write included: it grants access with only the earlier writes applied |
| GlobalCheck.ConsultarLiberacao | components/assinatura-global-check.tsx:98-120 | access iff there is a `medicoAuthId` and the lookup throws or finds its row with `acesso_liberado` |
| GlobalCheck.Guard.constructor | components/assinatura-global-check.tsx:14-16 | the guard starts loading, with no verdict and not a doctor |
| GlobalCheck.Guard.VerificarAcesso | components/assinatura-global-check.tsx:35-124 | loading ends; the doctor flag, the verdict and the expiry writes are those `Decide` prescribes, for every outcome of the read, of each expiry write and of the override lookup |
| Webhook.NewRow | app/api/webhook/route.ts:97-110 | the inserted row gets a fresh key, the owner, customer and subscription ids, the provider's status, plan "mensal", period bounds in milliseconds, next billing at the period end, and the payment details |
| Webhook.DeletedStatusFollowsPeriod | app/api/webhook/route.ts:233-244 | a deleted doctor subscription becomes "active_until_period_end" iff its stored period is still valid, "canceled" otherwise |
| Webhook.RejectionsTouchNothing | app/api/webhook/route.ts:16-44 | a missing secret answers 500 and a bad signature 400, and neither changes a table |
| Webhook.CompletionForTenant | app/api/webhook/route.ts:62-92 | a completed tenant checkout adds exactly one row, first in `assinaturas_instancia`, for that tenant and subscription |
| Webhook.CompletionForDoctor | app/api/webhook/route.ts:93-114 | a completed doctor checkout adds exactly one row, first in `assinaturas`; with neither id the answer is 400 and nothing is added |
| Webhook.InsertKeepsUniqueIds | app/api/webhook/route.ts:75-110 | an insert keeps row keys unique |
| Webhook.RedeliveryAddsSecondRow | app/api/webhook/route.ts:93-110 | the completion insert does not look for an existing row: the same event delivered twice leaves two rows for one subscription |
| Webhook.DuplicateRowsMissRenewal | app/api/webhook/route.ts:128-146 | with two doctor rows for one subscription the lookup finds none, so renewals leave the doctor rows unchanged |
| Webhook.RenewalRewritesDoctorRow | app/api/webhook/route.ts:128-145 | a renewal rewrites the one matching doctor row and no other row of either table |
| Webhook.RenewalWithoutMatchChangesNothing | app/api/webhook/route.ts:119-170 | with no row for the subscription in either table a renewal changes nothing |
| Webhook.UpdateRedeliveryIdempotent | app/api/webhook/route.ts:172-218 | delivering the same subscription update twice leaves what one delivery at the later time leaves |
| Webhook.RouteRefreshTwice | app/api/webhook/route.ts:176-215 | applying the same provider state twice through the table routing is applying it once at the later time |
| Webhook.RefreshTwice | app/api/webhook/route.ts:184-193 | rewriting matching rows twice with the same provider state is rewriting them once at the later time |
| Webhook.SameMatches | app/api/webhook/route.ts:176-193 | a rewrite that keeps the subscription id keeps the number of matching rows |
| Webhook.DeletionOutcome | app/api/webhook/route.ts:220-253 | a deleted doctor subscription stamps `canceled_at` on its one row, with the status set by its period end, and nothing else changes |
| Webhook.TenantDeletionCancels | app/api/webhook/route.ts:254-273 | a deleted tenant subscription marks every matching tenant row "canceled" and changes nothing else |
| Webhook.OtherEventsAndThrows | app/api/webhook/route.ts:119-283 | any other event type is acknowledged with no change; a provider call that throws answers 500 with no change |
| Webhook.Post | app/api/webhook/route.ts:15-284 | the answer and both tables afterwards are those of `Handle` |
| Webhook.RecordCheckout | app/api/webhook/route.ts:62-116 | the insert of a completed checkout, as `Checkout` prescribes |
| Webhook.ApplyRoute | app/api/webhook/route.ts:128-167 | the update goes to the one matching doctor row, else to the tenant table when usable, as `Route` prescribes |
| CreateCheckoutSession.KeepWordAndSpace | app/api/create-checkout-session/route.ts:16 | only word characters and white space survive |
| CreateCheckoutSession.LocalPartChars | app/api/create-checkout-session/route.ts:12-18 | the generated local part holds only word characters and dots, never two dots in a row, never `@` nor white space |
| CreateCheckoutSession.GeneratedEmailShape | app/api/create-checkout-session/route.ts:5-18 | the generated address is the local part at `exemplo.com`, and it passes `isValidEmail` whenever the local part is not empty |
| CreateCheckoutSession.ExemploDomain | app/api/create-checkout-session/route.ts:18 | the fixed domain is two parts the address check accepts |
| CreateCheckoutSession.SymbolOnlyNameGivesInvalidEmail | app/api/create-checkout-session/route.ts:5-18 | a name with no letter, digit, `_` or space yields "@exemplo.com", which the address check rejects |
| CreateCheckoutSession.NothingKept | app/api/create-checkout-session/route.ts:16 | a string of symbols only is removed whole |
| CreateCheckoutSession.CustomerEmail | app/api/create-checkout-session/route.ts:72-78 | the stored address when it passes the check, otherwise the one generated from the name |
| CreateCheckoutSession.EarlyRefusals | app/api/create-checkout-session/route.ts:24-67 | each missing setting answers 500 before any work; then a missing id answers 400 and an unknown doctor 404, with nothing written and no provider call |
| CreateCheckoutSession.EmailRepair | app/api/create-checkout-session/route.ts:71-89 | a rejected address is replaced on that doctor's row only; a valid one, or a failed write, leaves the table alone |
| CreateCheckoutSession.EmailWriteFailureIgnored | app/api/create-checkout-session/route.ts:80-89 | a failed email write changes neither the answer, nor the mapping table, nor the provider call |
| CreateCheckoutSession.MedicoFound | app/api/create-checkout-session/route.ts:62 | with unique keys, the lookup by id returns that doctor |
| CreateCheckoutSession.KnownDoctorProceeds | app/api/create-checkout-session/route.ts:53-69 | a configured request for a known doctor goes on with that doctor's row |
| CreateCheckoutSession.ReuseExistingCustomer | app/api/create-checkout-session/route.ts:106-134 | an existing mapping is reused: its first row's customer id (500 without one), a provider update only when the email differs, and no customer created |
| CreateCheckoutSession.CreateCustomer | app/api/create-checkout-session/route.ts:135-175 | without a mapping a customer is created with the email, the name and the doctor id; its mapping is appended; a failed create or insert answers 500 |
| CreateCheckoutSession.SessionShape | app/api/create-checkout-session/route.ts:178-207 | a session has one line item of the monthly price, quantity 1, mode "subscription", the doctor id as metadata and return addresses on the subscription page |
| CreateCheckoutSession.Post | app/api/create-checkout-session/route.ts:21-218 | the answer, the provider call and both tables afterwards are those of `Checkout` |
| CreateCheckoutSession.Continue | app/api/create-checkout-session/route.ts:71-207 | the work after the lookup, as `Proceed` prescribes |
| CreateCheckoutSession.RepairEmail | app/api/create-checkout-session/route.ts:71-89 | the address used and the doctors table afterwards are those `CustomerEmail` and `RepairedMedicos` prescribe |
| CreateCheckoutSession.UseOrCreateCustomer | app/api/create-checkout-session/route.ts:91-176 | the customer id, the provider call and the mapping table are those `ResolveCustomer` prescribes |
| CreateInstanceCheck.EarlyRefusals | app/api/create-instance-check/route.ts:8-68 | each missing setting answers 500 first; then a missing id 400, an unknown tenant 404 and a lookup error other than a missing table 500, with no write and no provider call |
| CreateInstanceCheck.ReuseWithoutSync | app/api/create-instance-check/route.ts:72-75 | an existing mapping is reused as it is: its first row's customer id, no provider call, no write |
| CreateInstanceCheck.CreateCustomer | app/api/create-instance-check/route.ts:76-117 | without a mapping a customer is created with the given email or "cliente@exemplo.com" and the given name or the tenant's; the mapping is appended when the table is usable; a failed insert does not change the answer; a failed create answers 500 |
| CreateInstanceCheck.SessionShape | app/api/create-instance-check/route.ts:119-149 | a session has one monthly line item, the tenant id and the "instancia" tag as metadata, and a success address naming the tenant |
| CreateInstanceCheck.Post | app/api/create-instance-check/route.ts:5-160 | the answer, the provider call and the mapping table afterwards are those of `Start` |
| CancelSubscription.EarlyRefusals | app/api/cancel-subscription/route.ts:16-40 | a missing key answers 500, an unparsable body or a missing id 400, before any read, provider call or write |
| CancelSubscription.UnknownSubscription | app/api/cancel-subscription/route.ts:44-54 | unless exactly one row carries the id, the answer is 404 with no call and no write |
| CancelSubscription.CancelStampsOnlyThatRow | app/api/cancel-subscription/route.ts:65-93 | when the provider cancels or no longer knows the id, `canceled_at` is stamped on that row alone and its status kept |
| CancelSubscription.ProviderFailureWritesNothing | app/api/cancel-subscription/route.ts:67-108 | any other provider error answers 400 for an invalid request, else 500, and writes nothing |
| CancelSubscription.CancelIdempotent | app/api/cancel-subscription/route.ts:56-93 | a second cancellation answers `alreadyCanceled` with no call and no write, so `canceled_at` keeps the first time |
| CancelSubscription.Post | app/api/cancel-subscription/route.ts:15-114 | the answer, the provider call and the table afterwards are those of `Cancel` |
| VerifyCheckoutSession.VerifyErrors | app/api/verify-checkout-session/route.ts:4-95 | anything thrown answers 500, a missing id 400, and a query error "not active" |
| VerifyCheckoutSession.DoctorVerdict | app/api/verify-checkout-session/route.ts:16-31 | for a doctor, success iff one of the doctor's rows is "active", whatever its period |
| VerifyCheckoutSession.TenantVerdict | app/api/verify-checkout-session/route.ts:32-55 | any other or no type takes the tenant path; with the tenant table, success iff one of the tenant's rows is "active" |
| VerifyCheckoutSession.FallbackVerdict | app/api/verify-checkout-session/route.ts:56-81 | without the tenant table, success iff some doctor linked to the tenant owns an "active" row; a tenant without doctors never succeeds |
| VerifyCheckoutSession.StaleActiveRowConfirms | app/api/verify-checkout-session/route.ts:16-31 | an "active" row whose period is over still confirms the checkout, although the period check rejects it |
| Utils.WeightedSumPrefix | lib/utils.ts:128-139 | characters after the first n do not enter the weighted sum |
| Utils.CpfDigit | lib/utils.ts:131-132 | a CPF check digit is a single digit, 0 to 9 |
| Utils.ValidarCPF | lib/utils.ts:116-145 | the two summing loops accept exactly the CPFs of 11 digits, not all equal, whose 10th and 11th digits are the modulo-11 check digits of the weights 10..2 and 11..2 |
| Utils.DigitChar | lib/utils.ts:129 | the character of a value 0..9 is a digit that reads back as that value |
| Utils.CpfCompletion | lib/utils.ts:116-145 | any nine digits followed by their two check digits form an accepted CPF unless all eleven are equal |
| Utils.WeightedSumOfRepeat | lib/utils.ts:128-139 | a repeated digit sums to its value times the total weight |
| Utils.CpfWeightTotals | lib/utils.ts:128-139 | the CPF weights total 54 and 65 |
| Utils.RepeatedCheckDigit | lib/utils.ts:131-141 | a repeated digit is its own check digit under both CPF weightings |
| Utils.RepeatedDigitsPassTheSums | lib/utils.ts:123-142 | eleven equal digits pass both digit checks, so only the equal-digits rule refuses them |
| Utils.CnpjDigit | lib/utils.ts:167 | a CNPJ check digit is a single digit, 0 to 9 |
| Utils.CnpjSum | lib/utils.ts:158-166 | the loop with its stepped weight computes the weighted sum with weights starting at `tamanho - 7`, counting down and wrapping from 2 to 9 |
| Utils.ValidarCNPJ | lib/utils.ts:147-183 | accepts exactly the CNPJs of 14 digits, not all equal, whose last two digits are the check digits of the first 12 and 13 digits |
| Utils.KnownValidCpf | lib/utils.ts:116-145 | CPF 529.982.247-25 is accepted |
| Utils.KnownValidCnpj | lib/utils.ts:147-183 | CNPJ 11.222.333/0001-81 is accepted |
| Utils.IsValidEmailMeansShape | lib/utils.ts:111-114 | the address check accepts exactly local@A.B with three non-empty parts free of white space and `@` |
| Utils.ShapeIsValid | lib/utils.ts:111-114 | three such parts assembled as local@A.B are accepted |
| Utils.DigitsThenSeparator | lib/utils.ts:8-14 | a digit group followed by a separator reads back as the group followed by the rest's digits |
| Utils.CpfMaskKeepsDigits | lib/utils.ts:8-14 | `formatarCPF` keeps exactly the digits of its input |
| Utils.CepMaskKeepsDigits | lib/utils.ts:95-101 | `formatarCEP` keeps exactly the digits of its input |
| Utils.CnpjMaskKeepsDigits | lib/utils.ts:103-109 | `formatarCNPJ` keeps exactly the digits of its input |
| Utils.TelefoneMaskKeepsDigits | lib/utils.ts:16-29 | `formatarTelefone` keeps exactly the digits of its input |
| Utils.ValidationIgnoresMasks | lib/utils.ts:8-183 | formatting never changes the verdict of the CPF and CNPJ validators |
| Utils.FormatarCPFShape | lib/utils.ts:8-14 | exactly eleven digits format as ddd.ddd.ddd-dd |
| Utils.FormatarTelefoneShape | lib/utils.ts:16-29 | 11 digits give (dd) ddddd-dddd, 10 give (dd) dddd-dddd, anything else the bare digits |
| Utils.SlotRoundTrip | lib/utils.ts:37-42 | an HH:MM label is five characters with a colon and reads back as its minute of the day |
| Utils.SlotsOrdered | lib/utils.ts:37-42 | labels of different minutes differ and follow the order of the minutes |
| Utils.SlotOfHourAndMinute | lib/utils.ts:39-41 | a label is the zero-padded hour and minute around a colon |
| Utils.GerarHorarios | lib/utils.ts:31-46 | the two nested loops yield 20 labels, the k-th being 08:00 plus 30·k minutes |
| Utils.HorariosBounds | lib/utils.ts:31-46 | the slots run from 08:00 to 17:30 and strictly increase |
| Utils.TruncarCases | lib/utils.ts:90-93 | a text no longer than the maximum is kept; a longer one is cut to the maximum and gets "...", length max + 3; a negative maximum counts from the end |
| Utils.Split | lib/utils.ts:187 | a split has at least one part and no part holds the separator |
| Utils.JoinSplit | lib/utils.ts:185-197 | joining the parts of a split restores the string |
| Utils.SplitJoin | lib/utils.ts:185-197 | splitting a join of separator-free parts gives the parts back |
| Utils.SwapDateRoundTrip | lib/utils.ts:185-197 | swapping a three-part date there and back restores it |
| Utils.IsoRoundTrips | lib/utils.ts:185-197 | an input that does not split into three parts is returned unchanged; `formatarDataDeISO(formatarDataParaISO(s)) == s` when s splits on `/` into three parts free of `-`, and the other way round |
| Utils.SwapDateParts | lib/utils.ts:185-197 | a three-part date comes out as the same three parts in reverse order, split by the other separator |
| Utils.IdadeCountsBirthdays | lib/utils.ts:68-79 | the age is the number of birthdays reached: the n-th anniversary is on or before today and the next one is not |
| AdminInstancias.KeepSlugChars | app/admin-secreto/instancias/page.tsx:90 | the symbol filter keeps only word characters, white space and `-` taken from the input |
| AdminInstancias.GerarSlugShape | app/admin-secreto/instancias/page.tsx:87-94 | whatever the name, the slug holds only a–z, 0–9, `_` and `-` (so no white space) and never two `-` in a row |
| AdminInstancias.SlugFixedPoint | app/admin-secreto/instancias/page.tsx:87-94 | a string already made of slug characters without a doubled `-` is its own slug |
| AdminInstancias.GerarSlugIdempotent | app/admin-secreto/instancias/page.tsx:87-94 | deriving the slug of a slug changes nothing |
| AdminInstancias.OuterSpacesBecomeHyphens | app/admin-secreto/instancias/page.tsx:87-94 | the slug of " a " is "-a-": white space at the ends is already `-` when `trim` runs |
| AdminInstancias.HandleChange | app/admin-secreto/instancias/page.tsx:424-433 | the edited field takes the typed value; editing `nome` also sets `slug`, every other field keeps its value |
| AdminInstancias.SlugFollowsNome | app/admin-secreto/instancias/page.tsx:424-433 | after `nome` is typed the form's slug is well formed and stable under re-derivation |
| AdminInstancias.AdminPage.Change | app/admin-secreto/instancias/page.tsx:424-433 | the form becomes the `handleChange` update of the old form |
| AdminInstancias.ValidateInstanciaCases | app/admin-secreto/instancias/page.tsx:446-463 | a tenant passes exactly when `nome`, `usuario` and `senha` are filled, the passwords agree and the login lookup does not find exactly one tenant |
| AdminInstancias.DuplicateLoginsPassValidation | app/admin-secreto/instancias/page.tsx:455-463 | two tenants already sharing the login make the single-row lookup come back empty, so the check lets a third through |
| AdminInstancias.NovaInstancia | app/admin-secreto/instancias/page.tsx:466-480 | the inserted tenant gets a fresh key, the form's fields, e-mail `usuario@clinica.com` and `ativo` true |
| AdminInstancias.AdminPage.SubmitInstancia | app/admin-secreto/instancias/page.tsx:440-512 | the toast is the first failing check, the insert failure or success; on success the tenant is appended and the form cleared, otherwise nothing changes |
| AdminInstancias.ValidateMedicoCases | app/admin-secreto/instancias/page.tsx:520-543 | a doctor passes exactly when the five fields are filled, the passwords agree and the login lookup does not find exactly one login |
| AdminInstancias.NovoMedico | app/admin-secreto/instancias/page.tsx:546-556 | the inserted doctor gets a fresh key, the login as e-mail, an empty phone and no tenant |
| AdminInstancias.NovoAuth | app/admin-secreto/instancias/page.tsx:571-583 | the inserted login gets a fresh key, is tied to the new doctor, has no tenant and the override off |
| AdminInstancias.DeleteAppendedMedico | app/admin-secreto/instancias/page.tsx:585-590 | deleting the just-inserted doctor by its fresh key restores the doctors' table |
| AdminInstancias.DesfazerMedico | app/admin-secreto/instancias/page.tsx:585-590 | the clean-up delete leaves the doctors' table as it was before the insert |
| AdminInstancias.AdminPage.SubmitMedico | app/admin-secreto/instancias/page.tsx:514-618 | on success both the doctor and its login are appended; when the login insert fails the doctor row is removed again, unless that delete also fails; the logins table changes only on success |
| AdminInstancias.TenantMarkMatchesRoute | app/admin-secreto/instancias/page.tsx:258-269 | the tenant list's manual-access mark is true exactly when some login of that tenant has the override, the same answer as the access route |
| AdminInstancias.TwoActiveRowsHideSubscription | app/admin-secreto/instancias/page.tsx:219-227 | two "active" rows for one doctor make the single-row lookup come back empty, so the list shows no subscription |
| AdminInstancias.BadgeAgreesWithDot | app/admin-secreto/instancias/page.tsx:1170-1183 | the dot is green exactly when the tooltip names a source of access, and the override is named first |
| AdminInstancias.AdminPage.Reload | app/admin-secreto/instancias/page.tsx:167-293 | the column probe is stored; unless a load fails, the lists become the doctor and tenant views of the tables |
| AdminInstancias.AlterarChangesOnlyThatFlag | app/admin-secreto/instancias/page.tsx:304-384 | for a linked login, not being revoked while subscribed, the write changes that login's flag alone and reports success |
| AdminInstancias.LostUpdateIsReported | app/admin-secreto/instancias/page.tsx:362-377 | an update that did not reach the row is reported as not applied when the flag read back differs |
| AdminInstancias.AlterarFailuresWriteNothing | app/admin-secreto/instancias/page.tsx:296-410 | every refusal and every failure leaves the logins table as it was |
| AdminInstancias.EnabledToggleIsNotRefused | app/admin-secreto/instancias/page.tsx:1199-1208 | a switch the list shows enabled never meets the column, link or subscription refusals, and a write that lands succeeds |
| AdminInstancias.AdminPage.AlterarAcesso | app/admin-secreto/instancias/page.tsx:296-410 | the toast and the logins table follow the refusals and the read-back; success flips only that doctor's list row; a thrown failure reloads the lists |
| AdminInstancias.AdminPage.ApplyAcesso | app/admin-secreto/instancias/page.tsx:352-401 | the write and its read-back: every failure here is thrown and reloads the lists; success updates that list row alone |
| AdminInstancias.UnlinkClearsTenant | app/admin-secreto/instancias/page.tsx:624 | after the unlinking update no login points at the tenant |
| AdminInstancias.DeleteKeepsInstanciaKeys | app/admin-secreto/instancias/page.tsx:627 | deleting tenants keeps the remaining keys unique |
| AdminInstancias.AdminPage.ExcluirInstancia | app/admin-secreto/instancias/page.tsx:620-647 | the logins are unlinked unless that update fails (its outcome is not checked); the tenant is deleted unless the delete fails, which decides the toast |
| AdminInstancias.LinkTouchesOnlyChosen | app/admin-secreto/instancias/page.tsx:695-698 | linking by key rewrites only the chosen login, and only its tenant |
| AdminInstancias.AdminPage.VincularMedico | app/admin-secreto/instancias/page.tsx:683-720 | both selections are required; on success the chosen login gets the chosen tenant and the selections clear; otherwise nothing changes |
| AdminInstancias.AdminPage.constructor | app/admin-secreto/instancias/page.tsx:48-76 | the forms start empty, the lists empty, no selection and the column assumed missing |
| Subscriptions.StatusOf | app/api/webhook/route.ts:139 | the provider's status is stored verbatim: reading the column gives back a status whose name is that text, `Active` exactly for "active" |
| Subscriptions.StatusRoundTrip | app/api/webhook/route.ts:139 | storing a status and reading it back gives the same status |
| Subscriptions.PeriodValidBoundary | components/assinatura-global-check.tsx:25-32 | no period end means not valid; the period is still valid at its last instant and no longer one millisecond later |
| Subscriptions.PeriodValidMonotone | components/assinatura-global-check.tsx:25-32 | a period that is valid later was valid earlier: once lapsed it stays lapsed |
| Subscriptions.MarkExpired | components/assinatura-global-check.tsx:88-94 | the expiry write sets status "expired" and `updated_at`, nothing else |
| Subscriptions.StampCanceled | app/medico/area/assinatura/page.tsx:266-272 | the cancellation write sets `canceled_at` and `updated_at` and leaves the status and every other field alone |
| Subscriptions.Refresh | app/api/webhook/route.ts:136-145 | the renewal write copies the provider status and period, seconds times 1000, with the next billing date equal to the period end |
| Subscriptions.RefreshIdempotent | app/api/webhook/route.ts:136-145 | applying the same provider state twice is the same as applying it once at the later time |
| Subscriptions.Terminate | app/api/webhook/route.ts:246-253 | the deletion write sets the given status, `canceled_at` and `updated_at`, nothing else |

## Left out

- **Network and storage.**
  - `fetch`, cookies, `sessionStorage` and the router are modelled as maps and recorded targets.
  - Loading flags, toasts, logging and all rendering are not modelled.
  - React effects run when the model's methods are called, not on a schedule.
- **Payment provider calls.**
  - These are signature verification, subscription retrieval and cancellation, customer creation and update, and checkout sessions and redirects.
  - Their outcomes are parameters. The HMAC signature check is a foreign library.
- **The database client.**
  - Tables are in-memory sequences. Query errors and thrown exceptions are boolean or enumerated parameters.
  - Probes for a missing table or column are a boolean input.
  - Generated keys are `Text.FreshId`, a key longer than every key in use.
  - Ordering by `created_at` is kept by storing subscription rows newest first.
- **Remote SQL routes.** The SQL runner, the `medicos_auth` repair and override routes, and the debug routes execute SQL remotely, so they are not part of this model.
- **Dates, time zones and locale.**
  - Dates are proleptic Gregorian (year, month, day) triples read in local time; time-zone and daylight-saving shifts are not modelled.
  - `formatarData`, `formatarDataHora`, `formatarMoeda`, `diferencaEmDias` and `adicionarDias` (`lib/utils.ts`) depend on `Date` parsing and locale formatting.
- **Randomness.** `gerarCodigoAleatorio` (`lib/utils.ts`) depends on `Math.random`.
- **`cn`.** It only merges CSS class names.
- **Timers and polling.** The retry loop after checkout and the copy-feedback timeout.
- **Pure UI components.** Calendar wrappers, sidebars, banners, skeletons and layouts.
- **Concurrency.** The parallel per-row lookups of the admin page's `carregarDados` are modelled one after the other.
- **Text handling.**
  - Case mapping covers ASCII letters only.
  - The regular expressions are stated as predicates over characters, with JavaScript's `\s` and `\w` classes written out.
  - Patient names are ordered by character code, with missing names last; the database's collation is not modelled.
- **Passwords.** They are compared as plain strings, as the sign-in page does; nothing about hashing is modelled.
- **AdminInstancias.AdminPage.SubmitInstancia and the other admin actions.** The `carregarDados` reload after a successful action is a separate call (`AdminPage.Reload`) and is not repeated inside each action.
- **Agendamentos.Page.CarregarDisponibilidadeDias.** It requires a today in years 6 to 9998, so that the five-years-back and one-year-ahead window keeps four-digit `yyyy-MM-dd` keys.
- **Agendamentos.Page.Montar.** The same year bound applies.
- **Agendamentos.CalcularVagas.** The same year bound applies.
- **Agendamentos.ClassificarJanela.** The same year bound applies.
- **Agendamentos.JanelaClassificada.** The same year bound applies.
- **Agendamentos.WindowKeys.** The same year bound applies.
- **Agendamentos.WindowKey.** The same year bound applies.
- **HorariosDisponiveis.Picker.** A change of the `horariosOcupados` prop after the first render is not modelled; the occupied slots are fixed per picker.
- **Calendario.** The month title text comes from locale formatting, which is not modelled.
- **AssinaturaPage.StartCheckout.** It models the guard in front of `iniciarAssinatura` and the request it sends. The network call and the provider redirect are left out.
- **AdminInstancias.AdminPage.Reload.** The lists keep the tables' own order: the tenants are not sorted by `criado_em` descending and the logins are not sorted by `nome` ascending, because the database's ordering and collation are not modelled.
- **Agendamentos.Buscar.** It compares whole days. In the source `dataFinal` is today plus 365 days at the current clock time, so rows on that last day before that time are fetched there and not here; times of day are not modelled.
- **Calendario.Grade.** It requires a year from 2 to 9999: the leading cells reach into the previous month, which must be a real date, and the "yyyy-MM-dd" keys that mark available days must stay four-digit.
- **Calendario.Anteriores.** The same year bound applies (from year 2).
- **Calendario.Atuais.** The same year bound applies (up to year 9999).
- **Calendario.DiasDoMes.** The same year bound applies.
- **Calendario.PreencherAnteriores.** The same year bound applies.
- **Calendario.PreencherAtuais.** The same year bound applies.
- **Calendario.GradeConsecutive.** The same year bound applies.
- **Calendario.GradeColumnIsWeekday.** The same year bound applies.
- **Calendario.GradeCells.** The same year bound applies.
- **Calendario.SemanasOfGrade.** The same year bound applies.
- **Calendario.ClickReportsShownMonth.** The same year bound applies.
- **Utils.Truncar.** It counts characters as Unicode scalar values. JavaScript's `length` and `slice` count UTF-16 code units, so a text with characters outside the Basic Multilingual Plane is measured and cut differently.
- **Utils.TruncarCases.** The same counting of characters applies.

## Findings

| source | as written | input that shows it | evidently intended | confidence | as-written member | corrected member |
|---|---|---|---|---|---|---|
| components/instancia-auth-check.tsx:21 | the public-route test is a plain string prefix (`startsWith("/medico")`), so any path beginning with those letters skips the tenant check | pathname `/medicos` (the tenant's doctor list) with an empty session is let through | only `/login`, `/admin-secreto`, `/medico` and the pages below them skip the check | not executed | InstanciaAuthCheck.MedicosBypassedAsWritten | InstanciaAuthCheck.MedicosGuarded |
