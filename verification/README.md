# School records front end: a verified model of its logic

This project is a Dafny model of the deterministic logic in a React front end for a school-records system. The system covers students, attendance, report cards, health records, after-school projects (*contraturno*), staff, user accounts, the audit log and the school settings. Each core source file becomes one Dafny module.

- **Values.** Pure parts are datatypes and functions: the route guard and route table, the threshold classifiers, filters, the phone mask, tag splitting and payload building.
- **State.** Parts that keep React state or write to storage are classes whose methods update fields, for example the session provider, the pagination and revert staging of the audit log, and the health-record list editors.

Shared modules:

- `Wrappers`: the `Option` type and `Number(x) || 0`.
- `Seqs`: JavaScript's `filter`, `find` and index-based copy and replace on arrays.
- `Text`: `trim`, an ASCII `toLowerCase`, `includes`, `split`, `join` and digit stripping.
- `Access`: the three roles, the one privilege table every screen gate is checked against, and its monotonicity in rank.
- `Browser`: `localStorage` and the location.
- `JsonValue`: loosely typed records.

Every screen's inline role gate has a `GatesAgree` lemma that ties it to `Access.Can`. The route table is proved to agree with the same table and to be monotone in privilege.

Two deny-list gates (`role !== 'VISITANTE'`) differ from the allow-list only for a role string that is none of the three. `Colaboradores.DenyListPartsOnlyForUnknownRoles` and `ContraturnoProjetos.GatesAgree` prove this. The route guard never lets such a user reach those screens, so it is not listed as a finding.

## Model

| member | source | states |
|---|---|---|
| Access.RoleOf | src/router/index.jsx:55-59 | the three role spellings ADMIN, EDITOR and VISITANTE map to their own role, each exactly when the string is that spelling; anything else is unrecognised |
| Access.CanMonotone | src/router/index.jsx:55-185 | privilege is monotone: whatever a role may do, every role ranked at least as high may do too |
| Access.AdminOrEditorIsCreateEdit | frontend/src/features/alunos/tabs/FrequenciaTab.jsx:246 | the inline gate `role === ADMIN or role === EDITOR` holds exactly when the user has the create/edit capability (a missing user has none) |
| Access.AdminIsDelete | frontend/src/features/alunos/tabs/FrequenciaTab.jsx:305 | the inline gate `role === ADMIN` holds exactly when the user may delete, and likewise for configuring, auditing and managing users |
| Wrappers.NumberOrZero | frontend/src/features/alunos/tabs/BoletinsTab.jsx:160 | `parseFloat(x) \|\| 0` and `Number(x) \|\| 0`: a number is kept and NaN becomes 0 (also frontend/src/features/alunos/tabs/FrequenciaTab.jsx:129-131 and frontend/src/pages/ConfiguracoesPage.jsx:102) |
| AuthContext.IdentityOf | frontend/src/context/AuthContext.jsx:21-31 | a decoded token yields an identity exactly when user_id, username and role are all strings that are not blank after trimming; the identity then carries userId = user_id, username and role |
| AuthContext.Recomputed | frontend/src/context/AuthContext.jsx:12-53 | after the token effect, isLoading is false and isAuthenticated holds exactly when a user is set; a user is set exactly when a truthy token decodes to complete claims, and then the token is written under 'token'; otherwise 'token' and 'studentId' are removed; the token state becomes null only when decoding throws |
| AuthContext.RecomputeSettles | frontend/src/context/AuthContext.jsx:12-58 | running the token effect again on its own result changes nothing |
| AuthContext.AuthProvider.constructor | frontend/src/context/AuthContext.jsx:7-10 | the provider starts with the stored token, no user, unauthenticated and loading |
| AuthContext.AuthProvider.Recompute | frontend/src/context/AuthContext.jsx:12-58 | the effect's step-by-step updates of the fields and of storage leave exactly the recomputed session, and the location is untouched |
| AuthContext.AuthProvider.LoginUser | frontend/src/context/AuthContext.jsx:60-62 | only the token changes; the identity is left to the recompute |
| AuthContext.AuthProvider.LogoutUser | frontend/src/context/AuthContext.jsx:64-76 | token and user become null, the session unauthenticated, 'token' and 'studentId' are removed from storage and the location is set to '/login' |
| Browser.Purged | frontend/src/api/http.js:23-24 | removes exactly the 'token' and 'studentId' keys and keeps every other entry |
| Browser.PurgeIdempotent | frontend/src/api/http.js:22-24 | purging storage twice leaves it as purging once |
| Http.StoredToken | frontend/src/api/http.js:12-13 | a token is used exactly when storage holds a non-empty 'token', and it is that value |
| Http.OnRequest | frontend/src/api/http.js:11-17 | the outgoing config gets header X-API-TOKEN set to the stored token when there is one, and its headers are otherwise unchanged |
| Http.OnResponse | frontend/src/api/http.js:20 | a successful response passes through unchanged |
| Http.OnResponseError | frontend/src/api/http.js:21-31 | a 401 removes 'token' and 'studentId' and sends the browser to '/login' unless it is already there; any other error leaves storage and location alone; the error is rejected unchanged |
| LoginPage.RedirectTarget | frontend/src/features/auth/LoginPage.jsx:53 | after login the target is the requested page carried in the navigation state when present and non-empty, otherwise '/dashboard' |
| LoginPage.RedirectBackToRequestedPage | frontend/src/features/auth/LoginPage.jsx:53-54 | a visitor the guard sends to '/login' from a page is sent back to that same page after logging in |
| LoginPage.AuthenticatedRedirect | frontend/src/features/auth/LoginPage.jsx:33-37 | an authenticated visitor is sent to '/dashboard', and only then |
| LoginPage.ErrorMessage | frontend/src/features/auth/LoginPage.jsx:57 | the error shown is the backend's non-empty detail, else the fixed default message |
| LoginPage.LoginForm.constructor | frontend/src/features/auth/LoginPage.jsx:22-31 | the form starts with empty fields, no error and not loading |
| LoginPage.LoginForm.OnSubmit | frontend/src/features/auth/LoginPage.jsx:39-67 | on success the token goes to loginUser, 'studentId' is stored only when the answer carries one, the fields are kept and the steps end in navigation; on failure the error message is set, both fields are reset to "", token and storage are untouched and nothing is navigated; loading ends false either way |
| LoginPage.LoginBeforeNavigation | frontend/src/features/auth/LoginPage.jsx:45-54 | on success the token is handed to loginUser first, navigation to the redirect target comes last and only there, and a studentId is stored exactly when one is returned |
| Router.Guard | src/router/index.jsx:20-47 | the guard decides in source order: loading waits; unauthenticated goes to '/login' carrying the location; a missing user or role goes to '/login' with the error message; otherwise the view renders exactly when the role is allowed, and the '/dashboard' redirect carries the not-authorised message |
| Router.NoRedirectWhileLoading | src/router/index.jsx:24-26 | while loading no redirect is produced, whatever the other inputs |
| Router.AllowedUserGetsView | src/router/index.jsx:39-46 | an authenticated user whose role is allowed always gets the view |
| Router.RoutesAgreeWithCan | src/router/index.jsx:61-185 | every protected route admits a role exactly when the privilege table gives that role the route's capability |
| Router.RoutesMonotone | src/router/index.jsx:61-185 | any route admitting a role admits every higher-ranked role: VISITANTE implies EDITOR implies ADMIN |
| Router.RoleName | src/router/index.jsx:55-59 | each recognised role's spelling maps back to that role |
| Router.ElementIn | src/router/index.jsx:62-186 | a lookup of a declared pattern (not a browser URL) that does not fall to the catch-all returns the element of a route declared with that pattern |
| Router.FirstMatch | src/router/index.jsx:62-186 | the lookup of a pattern returns the first route declared with that exact pattern |
| Router.TableLookup | src/router/index.jsx:62-186 | no pattern is declared twice, so each route's pattern resolves to its own element |
| Router.AdminOnlyRoutes | src/router/index.jsx:152-167 | '/auditoria' and '/usuarios' admit only ADMIN |
| Router.WriterRoutes | src/router/index.jsx:80-95 | '/alunos/novo', '/alunos/:id/edit', '/contraturno/novo', '/contraturno/:id/edit' and '/comunicado' admit exactly ADMIN and EDITOR |
| Router.RootAndFallback | src/router/index.jsx:184-185 | the pattern '/' redirects to '/dashboard' without a guard, and a pattern no route declares renders the not-found page |
| Router.NotInTable | src/router/index.jsx:185 | a pattern no route declares resolves to the not-found page |
| Configuracoes.SectionOf | frontend/src/hooks/useConfiguracoes.js:37-39 | a section missing from the loaded configuration (or nothing loaded) reads as the empty object |
| Configuracoes.MergedSection | frontend/src/hooks/useConfiguracoes.js:36-40 | a merged section has the keys of the defaults and of the loaded section; a loaded value wins, a key only in the defaults keeps its default |
| Configuracoes.Merged | frontend/src/hooks/useConfiguracoes.js:36-40 | the merged configuration has exactly the three sections, each merged key by key |
| Configuracoes.MergeOfNothing | frontend/src/hooks/useConfiguracoes.js:6-21 | with nothing loaded the merged configuration is exactly the defaults |
| Configuracoes.BandsFollowLoaded | frontend/src/hooks/useConfiguracoes.js:37 | a loaded critico threshold overrides the default and a missing one falls back to 70 (also line 44) |
| Configuracoes.DefaultBands | frontend/src/hooks/useConfiguracoes.js:8-15 | the default thresholds are 70/80/90 for attendance and 5/7/7 for grades |
| Configuracoes.NotaBandsExact | frontend/src/hooks/useConfiguracoes.js:56-64 | each grade status holds exactly on its band (below reprovado, below recuperacao, otherwise Aprovado), and the aprovado threshold never changes the result |
| Configuracoes.DefaultFrequenciaBands | frontend/src/hooks/useConfiguracoes.js:8-11 | with the defaults the bands are [0,70) Crítico, [70,80) Atenção, [80,90) Moderado and [90,∞) Regular (also lines 43-53) |
| Configuracoes.FrequenciaMonotone | frontend/src/hooks/useConfiguracoes.js:43-53 | the attendance status never decreases as the percentage grows, along Crítico < Atenção < Moderado < Regular, for any thresholds |
| Configuracoes.FlagsDefaultOn | frontend/src/hooks/useConfiguracoes.js:17-20 | both feature flags are on unless the loaded interface section sets them, and then they follow the loaded value's truthiness (also lines 67-74) |
| ConfiguracoesPage.SetField | frontend/src/pages/ConfiguracoesPage.jsx:98-104 | the nested spread sets exactly section.campo, keeps every other section and every other field of that section, and adds nothing else |
| ConfiguracoesPage.GatesAgree | frontend/src/pages/ConfiguracoesPage.jsx:20-33 | the page renders and its query runs exactly for the configure capability (ADMIN); any other signed-in user gets nothing and is sent to '/dashboard' (also lines 129-131) |
| ConfiguracoesPage.SettingsPage.constructor | frontend/src/pages/ConfiguracoesPage.jsx:17 | local state starts empty |
| ConfiguracoesPage.SettingsPage.OnDataLoaded | frontend/src/pages/ConfiguracoesPage.jsx:36-42 | fetched data replaces local state only when present |
| ConfiguracoesPage.SettingsPage.HandleInputChange | frontend/src/pages/ConfiguracoesPage.jsx:96-105 | the new state is the old one, or the defaults when nothing is loaded, with exactly section.campo set to the parsed number or 0 |
| ConfiguracoesPage.SettingsPage.HandleToggleChange | frontend/src/pages/ConfiguracoesPage.jsx:107-116 | the new state is the old one, or the defaults, with exactly section.campo set to the given flag |
| ConfiguracoesPage.SettingsPage.HandleSalvar | frontend/src/pages/ConfiguracoesPage.jsx:118-121 | save sends the local state, or the defaults when nothing is loaded |
| ConfiguracoesPage.SettingsPage.HandleResetar | frontend/src/pages/ConfiguracoesPage.jsx:123-127 | a reset is requested exactly when confirmed |
| ConfiguracoesPage.SettingsPage.OnMutationSuccess | frontend/src/pages/ConfiguracoesPage.jsx:72-75 | a successful save or reset replaces local state with the backend's answer (also lines 86-88) |
| ConfiguracoesPage.EditIsDisplayed | frontend/src/pages/ConfiguracoesPage.jsx:63-67 | after an edit the displayed configuration shows the new value at section.campo and every other displayed field as before (also lines 96-116) |
| Auditoria.TotalPages | frontend/src/features/auditoria/AuditoriaPage.jsx:389 | the page count is ceil(total/20): no pages for an empty log, otherwise the fewest 20-entry pages that hold every entry |
| Auditoria.RangeLabelInRange | frontend/src/features/auditoria/AuditoriaPage.jsx:378 | on every existing page the label runs from skip+1 = 20·p+1 to min(20·(p+1), total), a non-empty range inside the log of at most 20 entries (also line 533) |
| Auditoria.FortyFiveEntries | frontend/src/features/auditoria/AuditoriaPage.jsx:378 | a 45-entry log has three pages and the third shows entries 41 to 45 (also line 389, line 533) |
| Auditoria.PagerStaysInRange | frontend/src/features/auditoria/AuditoriaPage.jsx:539 | from a valid page of a multi-page log, max(0, p−1) and min(totalPages−1, p+1) are valid pages, one step away when not at an end (also line 550) |
| Auditoria.Pager.constructor | frontend/src/features/auditoria/AuditoriaPage.jsx:367 | the pager starts on page 0 |
| Auditoria.Pager.ClickPrev | frontend/src/features/auditoria/AuditoriaPage.jsx:536-543 | "Anterior" moves one page back and is inert on the first page; the page stays valid |
| Auditoria.Pager.ClickNext | frontend/src/features/auditoria/AuditoriaPage.jsx:547-554 | "Próximo" moves one page on and is inert on the last page; the page stays valid |
| Auditoria.DiffRowsExact | frontend/src/features/auditoria/AuditoriaPage.jsx:275-276 | a changed field is a diff row exactly when it is not one of createdAt/createdBy/lastEditedAt/lastEditedBy; rows keep the order of `changes`, and a list without bookkeeping fields is shown whole |
| Auditoria.ListedEntriesExact | frontend/src/features/auditoria/AuditoriaPage.jsx:207-208 | a CREATE/DELETE listing shows an entry exactly when its key neither starts with '_' nor is a bookkeeping field (also lines 242-243) |
| Auditoria.ActionText | frontend/src/features/auditoria/AuditoriaPage.jsx:43-56 | an action outside CREATE/UPDATE/DELETE/REVERT is shown as its raw text |
| Auditoria.View | frontend/src/features/auditoria/AuditoriaPage.jsx:187-288 | nothing is shown without before and after data; otherwise a CREATE entry lists exactly the shown entries of afterData and a DELETE entry those of beforeData; a changed-fields view appears exactly for UPDATE or REVERT with a non-empty change list, and lists the filtered diff rows; revert controls appear exactly for UPDATE, never for REVERT, CREATE or DELETE |
| Auditoria.DataDiff.constructor | frontend/src/features/auditoria/AuditoriaPage.jsx:149 | a diff starts with no field staged |
| Auditoria.DataDiff.HandleRevert | frontend/src/features/auditoria/AuditoriaPage.jsx:168-181 | a click on a field that is not staged only stages it; a click on the staged field sends {collection, documentId, fieldName, previousValue} with the field's before-value (also line 303, line 315) |
| Auditoria.DataDiff.CancelRevert | frontend/src/features/auditoria/AuditoriaPage.jsx:183-185 | cancel clears the staged field |
| Auditoria.DataDiff.OnRevertSuccess | frontend/src/features/auditoria/AuditoriaPage.jsx:155-160 | success clears the staged field and invalidates 'audit-logs' instead of inserting an entry locally |
| Auditoria.DataDiff.OnRevertError | frontend/src/features/auditoria/AuditoriaPage.jsx:161-165 | an error clears the staged field |
| Auditoria.GatesAgree | frontend/src/features/auditoria/AuditoriaPage.jsx:371-373 | a visitor is sent to '/dashboard' exactly when they lack the audit capability (are not ADMIN) |
| Usuarios.RoleLabel | frontend/src/features/usuarios/UsuariosPage.jsx:88-95 | the three roles get their fixed labels and an unknown role falls back to its raw text |
| Usuarios.RoleLabelsDistinct | frontend/src/features/usuarios/UsuariosPage.jsx:89-93 | two different recognised roles never share a label |
| Usuarios.SessionProperty | frontend/src/context/AuthContext.jsx:27-31 | the session's user object has only userId, username and role; any other property reads as undefined |
| Usuarios.AdminCanDeleteSelfAsWritten | frontend/src/features/usuarios/UsuariosPage.jsx:196 | as written, the self-delete guard compares with the absent `user_id`, so an ADMIN is offered the delete button on every row, their own included |
| Usuarios.DeleteButtonNeverForSelf | frontend/src/features/usuarios/UsuariosPage.jsx:196 | the corrected button shows exactly for a user-managing (ADMIN) session on a row other than its own |
| Usuarios.GatesAgree | frontend/src/features/usuarios/UsuariosPage.jsx:23-25 | the edit button is the create/edit capability, and a visitor is sent to '/dashboard' exactly when they cannot manage users, a missing user included |
| Usuarios.UsuariosPage.constructor | frontend/src/features/usuarios/UsuariosPage.jsx:13-18 | the modal starts closed and the form blank with role VISITANTE |
| Usuarios.UsuariosPage.OpenModal | frontend/src/features/usuarios/UsuariosPage.jsx:13 | opening the modal keeps the form |
| Usuarios.UsuariosPage.HandleInputChange | frontend/src/features/usuarios/UsuariosPage.jsx:61-67 | one input sets exactly its own form key |
| Usuarios.UsuariosPage.HandleSubmit | frontend/src/features/usuarios/UsuariosPage.jsx:69-74 | the form is sent as it stands |
| Usuarios.UsuariosPage.OnCreateSuccess | frontend/src/features/usuarios/UsuariosPage.jsx:36-41 | a created user closes the modal and resets the form to role VISITANTE |
| Usuarios.UsuariosPage.CloseModal | frontend/src/features/usuarios/UsuariosPage.jsx:76-79 | closing resets the form to role VISITANTE |
| Usuarios.UsuariosPage.HandleExcluirUsuario | frontend/src/features/usuarios/UsuariosPage.jsx:81-86 | a user is deleted only after confirmation |
| AlunoList.BaseFiltered | frontend/src/features/alunos/AlunoListPage.jsx:148-155 | every listed student comes from the list and passes the search (case-insensitive on name, surname and school year, exact on enrolment number) and the period test; every student that passes is listed |
| AlunoList.FinalFiltered | frontend/src/features/alunos/AlunoListPage.jsx:157-159 | with the attendance filter off the base list is unchanged; with it on, exactly the students of the base list whose id is flagged remain |
| AlunoList.EmptySearchKeepsAll | frontend/src/features/alunos/AlunoListPage.jsx:148-155 | an empty search with period "Todos" lists every student, in order |
| AlunoList.ListedIsOrderedSelection | frontend/src/features/alunos/AlunoListPage.jsx:148-159 | the listed students are the students passing every active test, in their original relative order |
| AlunoList.LatestIsLastNewest | frontend/src/features/alunos/AlunoListPage.jsx:54-56 | the reduce picks a record of greatest year (`ano || 0`), and among ties the last one |
| AlunoList.LoadAndFilterAgree | frontend/src/features/alunos/AlunoListPage.jsx:58-64 | the load effect's `(percent || 0) < 75` and the filter effect's `percent < threshold` at 75 agree, except when the latest record has no percentage, which only the load effect flags |
| AlunoList.CarregarDadosFrequencia | frontend/src/features/alunos/AlunoListPage.jsx:41-83 | the percentage map has exactly the ids of students with records, each mapped to the latest percentage of a student with that id; the flagged set is exactly the ids whose latest percentage is below 75 |
| AlunoList.FiltrarBaixaFrequencia | frontend/src/features/alunos/AlunoListPage.jsx:85-115 | the flagged set is exactly the ids of students with records whose latest percentage is below the chosen threshold |
| AlunoList.AlunoTags | frontend/src/features/alunos/AlunoListPage.jsx:191-201 | the original tags come first, unchanged; at most one tag is added, "Baixa frequência", and only when it was missing; the result holds that tag exactly when it was there or the student is flagged |
| AlunoList.TagsAddedOnce | frontend/src/features/alunos/AlunoListPage.jsx:195-198 | computing the tags again from computed tags adds nothing |
| AlunoList.CalculateAge | frontend/src/features/alunos/AlunoListPage.jsx:161-162 | "N/A" (None) exactly when there is no birth date |
| AlunoList.AgeIsCompletedYears | frontend/src/features/alunos/AlunoListPage.jsx:161-171 | the age is the number of completed years: the birthday of that age is not after today and the next one is; someone born by today has a non-negative age |
| AlunoList.Changed | frontend/src/features/alunos/AlunoListPage.jsx:301-308 | a number within [0, 100] is stored, an empty input stores 0, anything else leaves the threshold; so the threshold stays a percentage |
| AlunoList.BlurredAsWritten | frontend/src/features/alunos/AlunoListPage.jsx:309-315 | the blur handler in source order keeps the threshold within [0, 100] |
| AlunoList.BlankBlurAsWrittenGivesZero | frontend/src/features/alunos/AlunoListPage.jsx:309-315 | as written, leaving the input empty stores 0, since `parseFloat("")` is NaN and the NaN branch comes first |
| AlunoList.Blurred | frontend/src/features/alunos/AlunoListPage.jsx:309-315 | an empty input restores 75; any other input behaves as the source does; the threshold stays within [0, 100] |
| AlunoList.FrequenciaFilter.constructor | frontend/src/features/alunos/AlunoListPage.jsx:22-23 | the filter starts off with threshold 75 |
| AlunoList.FrequenciaFilter.Toggle | frontend/src/features/alunos/AlunoListPage.jsx:291 | the checkbox sets the flag and leaves the threshold |
| AlunoList.FrequenciaFilter.OnChange | frontend/src/features/alunos/AlunoListPage.jsx:301-308 | the new threshold is the change handler's value, and it remains a percentage |
| AlunoList.FrequenciaFilter.OnBlur | frontend/src/features/alunos/AlunoListPage.jsx:309-315 | the new threshold is the corrected blur handler's value, and it remains a percentage |
| AlunoList.FrequenciaFilter.EffectiveThreshold | frontend/src/features/alunos/AlunoListPage.jsx:85-146 | the threshold that the flagging uses is always a percentage |
| AlunoList.EmptyConfirmationDisabled | frontend/src/features/alunos/AlunoListPage.jsx:470 | a freshly opened dialog, with nothing typed, never has the delete button enabled |
| AlunoList.GatesAgree | frontend/src/features/alunos/AlunoListPage.jsx:203-204 | the inline create/edit and delete gates agree with the privilege table |
| AlunoList.DeleteDialog.constructor | frontend/src/features/alunos/AlunoListPage.jsx:17-18 | no student is chosen and nothing is typed |
| AlunoList.DeleteDialog.Choose | frontend/src/features/alunos/AlunoListPage.jsx:418 | the trash button chooses the student and leaves the typed text |
| AlunoList.DeleteDialog.Type | frontend/src/features/alunos/AlunoListPage.jsx:453 | the typed text is stored and the chosen student is kept |
| AlunoList.DeleteDialog.Close | frontend/src/features/alunos/AlunoListPage.jsx:31-34 | cancelling, and a successful delete, clear both the chosen student and the text |
| AlunoList.DeleteDialog.Confirm | frontend/src/features/alunos/AlunoListPage.jsx:467-470 | a delete request is sent exactly when the typed text equals "nome sobrenome" and no delete is running, and it carries the chosen student's id |
| FrequenciaTab.PercentOrZero | frontend/src/features/alunos/tabs/FrequenciaTab.jsx:58 | `p \|\| 0`: a stored number is used as is; null, absent or NaN counts as 0 |
| FrequenciaTab.PercentPresenca | frontend/src/features/alunos/tabs/FrequenciaTab.jsx:30-38 | the percentage is null exactly when a count is not a number or the total is not positive; otherwise it is the share of classes attended, times 100 |
| FrequenciaTab.PercentBounds | frontend/src/features/alunos/tabs/FrequenciaTab.jsx:30-38 | with a positive total and absences between 0 and the total, the percentage lies in [0, 100]; it is 100 with no absences and 0 when every class was missed |
| FrequenciaTab.Reprocessed | frontend/src/features/alunos/tabs/FrequenciaTab.jsx:64-71 | a reload keeps every record, in order, and replaces only its percentage with the recomputed one |
| FrequenciaTab.FrequenciaGeral | frontend/src/features/alunos/tabs/FrequenciaTab.jsx:217-219 | with no classes counted the overall frequency is 0 |
| FrequenciaTab.TotalsOrdered | frontend/src/features/alunos/tabs/FrequenciaTab.jsx:217-218 | summing records whose absences lie between 0 and their total keeps the total absences between 0 and the total classes |
| FrequenciaTab.FrequenciaGeralBounds | frontend/src/features/alunos/tabs/FrequenciaTab.jsx:217-219 | over such records the overall frequency is a percentage in [0, 100] |
| FrequenciaTab.StatusBadge | frontend/src/features/alunos/tabs/FrequenciaTab.jsx:222-228 | N/D exactly when the percentage is null, absent or NaN; otherwise the configured attendance classifier's status |
| FrequenciaTab.UncomputableShowsNotAvailable | frontend/src/features/alunos/tabs/FrequenciaTab.jsx:30-38 | a reloaded record whose counts give no percentage shows N/D, whatever the thresholds |
| FrequenciaTab.BuildPayload | frontend/src/features/alunos/tabs/FrequenciaTab.jsx:126-132 | the saved year is the typed one, or the current year when blank; classes come from `aulasPrevistas` and absences from `faltas`, blank meaning 0; the rest of the form is carried along |
| FrequenciaTab.EditThenSave | frontend/src/features/alunos/tabs/FrequenciaTab.jsx:108-131 | opening a record for edit and saving it unchanged sends back its counts (missing as 0) and its year (missing as the current year) |
| FrequenciaTab.BlankFormPayload | frontend/src/features/alunos/tabs/FrequenciaTab.jsx:126-132 | a blank form saves as the current year with zero classes and absences |
| FrequenciaTab.FrequenciaModal.constructor | frontend/src/features/alunos/tabs/FrequenciaTab.jsx:47-50 | the modal starts closed, in add mode, with no current id and the initial form |
| FrequenciaTab.FrequenciaModal.HandleOpenModal | frontend/src/features/alunos/tabs/FrequenciaTab.jsx:105-120 | the modal opens in the given mode; editing a record loads its id (`id \|\| _id`) and its fields, and any other opening clears the id and the form |
| FrequenciaTab.FrequenciaModal.HandleSubmit | frontend/src/features/alunos/tabs/FrequenciaTab.jsx:122-141 | without a student id nothing is sent; otherwise add mode creates and edit mode updates the current id, each with the normalised payload |
| FrequenciaTab.GatesAgree | frontend/src/features/alunos/tabs/FrequenciaTab.jsx:246-305 | the inline add/edit and delete gates agree with the privilege table |
| BoletinsTab.Filtered | frontend/src/features/alunos/tabs/BoletinsTab.jsx:62-65 | "todos" keeps every report; a chosen year keeps exactly the reports whose year equals the parsed year (none for NaN) |
| BoletinsTab.FilteredKeepsOrder | frontend/src/features/alunos/tabs/BoletinsTab.jsx:62-65 | the filtered reports keep their original order |
| BoletinsTab.InsertDescending | frontend/src/features/alunos/tabs/BoletinsTab.jsx:68 | inserting a year into a strictly descending list keeps it strictly descending and adds exactly that year |
| BoletinsTab.AnosDisponiveis | frontend/src/features/alunos/tabs/BoletinsTab.jsx:68 | the year list is strictly descending (each year once, newest first) and holds exactly the years of the reports |
| BoletinsTab.DescendingUnique | frontend/src/features/alunos/tabs/BoletinsTab.jsx:68 | two strictly descending lists with the same elements are equal, so the list of years is determined by those properties |
| BoletinsTab.HeadIsMember | frontend/src/features/alunos/tabs/BoletinsTab.jsx:68 | the first element of a non-empty list is one of its elements |
| BoletinsTab.Media | frontend/src/features/alunos/tabs/BoletinsTab.jsx:164-165 | the average of no disciplines is 0 |
| BoletinsTab.SumBetween | frontend/src/features/alunos/tabs/BoletinsTab.jsx:166 | the sum of n grades between lo and hi lies between n times lo and n times hi |
| BoletinsTab.MediaBetween | frontend/src/features/alunos/tabs/BoletinsTab.jsx:164-168 | the average of grades between lo and hi lies between them |
| BoletinsTab.AllGradesPassing | frontend/src/features/alunos/tabs/BoletinsTab.jsx:258-259 | with ordered thresholds, a report whose every grade reaches the recovery threshold is classified as passed |
| BoletinsTab.Disciplina.constructor | frontend/src/features/alunos/tabs/BoletinsTab.jsx:40-46 | a discipline object holds the given name and grade |
| BoletinsTab.Grades | frontend/src/features/alunos/tabs/BoletinsTab.jsx:155 | the values read from a list of discipline objects, one per object, in order |
| BoletinsTab.Boletim.constructor | frontend/src/features/alunos/tabs/BoletinsTab.jsx:62 | a cached report holds the given id, year, bimester and discipline objects |
| BoletinsTab.BoletimModal.constructor | frontend/src/features/alunos/tabs/BoletinsTab.jsx:33-47 | the modal starts closed and not editing, with no id, the current year, bimester 1 and the five default disciplines at 0 |
| BoletinsTab.BoletimModal.ResetarModal | frontend/src/features/alunos/tabs/BoletinsTab.jsx:170-185 | resetting closes the modal, stops editing, clears the id and restores the default form with new discipline objects |
| BoletinsTab.BoletimModal.NovoBoletim | frontend/src/features/alunos/tabs/BoletinsTab.jsx:224-226 | "Novo Boletim" shows a reset form |
| BoletinsTab.BoletimModal.StartEdit | frontend/src/features/alunos/tabs/BoletinsTab.jsx:267-276 | the edit button shows the modal in edit mode for that report's id, and the form takes the report's year, bimester and its very discipline objects |
| BoletinsTab.BoletimModal.UpdateNotaAsWritten | frontend/src/features/alunos/tabs/BoletinsTab.jsx:158-162 | as written, the grade is written into the discipline object at that index, which is the object the form shares with the cached report |
| BoletinsTab.BoletimModal.UpdateNota | frontend/src/features/alunos/tabs/BoletinsTab.jsx:158-162 | corrected: a new object with the parsed grade replaces the one at the index; every other discipline and every other field is unchanged |
| BoletinsTab.BoletimModal.HandleSubmit | frontend/src/features/alunos/tabs/BoletinsTab.jsx:149-156 | in edit mode the form is sent as an update of the edited id, otherwise as a create |
| BoletinsTab.EditThenCancelAsWritten | frontend/src/features/alunos/tabs/BoletinsTab.jsx:158-162 | as written, editing a grade and cancelling leaves the cached report with the edited grade, though nothing was saved |
| BoletinsTab.EditThenCancel | frontend/src/features/alunos/tabs/BoletinsTab.jsx:158-162 | with the corrected update, editing and cancelling leaves the cached report's grades as they were |
| BoletinsTab.GatesAgree | frontend/src/features/alunos/tabs/BoletinsTab.jsx:192-193 | the inline create/edit and delete gates agree with the privilege table |
| AlunoForm.ContatosPayload | frontend/src/features/alunos/AlunoFormPage.jsx:103-105 | the payload keeps exactly the contact rows with a name, a phone or an e-mail filled |
| AlunoForm.TrimAll | frontend/src/features/alunos/AlunoFormPage.jsx:106 | every piece of the split is trimmed, and none is dropped at this step |
| AlunoForm.SplitTags | frontend/src/features/alunos/AlunoFormPage.jsx:106 | an empty tag field gives no tags; every tag sent is non-empty, trimmed and free of commas |
| AlunoForm.TrimmedPiecesClean | frontend/src/features/alunos/AlunoFormPage.jsx:106 | trimmed pieces of a split are trimmed and still free of the separator |
| AlunoForm.SplitPiecesHaveNoSeparator | frontend/src/features/alunos/AlunoFormPage.jsx:106 | no piece of a split on ',' contains ',' |
| AlunoForm.TrimKeepsAbsent | frontend/src/features/alunos/AlunoFormPage.jsx:106 | trimming never brings in a character the string did not have |
| AlunoForm.SplitJoined | frontend/src/features/alunos/AlunoFormPage.jsx:75 | splitting the tags joined with ", " on ',' gives the first tag and then every other tag behind one space |
| AlunoForm.TagsRoundTrip | frontend/src/features/alunos/AlunoFormPage.jsx:75 | clean tags (non-empty, trimmed, without commas) survive the form: joined on load, split on save, they come back unchanged |
| AlunoForm.LoadedForm | frontend/src/features/alunos/AlunoFormPage.jsx:70-80 | the loaded form takes the date part of the birth date, the period or "Manhã", the address or "", the tags joined with ", ", and the contacts, or one blank row when there are none |
| AlunoForm.LoadedDateIsDatePart | frontend/src/features/alunos/AlunoFormPage.jsx:73 | a stored timestamp "date T time" loads as its date |
| AlunoForm.BuildPayload | frontend/src/features/alunos/AlunoFormPage.jsx:96-110 | the payload carries the personal fields as typed, the address, only the filled contacts, and the split tags |
| AlunoForm.LoadThenSave | frontend/src/features/alunos/AlunoFormPage.jsx:70-110 | loading a student and saving it untouched, once the schema accepts the loaded form, sends back its address, its clean tags and exactly its stored contacts |
| AlunoForm.NoContactsRejected | frontend/src/features/alunos/AlunoFormPage.jsx:77-79 | a student loaded without contacts gets one blank row, which the schema refuses for its empty name, so such a student cannot be saved untouched (also lines 17-24) |
| AlunoForm.SaveRequest | frontend/src/features/alunos/AlunoFormPage.jsx:112-117 | with a student id the payload is PUT to /alunos/{id}, otherwise it is POSTed to /alunos |
| AlunoForm.ValidatedContactsAllKept | frontend/src/features/alunos/AlunoFormPage.jsx:10-30 | once the schema accepts the form (every contact with name and phone), the contact filter keeps every row |
| AlunoForm.ContactRows.constructor | frontend/src/features/alunos/AlunoFormPage.jsx:52 | the form starts with one blank contact row |
| AlunoForm.ContactRows.Reset | frontend/src/features/alunos/AlunoFormPage.jsx:81 | resetting loads the form's contact rows |
| AlunoForm.ContactRows.Append | frontend/src/features/alunos/AlunoFormPage.jsx:240 | "Adicionar" appends one blank row and keeps the rest |
| AlunoForm.ContactRows.Remove | frontend/src/features/alunos/AlunoFormPage.jsx:224-229 | "Remover" exists only with more than one row, removes exactly that row, and so at least one row always remains |
| AlunoForm.LoadedFormHasARow | frontend/src/features/alunos/AlunoFormPage.jsx:77-79 | loading any student leaves the form with at least one contact row |
| NewAluno.Tags | src/features/alunos/NewAlunoPage.jsx:60 | a missing or empty tag field gives no tags; otherwise every comma-separated piece, trimmed, empty pieces included |
| NewAluno.EditFormDropsEmptyTags | src/features/alunos/NewAlunoPage.jsx:60 | the edit form's tags are exactly these tags with the empty pieces dropped |
| NewAluno.DoubleCommaKeepsEmptyTag | src/features/alunos/NewAlunoPage.jsx:60 | "a,,b" gives the tags a, "" and b on this page, while the edit form gives a and b |
| NewAluno.BuildPayload | src/features/alunos/NewAlunoPage.jsx:53-64 | the payload carries the birth date in ISO form, the address or "", the contacts unfiltered, and the split tags |
| NewAluno.AcceptedPayloadIsComplete | src/features/alunos/NewAlunoPage.jsx:12-31 | once the schema accepts the form, the payload has its name, surname and school year, and every contact a name and a phone |
| Telefone.Layout | frontend/src/features/alunos/AlunoFormPage.jsx:129-138 | every mask starts with "(" |
| Telefone.Formatar | frontend/src/features/alunos/AlunoFormPage.jsx:126-139 | the mask is empty exactly when the value is missing or empty |
| Telefone.DigitsAfterPunctuation | frontend/src/features/alunos/AlunoFormPage.jsx:128 | punctuation followed by digits yields just those digits |
| Telefone.Groups | frontend/src/features/alunos/AlunoFormPage.jsx:128 | the digits of two concatenated pieces are the digits of each, in order |
| Telefone.PunctuationHasNoDigits | frontend/src/features/alunos/AlunoFormPage.jsx:129-138 | the mask's punctuation "(", ") " and "-" holds no digits |
| Telefone.TwoGroups | frontend/src/features/alunos/AlunoFormPage.jsx:132-134 | "(dd) rest" holds exactly the digits of its two groups, in order |
| Telefone.ThreeGroups | frontend/src/features/alunos/AlunoFormPage.jsx:135-138 | "(dd) dddd-dddd" holds exactly the digits of its three groups, in order |
| Telefone.LayoutDigits | frontend/src/features/alunos/AlunoFormPage.jsx:129-138 | the digits of the mask are the first eleven digits it was given: none are reordered or invented, and only those past the eleventh are dropped |
| Telefone.FormatarKeepsDigits | src/features/colaboradores/ColaboradoresPage.jsx:134-147 | formatting keeps the input's first eleven digits and drops the rest |
| Telefone.FormatarIdempotent | src/features/colaboradores/ColaboradoresPage.jsx:134-147 | formatting an already formatted value returns it unchanged |
| Colaboradores.Filtered | src/features/colaboradores/ColaboradoresPage.jsx:94-102 | exactly the collaborators whose name, role or e-mail contains the term, ignoring case, are listed |
| Colaboradores.EmptySearchKeepsAll | src/features/colaboradores/ColaboradoresPage.jsx:94-102 | an empty search lists every collaborator, and any search keeps the original order |
| Colaboradores.ColaboradoresPage.constructor | src/features/colaboradores/ColaboradoresPage.jsx:50-60 | the modal starts closed with nothing being edited and a blank form, and there is no delete target and no typed text |
| Colaboradores.ColaboradoresPage.OpenNew | src/features/colaboradores/ColaboradoresPage.jsx:104-108 | "new" clears the edited row, blanks the form and opens the modal, leaving the delete dialog alone |
| Colaboradores.ColaboradoresPage.OpenEdit | src/features/colaboradores/ColaboradoresPage.jsx:110-119 | "edit" remembers the row, copies its four fields into the form and opens the modal |
| Colaboradores.ColaboradoresPage.OnCelularChange | src/features/colaboradores/ColaboradoresPage.jsx:277-284 | a keystroke in the phone field stores the masked value and touches no other field; the stored value is a fixed point of the mask |
| Colaboradores.ColaboradoresPage.HandleSubmit | src/features/colaboradores/ColaboradoresPage.jsx:125-132 | while editing, the form is sent as an update of the edited id, otherwise as a create |
| Colaboradores.ColaboradoresPage.OnSaveSuccess | src/features/colaboradores/ColaboradoresPage.jsx:69-83 | a successful save closes the modal; only a successful update also forgets the edited row |
| Colaboradores.ColaboradoresPage.HandleDelete | src/features/colaboradores/ColaboradoresPage.jsx:121-123 | a present row becomes the delete target; a missing one changes nothing |
| Colaboradores.ColaboradoresPage.TypeConfirmation | src/features/colaboradores/ColaboradoresPage.jsx:313 | the typed confirmation is stored and nothing else changes |
| Colaboradores.ColaboradoresPage.CloseDelete | src/features/colaboradores/ColaboradoresPage.jsx:84-91 | cancelling, and a successful delete, clear the delete target and the typed text |
| Colaboradores.ColaboradoresPage.ConfirmDelete | src/features/colaboradores/ColaboradoresPage.jsx:329-330 | the delete is sent exactly when "EXCLUIR" has been typed, and it carries the target's id |
| Colaboradores.GatesAgree | src/features/colaboradores/ColaboradoresPage.jsx:158-224 | the page's route admits the three known roles; for those, the "new" deny-list agrees with the create/edit capability; the edit and delete allow-lists agree with the privilege table for every role |
| Colaboradores.DenyListPartsOnlyForUnknownRoles | src/features/colaboradores/ColaboradoresPage.jsx:158 | only a role that the router never admits would see the "new" button without the create/edit capability |
| ContraturnoTab.DoAluno | frontend/src/features/alunos/tabs/ContraturnoTab.jsx:26-33 | nothing without a student id or projects; otherwise exactly the projects whose enrolment list includes the student, in their order |
| ContraturnoTab.Disponiveis | frontend/src/features/alunos/tabs/ContraturnoTab.jsx:35-44 | nothing without a student id or projects; otherwise exactly the active projects the student is not in that have room (no limit, or fewer enrolled than the limit), in their order |
| ContraturnoTab.EnrolledAndAvailableDisjoint | frontend/src/features/alunos/tabs/ContraturnoTab.jsx:26-44 | no project is listed both as the student's and as open to them |
| ContraturnoTab.FullOrUnlistedNeverAvailable | frontend/src/features/alunos/tabs/ContraturnoTab.jsx:42 | a project with a positive limit that is full, or has no enrolment list, is never offered |
| ContraturnoTab.UnlimitedActiveIsAvailable | frontend/src/features/alunos/tabs/ContraturnoTab.jsx:40-42 | every active project without a limit that the student is not in is offered |
| ContraturnoTab.TargetId | frontend/src/features/alunos/tabs/ContraturnoTab.jsx:71-76 | the enrolment calls use `_id` when it is set, else `id` |
| ContraturnoTab.ScreenFor | frontend/src/features/alunos/tabs/ContraturnoTab.jsx:79-89 | the missing-id message appears exactly without a student id, and the content exactly with an id, not loading and no error |
| ContraturnoTab.GatesAgree | frontend/src/features/alunos/tabs/ContraturnoTab.jsx:91-103 | the inline edit and remove gates agree with the privilege table; the add button implies the write capability and at least one project open to the student |
| ContraturnoTab.ContraturnoTabState.constructor | frontend/src/features/alunos/tabs/ContraturnoTab.jsx:19 | the enrol modal starts closed |
| ContraturnoTab.ContraturnoTabState.OpenAdicionar | frontend/src/features/alunos/tabs/ContraturnoTab.jsx:105 | the add button opens the enrol modal |
| ContraturnoTab.ContraturnoTabState.HandleAdicionar | frontend/src/features/alunos/tabs/ContraturnoTab.jsx:75-77 | choosing a project asks to enrol in its target id |
| ContraturnoTab.ContraturnoTabState.OnAdicionarDone | frontend/src/features/alunos/tabs/ContraturnoTab.jsx:58-66 | a successful enrolment closes the modal; a failure leaves it as it was |
| ContraturnoTab.ContraturnoTabState.HandleRemover | frontend/src/features/alunos/tabs/ContraturnoTab.jsx:69-73 | a removal is requested exactly when the user confirms, and it names the project's target id |
| ContraturnoProjetos.Filtered | frontend/src/features/contraturno/ContraturnoProjetos.jsx:56-63 | exactly the projects whose title, description (when present), teacher or category contains the term, ignoring case, and that are active when the box is ticked; in their order |
| ContraturnoProjetos.EmptySearchKeepsAll | frontend/src/features/contraturno/ContraturnoProjetos.jsx:56-63 | an empty search with the box unticked lists every project in order |
| ContraturnoProjetos.ActiveOnlyListsActive | frontend/src/features/contraturno/ContraturnoProjetos.jsx:62 | with the box ticked, a project that matches the search is listed exactly when it is active |
| ContraturnoProjetos.TotalInscritos | frontend/src/features/contraturno/ContraturnoProjetos.jsx:91 | no projects, no enrolments |
| ContraturnoProjetos.TotalVagas | frontend/src/features/contraturno/ContraturnoProjetos.jsx:92 | no projects, no places |
| ContraturnoProjetos.ProjetosAtivos | frontend/src/features/contraturno/ContraturnoProjetos.jsx:93 | the active counter never exceeds the number of projects |
| ContraturnoProjetos.TotalsAppend | frontend/src/features/contraturno/ContraturnoProjetos.jsx:91-92 | the enrolment and place counters add up over any split of the list |
| ContraturnoProjetos.TotalInscritosOfOne | frontend/src/features/contraturno/ContraturnoProjetos.jsx:91-92 | one project contributes its enrolment count and its places |
| ContraturnoProjetos.AllActiveIffCountsMatch | frontend/src/features/contraturno/ContraturnoProjetos.jsx:93 | the active counter equals the number of projects exactly when every project is active |
| ContraturnoProjetos.ViewPath | frontend/src/features/contraturno/ContraturnoProjetos.jsx:28-36 | the view button navigates exactly when the project has an id, to /contraturno/{id} |
| ContraturnoProjetos.ProjetosPage.constructor | frontend/src/features/contraturno/ContraturnoProjetos.jsx:22-25 | an empty search, the box unticked, no delete target and no typed text |
| ContraturnoProjetos.ProjetosPage.SetSearch | frontend/src/features/contraturno/ContraturnoProjetos.jsx:162 | the search term is stored and nothing else changes |
| ContraturnoProjetos.ProjetosPage.SetApenasAtivos | frontend/src/features/contraturno/ContraturnoProjetos.jsx:173 | the box is stored and nothing else changes |
| ContraturnoProjetos.ProjetosPage.ChooseDelete | frontend/src/features/contraturno/ContraturnoProjetos.jsx:250 | the trash button chooses the project and leaves the typed text |
| ContraturnoProjetos.ProjetosPage.TypeConfirmation | frontend/src/features/contraturno/ContraturnoProjetos.jsx:277 | the typed text is stored and nothing else changes |
| ContraturnoProjetos.ProjetosPage.CloseDelete | frontend/src/features/contraturno/ContraturnoProjetos.jsx:41-44 | cancelling, and a successful delete, clear the target and the text |
| ContraturnoProjetos.ProjetosPage.ConfirmDelete | frontend/src/features/contraturno/ContraturnoProjetos.jsx:286-287 | the delete is sent exactly when the typed text is the project's title, and it carries the project's id |
| ContraturnoProjetos.ProjetosPage.Rows | frontend/src/features/contraturno/ContraturnoProjetos.jsx:205 | every row shown passes the current search and box |
| ContraturnoProjetos.GatesAgree | frontend/src/features/contraturno/ContraturnoProjetos.jsx:102-248 | the list's route admits the three known roles; for those, the "new" deny-list agrees with the write capability, and it parts from it only for roles the router turns away; the edit and delete allow-lists agree with the privilege table |
| ContraturnoDetail.ProfessorNome | frontend/src/features/contraturno/ContraturnoDetailPage.jsx:76-80 | "Não informado" without a teacher id; otherwise the name of the first collaborator with that id, or "Professor não encontrado" exactly when no collaborator has it |
| ContraturnoDetail.KnownTeacherIsNamed | frontend/src/features/contraturno/ContraturnoDetailPage.jsx:76-80 | an id that some collaborator carries always resolves to the name of that collaborator or of an earlier one with the same id |
| ContraturnoDetail.AlunoLabel | frontend/src/features/contraturno/ContraturnoDetailPage.jsx:139-143 | the label is "nome sobrenome" of the first student with the id, or "Aluno não encontrado" exactly when no student has it |
| ContraturnoDetail.InscritosLabels | frontend/src/features/contraturno/ContraturnoDetailPage.jsx:134-143 | one label per enrolled id, in the project's order |
| ContraturnoDetail.CategoriaStyle | frontend/src/features/contraturno/ContraturnoDetailPage.jsx:15-23 | a listed category gets its own icon and colour; any other gets the Target icon in grey (also line 74) |
| ContraturnoDetail.FallbackOnlyForUnknown | frontend/src/features/contraturno/ContraturnoDetailPage.jsx:74 | the fallback style appears exactly for the categories the table does not list |
| ContraturnoDetail.ScreenFor | frontend/src/features/contraturno/ContraturnoDetailPage.jsx:34-40 | a missing id sends the visitor back to the list; the details appear exactly with an id, not loading and a project loaded (also line 72) |
| ContraturnoDetail.GatesAgree | frontend/src/features/contraturno/ContraturnoDetailPage.jsx:97-102 | the inline edit and delete gates agree with the privilege table |
| ContraturnoDetail.DetailPage.constructor | frontend/src/features/contraturno/ContraturnoDetailPage.jsx:61-62 | no delete target and no typed text |
| ContraturnoDetail.DetailPage.ChooseDelete | frontend/src/features/contraturno/ContraturnoDetailPage.jsx:106 | the delete button chooses the project and leaves the typed text |
| ContraturnoDetail.DetailPage.TypeConfirmation | frontend/src/features/contraturno/ContraturnoDetailPage.jsx:166 | the typed text is stored and the target is kept |
| ContraturnoDetail.DetailPage.CancelDelete | frontend/src/features/contraturno/ContraturnoDetailPage.jsx:169 | cancelling clears the target and the text |
| ContraturnoDetail.DetailPage.ConfirmDelete | frontend/src/features/contraturno/ContraturnoDetailPage.jsx:158-176 | with the modal shown (ADMIN and a target), the delete is sent exactly when the typed text is the title, and it carries the project's id |
| ContraturnoDetail.DetailPage.OnDeleteSuccess | frontend/src/features/contraturno/ContraturnoDetailPage.jsx:66-68 | a successful delete goes back to the project list |
| Documentos.Removed | frontend/src/features/alunos/tabs/SaudeTab.jsx:101 | the list keeps exactly the documents whose `_id` is not the removed id |
| Documentos.RemovedKeepsOrder | frontend/src/features/alunos/tabs/BoletinsTab.jsx:136 | the kept documents stay in order, and removing the same id again changes nothing |
| Documentos.DocumentList.constructor | frontend/src/features/alunos/tabs/SaudeTab.jsx:22 | the document list starts empty |
| Documentos.DocumentList.OnLoaded | frontend/src/features/alunos/tabs/SaudeTab.jsx:41-42 | the list becomes what the server returned |
| Documentos.DocumentList.HandleRemover | frontend/src/features/alunos/tabs/BoletinsTab.jsx:129-141 | nothing is requested without confirmation; after a successful delete the list drops exactly that id; a failed delete leaves the list as it was |
| Saude.Normalised | frontend/src/features/alunos/tabs/SaudeTab.jsx:63-71 | the loaded record has all five list fields; every field the server sent keeps the server's value; every other field is one of the defaults, an empty list |
| Saude.NormalisedCases | frontend/src/features/alunos/tabs/SaudeTab.jsx:63-71 | a missing record gives exactly the defaults; a record that already has all five lists is kept as it is |
| Saude.GatesAgree | frontend/src/features/alunos/tabs/SaudeTab.jsx:34 | the edit gate and the document-removal gate agree with the privilege table (also line 303) |
| Saude.SaudeTab.constructor | frontend/src/features/alunos/tabs/SaudeTab.jsx:22-31 | no record yet, loading, no error, not saving, and an empty document list |
| Saude.SaudeTab.CarregarDadosSaude | frontend/src/features/alunos/tabs/SaudeTab.jsx:52-80 | with the digital health record disabled nothing is fetched and only loading ends; otherwise the normalised record replaces the current one, or the error message "Não foi possível carregar os dados de saúde: …" is set; loading is over either way |
| Saude.SaudeTab.HandleUpdateDadosSaude | frontend/src/features/alunos/tabs/SaudeTab.jsx:137-145 | the one field is set to the value and every other field is kept |
| Saude.SaudeTab.HandleSalvarDadosSaude | frontend/src/features/alunos/tabs/SaudeTab.jsx:109-134 | nothing without a record; an update when the record has an `_id`, a create otherwise; the returned record replaces the local one, a failure keeps it; saving is over afterwards |
| Saude.SaudeTab.HandleRemoverDocumento | frontend/src/features/alunos/tabs/SaudeTab.jsx:94-106 | the health documents follow the shared removal: only after confirmation, and only on success, is exactly that id dropped |
| Saude.StoredRecordUpdates | frontend/src/features/alunos/tabs/SaudeTab.jsx:117-120 | a record the server stored (with a non-empty `_id`) is saved as an update, also after normalisation, so no second record is created |
| Alergias.AfterAdd | frontend/src/components/AlergiasManager.jsx:17-23 | a blank value leaves the list; otherwise the list gains exactly one entry at the end, the trimmed value, which is clean (trimmed and non-empty) |
| Alergias.AfterEdit | frontend/src/components/AlergiasManager.jsx:37-45 | a blank value leaves the list; otherwise only the entry at the index changes, to the trimmed value |
| Alergias.AddThenRemove | frontend/src/components/AlergiasManager.jsx:17-30 | adding an entry and then removing it gives the list back |
| Alergias.EditWithSameValue | frontend/src/components/AlergiasManager.jsx:37-45 | saving an entry unchanged, or padded with a leading space, leaves the list as it was |
| Alergias.ChangesKeepClean | frontend/src/components/AlergiasManager.jsx:17-45 | a list of clean entries stays clean under every add, edit and remove |
| Alergias.GatesAgree | frontend/src/components/AlergiasManager.jsx:15 | the edit gate and the remove gate agree with the privilege table (also line 129) |
| Alergias.AlergiasManager.constructor | frontend/src/components/AlergiasManager.jsx:8-13 | the editor starts from the record's list, with an empty input, the form closed and no edit in progress |
| Alergias.AlergiasManager.OpenForm | frontend/src/components/AlergiasManager.jsx:155 | the add button opens the form and changes nothing else |
| Alergias.AlergiasManager.TypeNova | frontend/src/components/AlergiasManager.jsx:172 | the typed value is stored and nothing else changes |
| Alergias.AlergiasManager.HandleAdicionar | frontend/src/components/AlergiasManager.jsx:17-23 | the list becomes the add result; a blank value changes nothing else; otherwise the input empties and the form closes |
| Alergias.AlergiasManager.CancelForm | frontend/src/components/AlergiasManager.jsx:186-189 | cancelling closes the form and empties the input, leaving the list |
| Alergias.AlergiasManager.HandleRemover | frontend/src/components/AlergiasManager.jsx:25-30 | after confirmation exactly that entry is removed; without it nothing changes |
| Alergias.AlergiasManager.HandleIniciarEdicao | frontend/src/components/AlergiasManager.jsx:32-35 | editing starts at the index with that entry's text in the edit box |
| Alergias.AlergiasManager.TypeEdicao | frontend/src/components/AlergiasManager.jsx:87 | the edit box takes the typed value and nothing else changes |
| Alergias.AlergiasManager.HandleSalvarEdicao | frontend/src/components/AlergiasManager.jsx:37-45 | the list becomes the edit result; a blank value keeps the edit open; otherwise editing ends with an empty box |
| Alergias.AlergiasManager.HandleCancelarEdicao | frontend/src/components/AlergiasManager.jsx:47-50 | editing ends with an empty box and the list untouched |
| Alergias.AlergiasManager.HandleKeyPress | frontend/src/components/AlergiasManager.jsx:52-57 | Enter adds, and any other key changes nothing |
| Alergias.AlergiasManager.HandleKeyPressEdicao | frontend/src/components/AlergiasManager.jsx:59-66 | Enter saves the edit, Escape cancels it, and any other key changes nothing |
| Condicoes.OrDefault | frontend/src/components/CondicoesSaudeManager.jsx:210-215 | a filled text is kept; an empty one takes the default |
| Condicoes.FormFor | frontend/src/components/CondicoesSaudeManager.jsx:209-216 | the form opened on a condition always has a status ("Ativo" when missing) and an empty date when the condition has none |
| Condicoes.Stored | frontend/src/components/CondicoesSaudeManager.jsx:27-30 | an empty date is stored as null; a `yyyy-mm-dd` date as its midnight-UTC ISO timestamp, date + 'T00:00:00.000Z'; name and status are kept (also lines 46-49) |
| Condicoes.SaveThenOpenDate | frontend/src/components/CondicoesSaudeManager.jsx:213 | a saved date opens again in the form as the date that was typed (also lines 27-30) |
| Condicoes.OpenThenSave | frontend/src/components/CondicoesSaudeManager.jsx:209-221 | opening a condition and saving it untouched gives it back with its date moved to that day's midnight UTC; a condition whose date is already a midnight timestamp comes back exactly |
| Condicoes.AfterAdd | frontend/src/components/CondicoesSaudeManager.jsx:24-32 | a blank name leaves the list; otherwise the stored condition is appended (also lines 218-221) |
| Condicoes.AfterEdit | frontend/src/components/CondicoesSaudeManager.jsx:44-50 | a blank name leaves the list; otherwise only the entry at the index changes, to the stored condition (also lines 218-221) |
| Condicoes.NewConditionDefaults | frontend/src/components/CondicoesSaudeManager.jsx:12-19 | a condition added from the blank form with only a name is active and undated |
| Condicoes.AddThenRemove | frontend/src/components/CondicoesSaudeManager.jsx:24-58 | adding a condition and then removing it gives the list back |
| Condicoes.GatesAgree | frontend/src/components/CondicoesSaudeManager.jsx:22 | the edit gate and the remove gate agree with the privilege table (also line 180) |
| Condicoes.CondicoesManager.constructor | frontend/src/components/CondicoesSaudeManager.jsx:9-20 | the editor starts from the record's list, with no edit in progress, the blank form and the form closed |
| Condicoes.CondicoesManager.OpenForm | frontend/src/components/CondicoesSaudeManager.jsx:118-120 | the add button opens the form and changes nothing else |
| Condicoes.CondicoesManager.HandleAdicionar | frontend/src/components/CondicoesSaudeManager.jsx:24-42 | the list becomes the add result; a blank name changes nothing else; otherwise the form closes and is reset |
| Condicoes.CondicoesManager.CancelForm | frontend/src/components/CondicoesSaudeManager.jsx:135-145 | cancelling closes the form and resets it, leaving the list |
| Condicoes.CondicoesManager.StartEdit | frontend/src/components/CondicoesSaudeManager.jsx:102 | only a writer opens the edit form for an entry |
| Condicoes.CondicoesManager.HandleEditar | frontend/src/components/CondicoesSaudeManager.jsx:44-52 | the list becomes the edit result; a blank name keeps the edit open, otherwise editing ends |
| Condicoes.CondicoesManager.CancelEdit | frontend/src/components/CondicoesSaudeManager.jsx:97 | editing ends and the list is untouched |
| Condicoes.CondicoesManager.HandleRemover | frontend/src/components/CondicoesSaudeManager.jsx:54-59 | after confirmation exactly that entry is removed; without it nothing changes |
| Medicacoes.AfterAdd | frontend/src/components/MedicacoesManager.jsx:23-35 | a blank name leaves the list; otherwise the list gains exactly the submitted medication at the end (also lines 180-183) |
| Medicacoes.AfterEdit | frontend/src/components/MedicacoesManager.jsx:37-42 | a blank name leaves the list; otherwise only the entry at the index changes, to the submitted medication (also lines 180-183) |
| Medicacoes.ChangesKeepNamed | frontend/src/components/MedicacoesManager.jsx:23-48 | a list whose entries all have names keeps that property under every add, edit and remove |
| Medicacoes.EditWithSameValue | frontend/src/components/MedicacoesManager.jsx:37-42 | re-saving an entry unchanged leaves the list as it was |
| Medicacoes.GatesAgree | frontend/src/components/MedicacoesManager.jsx:21 | the edit gate and the remove gate agree with the privilege table (also line 148) |
| Medicacoes.MedicacoesManager.constructor | frontend/src/components/MedicacoesManager.jsx:9-19 | the editor starts from the record's list, with no edit in progress, the blank form and the form closed |
| Medicacoes.MedicacoesManager.OpenForm | frontend/src/components/MedicacoesManager.jsx:89-91 | the add button opens the form and changes nothing else |
| Medicacoes.MedicacoesManager.HandleAdicionar | frontend/src/components/MedicacoesManager.jsx:23-35 | the list becomes the add result; a blank name changes nothing else; otherwise the form closes and is reset |
| Medicacoes.MedicacoesManager.CancelForm | frontend/src/components/MedicacoesManager.jsx:106-114 | cancelling closes the form and resets it, leaving the list |
| Medicacoes.MedicacoesManager.StartEdit | frontend/src/components/MedicacoesManager.jsx:74 | only a writer opens the edit form for an entry |
| Medicacoes.MedicacoesManager.HandleEditar | frontend/src/components/MedicacoesManager.jsx:37-42 | the list becomes the edit result; a blank name keeps the edit open, otherwise editing ends |
| Medicacoes.MedicacoesManager.CancelEdit | frontend/src/components/MedicacoesManager.jsx:69 | editing ends and the list is untouched |
| Medicacoes.MedicacoesManager.HandleRemover | frontend/src/components/MedicacoesManager.jsx:44-49 | after confirmation exactly that entry is removed; without it nothing changes |
| ContatosEmergencia.AfterAddAsWritten | frontend/src/components/ContatosEmergenciaManager.jsx:20-30 | as written, the handler re-checks and appends the `novoContato` draft, so with a blank draft the list is unchanged whatever was submitted |
| ContatosEmergencia.AfterAdd | frontend/src/components/ContatosEmergenciaManager.jsx:20-30 | corrected: a contact without both name and phone leaves the list; otherwise exactly the submitted contact is appended (also lines 162-166) |
| ContatosEmergencia.AsWrittenNeverAdds | frontend/src/components/ContatosEmergenciaManager.jsx:20-30 | the draft is never filled in, so as written no submitted contact is ever added (also lines 98-100) |
| ContatosEmergencia.AsWrittenDropsValidContact | frontend/src/components/ContatosEmergenciaManager.jsx:20-30 | a complete contact (Ana, 11999990000, Mãe) is dropped as written and kept by the corrected handler |
| ContatosEmergencia.AfterEdit | frontend/src/components/ContatosEmergenciaManager.jsx:32-37 | a contact without both name and phone leaves the list; otherwise only the entry at the index changes, to the submitted contact (also lines 162-166) |
| ContatosEmergencia.ChangesKeepComplete | frontend/src/components/ContatosEmergenciaManager.jsx:20-44 | a list whose entries all have a name and a phone keeps that property under every add, edit and remove |
| ContatosEmergencia.AddThenRemove | frontend/src/components/ContatosEmergenciaManager.jsx:20-44 | adding a contact and then removing it gives the list back |
| ContatosEmergencia.GatesAgree | frontend/src/components/ContatosEmergenciaManager.jsx:18 | the edit gate and the remove gate agree with the privilege table (also line 142) |
| ContatosEmergencia.ContatosManager.constructor | frontend/src/components/ContatosEmergenciaManager.jsx:8-16 | the editor starts from the record's list, with a blank draft, no edit in progress and the form closed |
| ContatosEmergencia.ContatosManager.OpenForm | frontend/src/components/ContatosEmergenciaManager.jsx:84-86 | the add button opens the form and keeps the list |
| ContatosEmergencia.ContatosManager.HandleAdicionarAsWritten | frontend/src/components/ContatosEmergenciaManager.jsx:20-30 | as written, with the draft blank the list and the form stay as they were, whatever was submitted |
| ContatosEmergencia.ContatosManager.HandleAdicionar | frontend/src/components/ContatosEmergenciaManager.jsx:20-30 | corrected: the list becomes the add result of the submitted contact, and the form closes when it was added |
| ContatosEmergencia.ContatosManager.CancelForm | frontend/src/components/ContatosEmergenciaManager.jsx:101-108 | cancelling closes the form and keeps the list |
| ContatosEmergencia.ContatosManager.StartEdit | frontend/src/components/ContatosEmergenciaManager.jsx:69 | only a writer opens the edit form for an entry |
| ContatosEmergencia.ContatosManager.HandleEditar | frontend/src/components/ContatosEmergenciaManager.jsx:32-37 | the list becomes the edit result; an incomplete contact keeps the edit open, otherwise editing ends |
| ContatosEmergencia.ContatosManager.CancelEdit | frontend/src/components/ContatosEmergenciaManager.jsx:64 | editing ends and the list is untouched |
| ContatosEmergencia.ContatosManager.HandleRemover | frontend/src/components/ContatosEmergenciaManager.jsx:39-44 | after confirmation exactly that entry is removed; without it nothing changes |
| AlunoSummary.InitialSelection | frontend/src/features/alunos/AlunoSummaryPage.jsx:65-67 | the starting selection has exactly the section ids as keys and every one is ticked |
| AlunoSummary.Toggle | frontend/src/features/alunos/AlunoSummaryPage.jsx:69-71 | the checkbox flips that one section and leaves every other flag and the key set alone |
| AlunoSummary.ToggleTwice | frontend/src/features/alunos/AlunoSummaryPage.jsx:69-71 | ticking the same box twice restores the selection |
| AlunoSummary.SectionsToInclude | frontend/src/features/alunos/AlunoSummaryPage.jsx:74-76 | an id is sent exactly when it is a section whose flag is set, and the ids keep declaration order |
| AlunoSummary.InitialIncludesAll | frontend/src/features/alunos/AlunoSummaryPage.jsx:65-67 | with the starting selection every section is sent, in declaration order (also lines 74-76) |
| AlunoSummary.InitialSelectsAllTen | frontend/src/features/alunos/AlunoSummaryPage.jsx:52-67 | the page has ten sections, and by default all ten are sent |
| AlunoSummary.ToggleOffDropsOne | frontend/src/features/alunos/AlunoSummaryPage.jsx:69-76 | unticking a ticked section removes exactly that id from the request |
| AlunoSummary.Requested | frontend/src/features/alunos/AlunoSummaryPage.jsx:73-83 | nothing is requested exactly when no section is ticked; otherwise the non-empty request holds exactly the ticked sections |
| AlunoSummary.AfterGenerate | frontend/src/features/alunos/AlunoSummaryPage.jsx:120-128 | a sent request whose answer carries a non-empty id puts that report first; a failed request or a missing id leaves the list |
| AlunoSummary.WithoutReport | frontend/src/features/alunos/AlunoSummaryPage.jsx:186-187 | after a delete no report has that id, every other report stays, and the order is kept |
| AlunoSummary.PrependThenDelete | frontend/src/features/alunos/AlunoSummaryPage.jsx:120-128 | deleting a just-generated report with a new id gives the previous list back (also lines 186-187) |
| AlunoSummary.GatesAgree | frontend/src/features/alunos/AlunoSummaryPage.jsx:325 | the delete button is shown exactly to the roles the privilege table lets delete |
| AlunoSummary.SummaryPage.constructor | frontend/src/features/alunos/AlunoSummaryPage.jsx:25-27 | the page starts with the modal closed, no reports, no delete running and every section ticked (also lines 52-67) |
| AlunoSummary.SummaryPage.OnReportsFetched | frontend/src/features/alunos/AlunoSummaryPage.jsx:29-50 | a successful fetch replaces the report list; a failed one keeps it; nothing else changes |
| AlunoSummary.SummaryPage.SetModalOpen | frontend/src/features/alunos/AlunoSummaryPage.jsx:271 | the button opens and the cancel button closes the modal, and nothing else changes (also line 376) |
| AlunoSummary.SummaryPage.HandleCheckboxChange | frontend/src/features/alunos/AlunoSummaryPage.jsx:69-71 | the selection becomes the toggled one and stays complete (also line 363) |
| AlunoSummary.SummaryPage.HandleGenerateClick | frontend/src/features/alunos/AlunoSummaryPage.jsx:73-85 | with nothing ticked nothing is sent and the modal stays; otherwise the student and the ticked sections are sent, the modal closes, and a non-empty answered id heads the list and is the one downloaded (also lines 99-102, lines 120-130) |
| AlunoSummary.SummaryPage.DeleteReport | frontend/src/features/alunos/AlunoSummaryPage.jsx:163-195 | without confirmation nothing happens; otherwise the flag names the report during the call and is cleared after it, and only a successful call drops the report |
| Comunicado.ResponsavelAtual | frontend/src/components/Comunicado.jsx:9-18 | no guardian for an empty selection or a missing student or list; otherwise the first contact bearing the selected name, and none exactly when no contact bears it |
| Comunicado.ListedNameIsSelected | frontend/src/components/Comunicado.jsx:79-89 | choosing the name of a listed guardian that no earlier guardian shares selects that guardian (also lines 9-18) |
| Comunicado.NumeroLimpo | frontend/src/components/Comunicado.jsx:23 | the WhatsApp number is all digits and no longer than the stored phone |
| Comunicado.NumeroLimpoIsDigitFilter | frontend/src/components/Comunicado.jsx:23 | the cleaned number is exactly the phone's digits, in order |
| Comunicado.CleanNumberUnchanged | frontend/src/components/Comunicado.jsx:23 | a phone that is already all digits is sent unchanged |
| Comunicado.MaskedPhoneNumber | frontend/src/components/Comunicado.jsx:23 | a phone stored through the form mask is sent as the first eleven digits that were typed |
| Comunicado.SomeButtonUnlessWarned | frontend/src/components/Comunicado.jsx:52 | with a guardian selected, no missing-contact warning and a message typed, at least one send button is enabled (also line 93, line 125, line 134) |
| Comunicado.EnviarWhatsapp | frontend/src/components/Comunicado.jsx:20-32 | a link is opened exactly when the guardian has a phone, with the cleaned number and the message; otherwise the no-phone alert |
| Comunicado.EnviarEmail | frontend/src/components/Comunicado.jsx:34-45 | a mail is opened exactly when the guardian has an e-mail, addressed to it, with a subject naming the student and the message as body; otherwise the no-e-mail alert |
| Comunicado.EnabledButtonsOpenLinks | frontend/src/components/Comunicado.jsx:20-45 | a click on an enabled button always opens its link and never alerts (also line 125, line 134) |
| Comunicado.ScreenFor | frontend/src/components/Comunicado.jsx:47-51 | loading exactly while the student or its list is missing, the no-guardian notice exactly for an empty list, otherwise the composer over the whole list (also line 58) |
| Comunicado.ComunicadoState.constructor | frontend/src/components/Comunicado.jsx:5-7 | the screen starts with no selection, no message and no guardian |
| Comunicado.ComunicadoState.SetAluno | frontend/src/components/Comunicado.jsx:9-18 | a new student re-runs the lookup, so the guardian matches the selection again |
| Comunicado.ComunicadoState.Select | frontend/src/components/Comunicado.jsx:79-81 | the selection becomes the chosen name and the guardian becomes its lookup (also lines 9-18) |
| Comunicado.ComunicadoState.TypeMensagem | frontend/src/components/Comunicado.jsx:114-116 | the message becomes the typed text and nothing else changes |
| Comunicado.ComunicadoState.ClearSelection | frontend/src/components/Comunicado.jsx:84 | choosing the placeholder clears the guardian and disables both send buttons (also lines 15-17) |

## Left out

- **HTTP and the backend.** Every API call is an input to the handler that receives its answer: a result, a failure flag or an already-fetched list. The axios wrappers in the API modules are not modelled; only the interceptors in `http.js` are.
- **Token decoding.** `jwtDecode` is a function parameter that may report failure. No signature is checked, so there is nothing to prove about it.
- **Dates.**
  - Dates are integer year, month and day, or opaque strings stored as given.
  - `Condicoes.Stored` takes the date input's text to be a valid `yyyy-mm-dd` date, which `new Date(d).toISOString()` turns into that day's midnight UTC. An invalid date, which throws there, and any other date text are not modelled. `Condicoes.FormFor` likewise reads a stored timestamp as already in `toISOString`'s UTC form, so time-zone offsets are not normalised.
  - `new Date().toISOString()` and the current date are parameters.
  - Locale formatting and date-fns `format` are not modelled.
- **Floating point.** `Number` and `parseFloat` are `real`, and `NaN` is `None`. `toFixed` rounding of averages and percentages is ignored.
- **Case folding.** `toLowerCase` is an ASCII case fold.
- **React.**
  - Rendering, JSX and styling are not modelled.
  - react-query caching and invalidation are not modelled; success handlers are modelled as methods.
  - zod and react-hook-form are not modelled. Their schemas are predicates, and the library's e-mail check is a parameter.
- **Browser effects.**
  - `window.confirm` is a boolean input, and `alert` and console logging are not modelled.
  - `window.open` and the `wa.me`/`mailto` URLs built with `encodeURIComponent` are not modelled. The send handlers return the number, address, subject and text instead.
- **Concurrency.** The `Promise.all` fan-out on the student list is modelled as the per-student record lists already fetched.
- **Report files.**
  - The PDF fetch and download on the summary page are not modelled; the model returns only the id that is downloaded.
  - Document upload is not modelled.
- **Selection order.** `AlunoSummary.SectionsToInclude` takes the selection's key order to be the sections' declaration order. That is the insertion order of the keys, and toggles never add keys.
- Router.ElementIn: routes are looked up by their declared pattern string. React Router's matching of a browser URL against the patterns is library code and is not modelled. That covers binding `:id`, the `/alunos/:id/*` splat, ranking static segments above dynamic ones, case-insensitive segments and trailing slashes. So nothing is proved about which route a concrete URL such as '/alunos/42/edit' reaches.
- Router.FirstMatch: the first route declared with the exact pattern, not the best-ranked route matching a URL; the URL matching above is not modelled.
- Router.RootAndFallback: '/' and the unknown input are patterns, not URLs; that an unmatched URL falls to '*' is not modelled.
- Router.NotInTable: a pattern no route declares, not a URL no route matches; the URL matching above is not modelled.
- ContraturnoProjetos.Projeto: the title, teacher, category, enrolled list and vacancies are taken as always present. This type is also what `ContraturnoDetail` reads. In the source, a record missing one of them throws a TypeError in the search filter (`ContraturnoProjetos.jsx` lines 58-61), in the enrolled-list count (line 229) and on the detail page (`ContraturnoDetailPage.jsx` line 134), and gives a NaN vacancy or enrolment total (lines 91-92). Those failures are not modelled.
- **ContraturnoProjetos.** Its edit modal is unreachable from the page (no handler opens it), so only the delete dialog and the filters are modelled.
- **ContraturnoTab.** The enrol modal's close button clears the same flag as a successful `ContraturnoTab.ContraturnoTabState.OnAdicionarDone`, so it is not modelled on its own.
- **Other screens.** Presentation-only screens, demo markup and form-and-modal wiring with no logic of their own are not part of this model. Their inline gates have the same two shapes as the gates proved here. These are the dashboard, sidebar, about page, not-found page, student navigation and the school-history, referral, general-data and project-form screens.
- **Duplicated helpers.** The older copies of the enrolled-project filter and of `calculateAge` under `src/` are the same functions as those modelled under `frontend/src/`.

## Findings

| source | as written | input that shows it | evidently intended | confidence | as-written member | corrected member |
|---|---|---|---|---|---|---|
| frontend/src/features/usuarios/UsuariosPage.jsx:196 | the self-delete guard compares `usuario._id` with `user.user_id`, but the session user built at frontend/src/context/AuthContext.jsx:27-31 has `userId`, so the comparison is always true | an ADMIN viewing their own row, `usuario._id == user.userId` | no delete button on the signed-in admin's own row | not executed | Usuarios.DeleteButtonAsWritten, Usuarios.AdminCanDeleteSelfAsWritten | Usuarios.DeleteButtonShown, Usuarios.DeleteButtonNeverForSelf |
| frontend/src/components/ContatosEmergenciaManager.jsx:20-30 | the add handler ignores the submitted contact and checks and appends the `novoContato` draft, which no input ever changes from blank | submitting Contato("Ana", "11999990000", "Mãe") to an empty list leaves it empty | the submitted contact is appended when it has a name and a phone | not executed | ContatosEmergencia.AfterAddAsWritten, ContatosEmergencia.AsWrittenNeverAdds, ContatosEmergencia.AsWrittenDropsValidContact, ContatosEmergencia.ContatosManager.HandleAdicionarAsWritten | ContatosEmergencia.AfterAdd, ContatosEmergencia.ContatosManager.HandleAdicionar |
| frontend/src/features/alunos/AlunoListPage.jsx:309-315 | the blur handler tests `isNaN(parseFloat(value))` first; `parseFloat("")` is `NaN`, so the two branches that restore 75 for an empty field are never reached | blurring the threshold field left empty stores 0 | an empty threshold is restored to the default 75 | not executed | AlunoList.BlurredAsWritten, AlunoList.BlankBlurAsWrittenGivesZero | AlunoList.Blurred, AlunoList.FrequenciaFilter.OnBlur |
| frontend/src/features/alunos/tabs/BoletinsTab.jsx:158-162 | `updateNota` copies the array but writes `nota` into the discipline objects it shares with the listed report card loaded for editing at lines 269-276 | edit a report card, change a grade, then cancel: the listed card shows the new grade | changing a grade in the modal leaves the listed report card untouched until it is saved | not executed | BoletinsTab.BoletimModal.UpdateNotaAsWritten, BoletinsTab.EditThenCancelAsWritten | BoletinsTab.BoletimModal.UpdateNota, BoletinsTab.EditThenCancel |
