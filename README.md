# AI notebook — a verified model of its core logic

The AI notebook is a browser application for notes, todo lists, projects with task trees, daily and
weekly reports and a Pomodoro timer. It keeps its data in `localStorage`. It can run against an
offline backend emulator, `MockSupabase`, that imitates the Supabase client. That emulator has a
sign-in state machine with listeners and an in-memory table store scoped to the row owner.

This project models, in Dafny:

- the emulator: `MockSupabaseAuth`, `MockSupabaseClient` and `MockSupabaseTable` as classes over a
  `LocalStorage` object and a shared `TableData` object;
- the auth façade `AuthService`: its state record, listener registry, display-name fallback and
  error map; the backend result of each call is an input;
- the credential rules of `auth-config.ts` and of the registration form;
- the project and task-tree logic: cascade deletion through `parentId`, the two-level task list, and
  the AI splitter's conversion of a parsed project tree into flat project and task lists;
- the list editors: the todo manager and todo list, the daily and weekly report editors, and the
  state of the notes page;
- the Pomodoro countdown as a class whose handlers are tied to pure step functions.

Handlers that only compute a new list for a React callback are functions. Each returns the value
the source hands to the callback, or `None` where the source returns without calling it. Code that changes
objects in place is written as classes with `modifies` clauses:

- the emulator's fields;
- `AuthService.currentState` and its listeners;
- the Pomodoro state;
- the splitter's `forEach` loops, which push into arrays and ask an id generator for ids.

Each class method is proved against a specification function. Listener calls are recorded in a `log`
field: one entry per call, in call order. The clock, the ISO timestamps, the random parts of ids and
the AI's output are parameters.

Modules: `Wrappers` (Option), `Seqs` (filter, remove-at, subsequence), `Text` (JavaScript `trim`,
truthiness, `split('@')[0]`, character classes, decimal digits), `Ids` (distinctness and the id
generator), `ProjectTypes`, `TodoTypes`, `ReportTypes`, plus one module per core file.

Two notes on the data model:
- The model's `TodoItem` has a `noteId` field. The TypeScript type lacks it, but `todo-list.tsx:33`
  writes it into every item it creates.
- The entities `Note` and `TodoList` are the records the handlers build; `types/note.ts` is not part
  of this model.

## Model

| member | source | states |
|---|---|---|
| MockSupabase.GenerateId | ai-notebook/lib/mock-supabase.ts:66-68 | an id is `mock_` followed by the random part, so it is never empty |
| MockSupabase.CreateSession | ai-notebook/lib/mock-supabase.ts:70-79 | a session for the user lasts 3600 s, expires at now + 3 600 000 ms, and carries `mock_access_token_` and `mock_refresh_token_` tokens |
| MockSupabase.NewUser | ai-notebook/lib/mock-supabase.ts:92-100 | the new account has a generated id and the given email; display_name is the caller's when truthy, else the text before the first '@'; avatar_url is present only when supplied |
| MockSupabase.Broadcast | ai-notebook/lib/mock-supabase.ts:112 | one notice per listener, in registration order, each with the same event and session |
| MockSupabase.RestoreOutcome | ai-notebook/lib/mock-supabase.ts:41-56 | a saved session is adopted exactly when expires_at > now; an expired one, and any other parsed value without a future expires_at (such as `{}`), is removed from storage; text that cannot be read (not JSON, `null`, empty) is left in place |
| MockSupabase.SavedSessionLastsOneHour | ai-notebook/lib/mock-supabase.ts:41-79 | a session created at time t is restored exactly while now < t + 3 600 000 |
| MockSupabase.LocalStorage.constructor | ai-notebook/lib/mock-supabase.ts:46-63 | the stored session key starts with the given value |
| MockSupabase.MockSupabaseAuth.CurrentUserId | ai-notebook/lib/mock-supabase.ts:282-284 | the acting user id is present exactly when a user is signed in with a non-empty id |
| MockSupabase.MockSupabaseAuth.constructor | ai-notebook/lib/mock-supabase.ts:30-39 | no accounts, listeners or notices; the current session is the one restoreSession adopts, and the user is that session's user |
| MockSupabase.MockSupabaseAuth.RestoreSession | ai-notebook/lib/mock-supabase.ts:41-56 | the state and storage after startup follow RestoreOutcome |
| MockSupabase.MockSupabaseAuth.SaveSession | ai-notebook/lib/mock-supabase.ts:58-64 | storage holds the current session, or nothing when signed out |
| MockSupabase.MockSupabaseAuth.Notify | ai-notebook/lib/mock-supabase.ts:112 | the log grows by exactly the Broadcast of the event |
| MockSupabase.MockSupabaseAuth.SignUp | ai-notebook/lib/mock-supabase.ts:81-124 | a known email gives "用户已存在" and changes nothing; otherwise the account is stored under its email, made current with a fresh session, saved, and every listener is told SIGNED_IN once, in order |
| MockSupabase.MockSupabaseAuth.SignInWithPassword | ai-notebook/lib/mock-supabase.ts:126-155 | an unknown email and a wrong password give the same error and change nothing; success replaces the session, saves it and announces SIGNED_IN; accounts never change |
| MockSupabase.MockSupabaseAuth.SignOut | ai-notebook/lib/mock-supabase.ts:157-170 | user and session are cleared, the key removed, and SIGNED_OUT announced, even when nobody was signed in |
| MockSupabase.MockSupabaseAuth.GetUser | ai-notebook/lib/mock-supabase.ts:172-177 | returns the current user |
| MockSupabase.MockSupabaseAuth.GetSession | ai-notebook/lib/mock-supabase.ts:179-184 | returns the current session |
| MockSupabase.MockSupabaseAuth.OnAuthStateChange | ai-notebook/lib/mock-supabase.ts:186-199 | the listener is registered last and called once at once with SIGNED_IN and the session, or SIGNED_OUT when signed out |
| MockSupabase.MockSupabaseAuth.Unsubscribe | ai-notebook/lib/mock-supabase.ts:200-205 | removes only the first registration of that listener; the others keep their order |
| MockSupabase.MockSupabaseAuth.ResetPasswordForEmail | ai-notebook/lib/mock-supabase.ts:211-215 | succeeds for every address |
| MockSupabase.MockSupabaseAuth.UpdateUser | ai-notebook/lib/mock-supabase.ts:217-251 | signed out: "用户未登录" and no change; signed in: data merged into user_metadata with id and email kept, written to the user, the session and the account entry, and saved; no listener is called |
| MockSupabase.OwnedRows | ai-notebook/lib/mock-supabase.ts:294-308 | exactly the rows whose user_id is the caller's, in table order |
| MockSupabase.MatchingRows | ai-notebook/lib/mock-supabase.ts:312-328 | exactly the caller's rows whose column equals the value, in table order |
| MockSupabase.RowsAfterDelete | ai-notebook/lib/mock-supabase.ts:329-346 | exactly the rows that are not the caller's matching rows remain, in order |
| MockSupabase.NewRow | ai-notebook/lib/mock-supabase.ts:357-363 | the caller's fields plus a store-assigned id, owner and both timestamps, which win over the caller's values |
| MockSupabase.MergeRow | ai-notebook/lib/mock-supabase.ts:383-390 | the caller's values win over the stored ones, user_id and created_at included; updated_at is `now` |
| MockSupabase.RowsAfterUpdate | ai-notebook/lib/mock-supabase.ts:383-392 | the same number of rows; a row is merged exactly when it is the caller's and its id matches, else kept |
| MockSupabase.FindById | ai-notebook/lib/mock-supabase.ts:395 | a row with the requested id whoever owns it, or none when no row has it |
| MockSupabase.UpdateResult | ai-notebook/lib/mock-supabase.ts:383-397 | as written: at most one row, taken from the updated table by id alone, whoever owns it; empty exactly when no row has the id |
| MockSupabase.FindOwnedById | ai-notebook/lib/mock-supabase.ts:395 | a row of the caller with the requested id, or none when the caller has none |
| MockSupabase.OwnedUpdateResult | ai-notebook/lib/mock-supabase.ts:395-397 | the returned row is the caller's own, unless the caller reassigned user_id itself |
| MockSupabase.SelectsOnlyOwnRows | ai-notebook/lib/mock-supabase.ts:294-328 | no filter ever returns another user's row |
| MockSupabase.InsertedRowInvisibleToOthers | ai-notebook/lib/mock-supabase.ts:350-373 | an inserted row is visible to its owner and to nobody else |
| MockSupabase.DeleteLeavesOthersRows | ai-notebook/lib/mock-supabase.ts:329-346 | after a delete the caller has no matching rows left, and every other user's rows are as before |
| MockSupabase.DeleteIdempotent | ai-notebook/lib/mock-supabase.ts:329-346 | deleting twice with the same filter equals deleting once |
| MockSupabase.UpdateMissChangesNothing | ai-notebook/lib/mock-supabase.ts:383-394 | an update that targets none of the caller's rows leaves the table unchanged |
| MockSupabase.UpdateKeepsOthersRows | ai-notebook/lib/mock-supabase.ts:383-392 | without user_id in the update, other users' rows keep their owner and content |
| MockSupabase.UpdateReturnsForeignRow | ai-notebook/lib/mock-supabase.ts:395-397 | as written, an update by bob with the id of alice's row returns alice's row |
| MockSupabase.OwnedUpdateResultIsolated | ai-notebook/lib/mock-supabase.ts:395-397 | the corrected result shows only the caller's rows when the update leaves user_id alone |
| MockSupabase.TableData.constructor | ai-notebook/lib/mock-supabase.ts:262-267 | the six named tables exist and are empty; todo_items does not exist yet |
| MockSupabase.MockSupabaseClient.constructor | ai-notebook/lib/mock-supabase.ts:254-268 | a fresh auth object in its startup state and a fresh table store with the six empty tables |
| MockSupabase.MockSupabaseClient.From | ai-notebook/lib/mock-supabase.ts:270-272 | a fresh handle on the named table, sharing the client's data and auth |
| MockSupabase.MockSupabaseTable.constructor | ai-notebook/lib/mock-supabase.ts:275-280 | the handle records its table, data and auth |
| MockSupabase.MockSupabaseTable.Select | ai-notebook/lib/mock-supabase.ts:294-308 | signed out: "用户未登录" and no rows; signed in: OwnedRows of the table |
| MockSupabase.MockSupabaseTable.EqSelect | ai-notebook/lib/mock-supabase.ts:310-328 | signed out: the error; signed in: MatchingRows of the table |
| MockSupabase.MockSupabaseTable.EqDelete | ai-notebook/lib/mock-supabase.ts:329-346 | signed out: the error and no change; signed in: only this table becomes RowsAfterDelete |
| MockSupabase.MockSupabaseTable.Insert | ai-notebook/lib/mock-supabase.ts:350-373 | signed out: the error and no change; signed in: NewRow appended to this table (created on first use) and returned |
| MockSupabase.MockSupabaseTable.Update | ai-notebook/lib/mock-supabase.ts:375-401 | signed out: the error and no change; signed in: this table becomes RowsAfterUpdate with no error on a miss, and the result is the caller's own updated row |
| MockSupabase.MockSupabaseTable.Delete | ai-notebook/lib/mock-supabase.ts:403-415 | without eq() only the sign-in check happens: the error when signed out, success otherwise |
| AuthService.Apply | ai-notebook/lib/auth-service.ts:90-92 | `{...state, ...patch}`: each supplied field overwrites, every other field is kept |
| AuthService.ApplyLaws | ai-notebook/lib/auth-service.ts:90-92 | an empty patch changes nothing, and applying a patch twice is applying it once |
| AuthService.CreateAuthUser | ai-notebook/lib/auth-service.ts:81-88 | displayName is display_name, else the e-mail's local part, else '用户', never empty; a missing e-mail becomes '' |
| AuthService.DisplayNameAgreesWithConfig | ai-notebook/lib/auth-service.ts:81-88 | without full_name, createAuthUser and getUserDisplayName pick the same name |
| AuthService.GetErrorMessage | ai-notebook/lib/auth-service.ts:219-233 | a listed message maps to its translation, any other non-empty message stays as it is, and '' gives '操作失败，请重试'; never empty |
| AuthService.ErrorKeysStartUpper | ai-notebook/lib/auth-service.ts:220-230 | every key of the error table starts with an upper-case Latin letter |
| AuthService.TranslationsStartCjk | ai-notebook/lib/auth-service.ts:220-230 | every translation is non-empty and starts with a CJK unified ideograph (U+4E00 to U+9FFF) |
| AuthService.GetErrorMessageIdempotent | ai-notebook/lib/auth-service.ts:219-233 | localising an already localised message changes nothing |
| AuthService.Deliveries | ai-notebook/lib/auth-service.ts:92 | one delivery of the state per listener, in registration order |
| AuthService.ErrorOutcome | ai-notebook/lib/auth-service.ts:170-216 | the result of logout, resetPassword and updateProfile: failure exactly on a backend error, which is localised, or on an exception; resetPassword and updateProfile touch no state |
| AuthService.RegisterOutcome | ai-notebook/lib/auth-service.ts:116-143 | register fails exactly on an exception (rethrown), a backend error (localised) or a user without a session (the e-mail verification message); anything else resolves |
| AuthService.LoginOutcome | ai-notebook/lib/auth-service.ts:146-167 | login resolves exactly when the backend returns a session and no error; an exception is rethrown, a backend error localised, and a missing session gives '登录失败，请重试' |
| AuthService.RegisterOutcomeCases | ai-notebook/lib/auth-service.ts:116-167 | a user without a session gives the e-mail verification message, a session resolves, a backend error is localised, login without a session gives '登录失败，请重试' |
| AuthService.AuthService.constructor | ai-notebook/lib/auth-service.ts:18-29 | the initial state is no user, no session, loading, not authenticated; no listeners |
| AuthService.AuthService.UpdateState | ai-notebook/lib/auth-service.ts:90-93 | the state becomes Apply(state, patch), and every listener is called with it |
| AuthService.AuthService.Subscribe | ai-notebook/lib/auth-service.ts:96-101 | the listener is added last and receives the current state at once |
| AuthService.AuthService.Unsubscribe | ai-notebook/lib/auth-service.ts:102-107 | removes only the first registration of that listener |
| AuthService.AuthService.GetState | ai-notebook/lib/auth-service.ts:111-113 | returns the current state |
| AuthService.AuthService.Initialize | ai-notebook/lib/auth-service.ts:31-79 | a session with a user signs in; an error, an exception or no user only clears isLoading; listeners are told once |
| AuthService.AuthService.HandleAuthChange | ai-notebook/lib/auth-service.ts:55-74 | a session with a user gives an authenticated state built by createAuthUser; anything else clears user, session and both flags |
| AuthService.AuthService.Attempt | ai-notebook/lib/auth-service.ts:116-183 | isLoading is set and announced; on failure it is cleared and announced again |
| AuthService.AuthService.Register | ai-notebook/lib/auth-service.ts:116-143 | the result is RegisterOutcome; isLoading stays true on success and is reset before a failure is reported |
| AuthService.AuthService.Login | ai-notebook/lib/auth-service.ts:146-167 | the result is LoginOutcome; isLoading as for register |
| AuthService.AuthService.Logout | ai-notebook/lib/auth-service.ts:170-183 | the result is ErrorOutcome; isLoading as for register |
| AuthConfig.LengthMessage | ai-notebook-github-upload/lib/auth-config.ts:78-80 | the length message is "密码长度至少需要 ", the decimal digits of the minimum length, then " 个字符" |
| AuthConfig.PasswordErrors | ai-notebook-github-upload/lib/auth-config.ts:77-95 | at most one message per rule, so at most five |
| AuthConfig.ValidatePassword | ai-notebook-github-upload/lib/auth-config.ts:70-101 | the errors are PasswordErrors of the configured policy, and isValid holds exactly when there are none |
| AuthConfig.MessagesDistinct | ai-notebook-github-upload/lib/auth-config.ts:77-95 | the five messages differ pairwise |
| AuthConfig.ErrorsMatchViolations | ai-notebook-github-upload/lib/auth-config.ts:77-95 | each message appears exactly when its own rule is enabled and violated |
| AuthConfig.ErrorsInRuleOrder | ai-notebook-github-upload/lib/auth-config.ts:77-95 | messages come in the order length, upper, lower, digit, special, each at most once |
| AuthConfig.ConfiguredPolicyAtMostFour | ai-notebook-github-upload/lib/auth-config.ts:28-34 | under the configured policy no special character is required, at most four messages appear, and the length message says 8 characters |
| AuthConfig.ConfiguredPolicyValidIff | ai-notebook-github-upload/lib/auth-config.ts:28-34 | the policy accepts exactly passwords of at least 8 characters with an upper-case letter, a lower-case letter and a digit |
| AuthConfig.MetaField | ai-notebook-github-upload/lib/auth-config.ts:105-114 | `user?.user_metadata?.[key]` is present exactly when user, metadata and key are |
| AuthConfig.EmailPrefix | ai-notebook-github-upload/lib/auth-config.ts:107 | the e-mail's prefix up to the first '@', present exactly when there is an e-mail |
| AuthConfig.GetUserDisplayName | ai-notebook-github-upload/lib/auth-config.ts:104-109 | display_name, else full_name, else the e-mail prefix, else '用户'; never empty |
| AuthConfig.GetUserAvatarUrl | ai-notebook-github-upload/lib/auth-config.ts:112-116 | avatar_url, else picture, else null; never an empty URL |
| AuthConfig.IsEmailVerified | ai-notebook-github-upload/lib/auth-config.ts:119-121 | unverified exactly when email_confirmed_at is an explicit null; no user and an absent field count as verified |
| AuthConfig.TranslationsAreNotKeys | ai-notebook-github-upload/lib/auth-config.ts:125-134 | no translation is empty or itself a key of the table |
| AuthConfig.FallbackNotAKey | ai-notebook-github-upload/lib/auth-config.ts:125-137 | the fallback '未知错误' is not a key of the table, so it is returned untranslated |
| AuthConfig.KeysStartUpper | ai-notebook-github-upload/lib/auth-config.ts:125-134 | every key of the table starts with an upper-case Latin letter |
| AuthConfig.FormatAuthError | ai-notebook-github-upload/lib/auth-config.ts:124-138 | for every error: a truthy message is translated; else a truthy error_description is translated; else '未知错误'; the text is never empty |
| AuthConfig.FormatAuthErrorProperties | ai-notebook-github-upload/lib/auth-config.ts:124-138 | no error gives '未知错误'; a known message is translated and any other non-empty message is kept; formatting a formatted message again changes nothing |
| RegisterForm.IsPasswordValid | ai-notebook/components/auth/register-form.tsx:26-33 | every requirement of the checklist passes, so the password has at least 8 characters (PasswordValidIff gives the full rule) |
| RegisterForm.IsPasswordMatch | ai-notebook/components/auth/register-form.tsx:34 | the two entries are equal and non-empty, so the confirmation is non-empty too |
| RegisterForm.IsFormValid | ai-notebook/components/auth/register-form.tsx:35 | a valid form has a non-empty email and display name and a confirmed password of at least 8 characters |
| RegisterForm.HandleSubmit | ai-notebook/components/auth/register-form.tsx:37-46 | onRegister is called exactly when the form is valid, with its email, password and display name |
| RegisterForm.PasswordValidIff | ai-notebook/components/auth/register-form.tsx:26-33 | the checklist accepts exactly passwords of at least 8 characters with an upper-case letter, a lower-case letter and a digit |
| RegisterForm.AgreesWithValidatePassword | ai-notebook/components/auth/register-form.tsx:26-33 | the form's rule and validatePassword under the configured policy accept the same passwords |
| RegisterForm.SubmittedPasswordIsStrong | ai-notebook/components/auth/register-form.tsx:33-43 | a submitted form has a non-empty email and display name and a confirmed password that passes every requirement |
| ProjectManager.InitialSelection | ai-notebook/components/project-manager.tsx:38-40 | the first project is selected, or nothing when there is none |
| ProjectManager.ProjectTasks | ai-notebook/components/project-manager.tsx:45 | exactly the tasks of the selected project, in order; none without a selection |
| ProjectManager.CreateProject | ai-notebook/components/project-manager.tsx:47-58 | one new project appended, the others kept, and the new one selected |
| ProjectManager.CreatedProjectShowsNoTasks | ai-notebook/components/project-manager.tsx:47-58 | the created project is selected and, having a new id, shows no tasks |
| ProjectManager.UpdateProject | ai-notebook/components/project-manager.tsx:117-124 | the projects with that id are renamed and stamped, the others are kept, ids and length unchanged |
| ProjectManager.AIProjectsCreated | ai-notebook/components/project-manager.tsx:126-139 | projects ++ newProjects and tasks ++ newTasks; the first new project is selected when there is one |
| ProjectManager.ImportedProjectShowsItsTasks | ai-notebook/components/project-manager.tsx:126-139 | after an import the selected project shows exactly its imported tasks |
| ProjectManager.NewTask | ai-notebook/components/project-manager.tsx:66-78 | the task has the project, title and id; an empty parent id becomes null; priority 'medium', not completed, empty fields |
| ProjectManager.CreateTask | ai-notebook/components/project-manager.tsx:61-80 | `None` (no onUpdateTasks call) without a selected project, else the list with exactly one new task appended |
| ProjectManager.CreatedTaskShownLast | ai-notebook/components/project-manager.tsx:61-80 | the created task appears last in the selected project's view |
| ProjectManager.UpdateTask | ai-notebook/components/project-manager.tsx:82-87 | the tasks with the edited id are replaced and stamped, the others kept, length and order unchanged |
| ProjectManager.UpdateTaskLaws | ai-notebook/components/project-manager.tsx:82-87 | saving twice is saving once; an unknown id changes nothing |
| ProjectManager.GetAllChildTaskIds | ai-notebook/components/project-manager.tsx:94-104 | the ids are closed under the child relation and each is reached from the parent: exactly the descendants; requires only the links reached from the parent to be acyclic (see Left out) |
| ProjectManager.DirectChildrenCovered | ai-notebook/components/project-manager.tsx:96-101 | holding every direct child and closed below its own ids, the list is closed under the parent's child relation |
| ProjectManager.PushDescendants | ai-notebook/components/project-manager.tsx:98-101 | one forEach round keeps the earlier ids and adds the child and everything below it, staying closed and justified |
| ProjectManager.JustifiedWithinClosed | ai-notebook/components/project-manager.tsx:94-104 | a justified list lies inside every set closed under the child relation, so it holds only descendants |
| ProjectManager.DeleteTask | ai-notebook/components/project-manager.tsx:89-111 | `None` (no onUpdateTasks call) exactly for an unknown id; otherwise the list without the task and exactly its descendants, the rest in order; for a present id requires only the links reached from it to be acyclic (see Left out) |
| ProjectManager.CycleElsewhereAllowsDelete | ai-notebook/components/project-manager.tsx:89-111 | a parent cycle elsewhere in the list (a under b, b under a) does not stop the deletion of an unrelated task c, which the source completes |
| Seqs.FilterCounts | ai-notebook/components/project-task-list.tsx:215-218 | `filter` keeps every copy of an element that passes and no copy of one that fails, so the filter-based views fix multiplicities too |
| ProjectTaskList.RootTasks | ai-notebook/components/project-task-list.tsx:215 | exactly the tasks with a null or empty parent id, in order |
| ProjectTaskList.ChildTasks | ai-notebook/components/project-task-list.tsx:217-219 | exactly the tasks whose parent id is the given one, in order |
| ProjectTaskList.RootsAreNoChildren | ai-notebook/components/project-task-list.tsx:215-219 | no task is both a root and a child of a task with a non-empty id |
| ProjectTaskList.ToggleExpand | ai-notebook/components/project-task-list.tsx:221-229 | membership of exactly that id flips |
| ProjectTaskList.ToggleTwiceRestores | ai-notebook/components/project-task-list.tsx:221-229 | toggling twice restores the set |
| ProjectTaskList.ToggleComplete | ai-notebook/components/project-task-list.tsx:46-48 | isCompleted flips and every other field is kept |
| ProjectTaskList.ToggleCompleteInvolutive | ai-notebook/components/project-task-list.tsx:46-48 | completing twice is the identity |
| ProjectTaskList.CreateRootTask | ai-notebook/components/project-task-list.tsx:231-235 | a blank title calls nothing; otherwise a root task with the trimmed, non-empty title |
| ProjectTaskList.CreateSubtask | ai-notebook/components/project-task-list.tsx:50-55 | a blank title calls nothing; otherwise a task under the current one with the trimmed title |
| ProjectTaskList.SubtaskBecomesChild | ai-notebook/components/project-task-list.tsx:50-55 | a subtask created through the project view lands among its parent's children |
| ProjectTaskList.PriorityText | ai-notebook/components/project-task-list.tsx:66-73 | high gives 高, low gives 低, anything else 中 |
| ProjectTaskList.ItemRows | ai-notebook/components/project-task-list.tsx:189-201 | an item shows itself, and when expanded each child one level down with nothing below it |
| ProjectTaskList.ListRows | ai-notebook/components/project-task-list.tsx:267-279 | at most two levels: roots, and children of expanded roots |
| ProjectTaskList.VisibleRows | ai-notebook/components/project-task-list.tsx:215-279 | the shown rows are at level 0 or 1, and level 0 holds only root tasks |
| ProjectTaskList.GrandchildrenHidden | ai-notebook/components/project-task-list.tsx:189-201 | a task whose parent is not a root is never shown, whatever is expanded |
| AiProjectSplitter.TopTask | ai-notebook/components/ai-project-splitter.tsx:121-133 | a task row: the parsed title, description or "", priority or 'medium', parentId "", not completed, empty due date and assignee |
| AiProjectSplitter.SubTask | ai-notebook/components/ai-project-splitter.tsx:140-152 | a subtask row: linked to its task, description or "", always 'medium', not completed |
| AiProjectSplitter.Convert | ai-notebook/components/ai-project-splitter.tsx:104-159 | the reference conversion: one project per parsed project, in order, each with the parsed name and the id asked at its turn; its task rows after those of the projects before it |
| AiProjectSplitter.SubtaskRows | ai-notebook/components/ai-project-splitter.tsx:137-154 | one row per subtask, each taking the next id |
| AiProjectSplitter.PushSubtasks | ai-notebook/components/ai-project-splitter.tsx:137-155 | the subtask loop appends exactly SubtaskRows, asking one fresh id per subtask |
| AiProjectSplitter.PushTask | ai-notebook/components/ai-project-splitter.tsx:119-156 | one task turn appends the task's row, then its subtasks when they are an array |
| AiProjectSplitter.PushTasksStep | ai-notebook/components/ai-project-splitter.tsx:117-157 | one turn of the task loop extends the rows and the generator order of the tasks before it |
| AiProjectSplitter.PushTasks | ai-notebook/components/ai-project-splitter.tsx:117-157 | the task loop of one project appends exactly TasksRows and asks ids in TasksOrder |
| AiProjectSplitter.PushProject | ai-notebook/components/ai-project-splitter.tsx:104-158 | one project turn: the project's id is asked before its tasks', and the result equals Convert of one more project |
| AiProjectSplitter.PushProjects | ai-notebook/components/ai-project-splitter.tsx:104-159 | the project loop yields exactly Convert of the parsed tree, with ids asked in ProjectsOrder |
| AiProjectSplitter.AcceptsInput | ai-notebook/components/ai-project-splitter.tsx:37-40 | the AI is asked only for a description that is not blank |
| AiProjectSplitter.SplitProjects | ai-notebook/components/ai-project-splitter.tsx:95-162 | a missing or non-array `projects` aborts with nothing created; otherwise the result is Convert of the tree; ids never repeat |
| AiProjectSplitter.SubtaskRowsAt | ai-notebook/components/ai-project-splitter.tsx:141-154 | the k-th subtask row is built from the k-th subtask and the k-th id |
| AiProjectSplitter.TaskRowsAt | ai-notebook/components/ai-project-splitter.tsx:119-154 | a task's row comes first, then one row per subtask linked to the task |
| AiProjectSplitter.TaskRowIds | ai-notebook/components/ai-project-splitter.tsx:119-139 | the task takes the first id asked for, its subtasks the following ones |
| AiProjectSplitter.TasksRowIds | ai-notebook/components/ai-project-splitter.tsx:117-157 | the task rows of a project carry its ids in the order asked |
| AiProjectSplitter.RowIdsDistinct | ai-notebook/components/ai-project-splitter.tsx:119-139 | with a generator that never repeats, no two task rows share an id |
| AiProjectSplitter.TaskRowDefaults | ai-notebook/components/ai-project-splitter.tsx:121-154 | a task's rows have the project id, not completed, no due date or assignee, and the subtasks follow their task |
| AiProjectSplitter.RowsHaveDefaults | ai-notebook/components/ai-project-splitter.tsx:117-157 | every row of a project has those defaults, and every subtask is 'medium' after the row of its task |
| AiProjectSplitter.ProjectIdsOf | ai-notebook/components/ai-project-splitter.tsx:105 | the project ids, in order |
| AiProjectSplitter.ConvertIds | ai-notebook/components/ai-project-splitter.tsx:104-159 | the i-th project has the i-th name and the id asked at its turn; the task rows carry the remaining ids |
| AiProjectSplitter.OrderIsProjectsAndTasks | ai-notebook/components/ai-project-splitter.tsx:105-139 | the ids asked are the project ids and the task row ids, each once |
| AiProjectSplitter.SplitIdsDistinct | ai-notebook/components/ai-project-splitter.tsx:104-159 | every project and task row gets an id of its own |
| AiProjectSplitter.TasksOrderLength | ai-notebook/components/ai-project-splitter.tsx:117-157 | the ids asked for a project's tasks equal its row count |
| AiProjectSplitter.SplitCounts | ai-notebook/components/ai-project-splitter.tsx:104-159 | one project per parsed project, and one task row per parsed task and subtask |
| Ids.IdGenerator.constructor | ai-notebook/components/ai-project-splitter.tsx:105 | a generator that has handed out nothing |
| Ids.IdGenerator.Generate | ai-notebook/components/ai-project-splitter.tsx:105 | generateId: a string never handed out before, recorded as handed out |
| TodoTypes.CreateTodoList | ai-notebook/lib/todo-storage.ts:24-32 | a fresh empty list with the title, or '待办事项' when omitted |
| TodoTypes.CreateTodoItem | ai-notebook/lib/todo-storage.ts:34-42 | a fresh uncompleted item with the text; the list id is not recorded |
| TodoTypes.ToggledItems | ai-notebook/components/todo-list.tsx:49-53 | the items with that id flip completed and take the stamp `now`; all others are kept |
| TodoTypes.ToggleTwiceRestores | ai-notebook/components/todo-list.tsx:49-53 | toggling twice restores every item up to its stamp |
| TodoTypes.WithoutItem | ai-notebook/components/todo-list.tsx:67 | exactly the items without that id, in order |
| TodoTypes.DeleteIdempotent | ai-notebook/components/todo-list.tsx:67 | deleting twice is deleting once |
| TodoTypes.DeleteAbsentNoop | ai-notebook/components/todo-list.tsx:67 | deleting an absent id changes nothing |
| TodoTypes.EditedItems | ai-notebook/components/todo-list.tsx:85-89 | the items with that id take the text and the stamp `now`; all others are kept |
| TodoTypes.EditTwiceIsEditOnce | ai-notebook/components/todo-list.tsx:85-89 | saving the same edit twice is saving it once |
| TodoTypes.PendingItems | ai-notebook/components/todo-list.tsx:124 | exactly the uncompleted items, in order |
| TodoTypes.CompletedItems | ai-notebook/components/todo-list.tsx:125 | exactly the completed items, in order |
| TodoTypes.PendingCompletedPartition | ai-notebook-github-upload/components/todo-manager.tsx:180-181 | the two sections split the items: each item exactly once, counts adding to the total |
| TodoTypes.AppendedItemSection | ai-notebook-github-upload/components/todo-manager.tsx:180-181 | an appended item shows last in its own section and leaves the other alone |
| TodoTypes.ToggleMovesOneItem | ai-notebook/components/todo-list.tsx:46-62 | toggling one item moves it between sections: the completed count goes up or down by one |
| TodoListPanel.AddItem | ai-notebook/components/todo-list.tsx:24-44 | nothing for no list or a blank input; otherwise one trimmed, uncompleted item tagged with the note id is appended and the input cleared |
| TodoListPanel.AddRaisesPendingCount | ai-notebook/components/todo-list.tsx:24-44 | adding raises the pending count by one and leaves the completed count |
| TodoListPanel.ToggleItem | ai-notebook/components/todo-list.tsx:46-62 | nothing without a list; otherwise the list with the target toggled and a new stamp |
| TodoListPanel.DeleteItem | ai-notebook/components/todo-list.tsx:64-75 | nothing without a list; otherwise the list without the target and with a new stamp |
| TodoListPanel.SaveEdit | ai-notebook/components/todo-list.tsx:82-100 | nothing unless a list and an edited item exist; otherwise that item takes the text and editing ends |
| TodoListPanel.ListCounts | ai-notebook/components/todo-list.tsx:124-126 | pending + completed = total, each counted from its section |
| TodoListPanel.ToggleMovesCount | ai-notebook/components/todo-list.tsx:46-62 | toggling one item moves one count to the other and keeps the total |
| TodoManager.FindList | ai-notebook-github-upload/components/todo-manager.tsx:27 | the first list with that id, or none when no list has it |
| TodoManager.ToggleItem | ai-notebook-github-upload/components/todo-manager.tsx:26-41 | nothing for an unknown list; otherwise that list with the matching items toggled |
| TodoManager.DeleteItem | ai-notebook-github-upload/components/todo-manager.tsx:43-53 | nothing for an unknown list; otherwise that list without the items with that id |
| TodoManager.SaveEdit | ai-notebook-github-upload/components/todo-manager.tsx:60-78 | nothing for an unknown list; otherwise the matching items take the edited text and editing ends |
| TodoManager.AddItem | ai-notebook-github-upload/components/todo-manager.tsx:80-97 | nothing for a blank input or an unknown list; otherwise one trimmed, uncompleted item appended and that input cleared |
| TodoManager.AddedItemIsLastPending | ai-notebook-github-upload/components/todo-manager.tsx:80-97 | an added item is non-blank, pending, and last in the pending section |
| TodoManager.SaveListTitle | ai-notebook-github-upload/components/todo-manager.tsx:104-116 | nothing for an unknown list; otherwise only that list's title and stamp change (the stamp becomes `now`) and editing ends |
| ReportTypes.AppendTrimmed | ai-notebook-github-upload/components/daily-report-editor.tsx:73-79 | a blank input gives nothing; otherwise the list with the trimmed, non-empty input appended |
| DailyReportEditor.CurrentReport | ai-notebook-github-upload/components/daily-report-editor.tsx:29-36 | the first report for the date and project, or null when there is none |
| DailyReportEditor.NewReport | ai-notebook-github-upload/components/daily-report-editor.tsx:39-49 | a report for the date and project with empty tasks, plans, progress and issues |
| DailyReportEditor.CreateReport | ai-notebook-github-upload/components/daily-report-editor.tsx:38-54 | exactly one new report appended, and it becomes the shown one |
| DailyReportEditor.CreatedReportIsShown | ai-notebook-github-upload/components/daily-report-editor.tsx:29-54 | once the list comes back, the lookup shows the created report |
| DailyReportEditor.Merge | ai-notebook-github-upload/components/daily-report-editor.tsx:59-63 | each supplied field overwrites, every other field is kept, updatedAt is `now` |
| DailyReportEditor.MergeNothing | ai-notebook-github-upload/components/daily-report-editor.tsx:59-63 | an empty update changes only the stamp |
| DailyReportEditor.UpdateReport | ai-notebook-github-upload/components/daily-report-editor.tsx:56-71 | nothing without a shown report; otherwise the merged report replaces every report with its id, the others kept |
| DailyReportEditor.UpdatedReportStaysShown | ai-notebook-github-upload/components/daily-report-editor.tsx:29-71 | after an update that keeps date and project, the lookup shows the written report |
| DailyReportEditor.SetList | ai-notebook-github-upload/components/daily-report-editor.tsx:76-99 | the update names one list and nothing else |
| DailyReportEditor.SetListKeepsOthers | ai-notebook-github-upload/components/daily-report-editor.tsx:76-99 | writing one list changes that list and the stamp only |
| DailyReportEditor.AddEntry | ai-notebook-github-upload/components/daily-report-editor.tsx:73-94 | nothing for a blank input or no report; otherwise the trimmed entry appended to that list and the input cleared |
| DailyReportEditor.RemoveEntry | ai-notebook-github-upload/components/daily-report-editor.tsx:81-101 | nothing without a report; otherwise exactly the entry at the index removed, the rest in order |
| DailyReportEditor.RemoveAddedEntryRestores | ai-notebook-github-upload/components/daily-report-editor.tsx:73-101 | removing the entry just added restores the report up to its stamp |
| WeeklyReportEditor.CurrentReport | ai-notebook-github-upload/components/weekly-report-editor.tsx:34-41 | the first report for the week and project, or null when there is none |
| WeeklyReportEditor.NewReport | ai-notebook-github-upload/components/weekly-report-editor.tsx:44-55 | a report for the week and project with an empty summary, achievements, challenges and plans |
| WeeklyReportEditor.CreateReport | ai-notebook-github-upload/components/weekly-report-editor.tsx:43-60 | exactly one new report appended, and it becomes the shown one |
| WeeklyReportEditor.CreatedReportIsShown | ai-notebook-github-upload/components/weekly-report-editor.tsx:34-60 | once the list comes back, the lookup shows the created report |
| WeeklyReportEditor.Merge | ai-notebook-github-upload/components/weekly-report-editor.tsx:65-69 | each supplied field overwrites, every other field is kept, updatedAt is `now` |
| WeeklyReportEditor.UpdateReport | ai-notebook-github-upload/components/weekly-report-editor.tsx:62-77 | nothing without a shown report; otherwise the merged report replaces every report with its id, the others kept |
| WeeklyReportEditor.UpdatedReportStaysShown | ai-notebook-github-upload/components/weekly-report-editor.tsx:34-77 | after an update that keeps week and project, the lookup shows the written report |
| WeeklyReportEditor.SetList | ai-notebook-github-upload/components/weekly-report-editor.tsx:79-122 | the update names one of the three lists and nothing else |
| WeeklyReportEditor.SetListKeepsOthers | ai-notebook-github-upload/components/weekly-report-editor.tsx:79-122 | writing one list changes that list and the stamp only |
| WeeklyReportEditor.AddEntry | ai-notebook-github-upload/components/weekly-report-editor.tsx:79-115 | nothing for a blank input or no report; otherwise the trimmed entry appended to that list and the input cleared |
| WeeklyReportEditor.RemoveEntry | ai-notebook-github-upload/components/weekly-report-editor.tsx:87-122 | nothing without a report; otherwise exactly the entry at the index removed from that list |
| WeeklyReportEditor.RemoveAddedEntryRestores | ai-notebook-github-upload/components/weekly-report-editor.tsx:79-122 | removing the entry just added restores the report up to its stamp |
| PomodoroTimer.TickStep | ai-notebook-github-upload/components/pomodoro-timer.tsx:22-36 | no change unless running with time left; above one second one second less; otherwise 0, stopped and completed; keeps the invariant |
| PomodoroTimer.StartStep | ai-notebook-github-upload/components/pomodoro-timer.tsx:59-66 | running and not completed; a completed session restarts at 900, otherwise the time is kept |
| PomodoroTimer.PauseStep | ai-notebook-github-upload/components/pomodoro-timer.tsx:68-70 | stopped, with time and completion kept |
| PomodoroTimer.ResetStep | ai-notebook-github-upload/components/pomodoro-timer.tsx:72-76 | back to 900, stopped, not completed |
| PomodoroTimer.CountDown | ai-notebook-github-upload/components/pomodoro-timer.tsx:22-36 | a running timer loses one second per tick and is finished after exactly timeLeft ticks |
| PomodoroTimer.FinishedStays | ai-notebook-github-upload/components/pomodoro-timer.tsx:23 | ticks do nothing to a timer that is not running |
| PomodoroTimer.FullSession | ai-notebook-github-upload/components/pomodoro-timer.tsx:14-36 | a session started fresh completes after 900 ticks and not before |
| PomodoroTimer.Timer.constructor | ai-notebook-github-upload/components/pomodoro-timer.tsx:14-20 | 900 seconds, not running, not completed |
| PomodoroTimer.Timer.Tick | ai-notebook-github-upload/components/pomodoro-timer.tsx:22-36 | the state becomes TickStep of the old one and keeps the invariant |
| PomodoroTimer.Timer.Start | ai-notebook-github-upload/components/pomodoro-timer.tsx:59-66 | the state becomes StartStep of the old one |
| PomodoroTimer.Timer.Pause | ai-notebook-github-upload/components/pomodoro-timer.tsx:68-70 | the state becomes PauseStep of the old one |
| PomodoroTimer.Timer.Reset | ai-notebook-github-upload/components/pomodoro-timer.tsx:72-76 | the state becomes the initial one |
| PomodoroTimer.FormatTime | ai-notebook-github-upload/components/pomodoro-timer.tsx:53-57 | minutes, a colon, two seconds digits; five characters below 100 minutes |
| PomodoroTimer.FormatTimeReadsBack | ai-notebook-github-upload/components/pomodoro-timer.tsx:53-57 | read back, the display gives minutes × 60 + seconds = the input, with seconds below 60 |
| NotesPage.SelectedNote | ai-notebook/app/page.tsx:144 | the note with the selected id, or none when nothing is selected or no note has it |
| NotesPage.CreateNote | ai-notebook/app/page.tsx:89-100 | one empty note titled 新笔记 in front of the others, and selected |
| NotesPage.CreatedNoteIsShown | ai-notebook/app/page.tsx:89-100 | after createNote the page shows the new note |
| NotesPage.FindNote | ai-notebook/app/page.tsx:103 | a note with that id, or none when no note has it |
| NotesPage.ShouldGenerateTitleIff | ai-notebook/app/page.tsx:104 | generate exactly when the note exists and the content is longer than 50, changed and not blank |
| NotesPage.WithContent | ai-notebook/app/page.tsx:106-112 | the notes with that id take the content and a new stamp, the others kept |
| NotesPage.WithGenerated | ai-notebook/app/page.tsx:115-127 | the notes with that id take the generated title and summary |
| NotesPage.UpdateNote | ai-notebook/app/page.tsx:102-134 | only the matching notes change: content and stamp, plus title and summary when generation ran and returned |
| NotesPage.UpdateKeepsSelection | ai-notebook/app/page.tsx:102-134 | editing keeps a valid selection valid |
| NotesPage.DeleteNote | ai-notebook/app/page.tsx:136-142 | the note is removed; a selection of it moves to the first remaining note or to nothing; another selection is kept |
| NotesPage.DeleteKeepsSelectionValid | ai-notebook/app/page.tsx:136-142 | after deleting, the selection names a note that still exists |
| NotesPage.UpdateTodoList | ai-notebook/app/page.tsx:146-152 | the list with the same id is replaced, the others kept |
| NotesPage.CreateTodoListAt | ai-notebook/app/page.tsx:154-157 | a default list appended, the others kept |
| NotesPage.DeleteTodoList | ai-notebook/app/page.tsx:159-161 | exactly the lists without that id, in order |
| NotesPage.CreateThenDeleteRestores | ai-notebook/app/page.tsx:154-161 | creating and then deleting a list restores the lists |
| NotesPage.AddedItemReachesItsList | ai-notebook/app/page.tsx:146-152 | an item added in a note's todo list ends up last in that list; other lists are untouched |
| NotesPage.InitialLoad | ai-notebook/app/page.tsx:40-57 | the loaded notes are shown and the first of them selected; nothing is selected when none loaded |
| NotesPage.DataRestored | ai-notebook/app/page.tsx:163-169 | notes and todos are replaced; the first restored note is selected, or the old selection kept when none was restored |
| NotesPage.RestoredFirstNoteShown | ai-notebook/app/page.tsx:163-169 | restoring notes shows the first of them |
| NotesPage.RestoringNoNotesKeepsStaleSelection | ai-notebook/app/page.tsx:163-169 | restoring no notes keeps a selection that names no note |
| NotesPage.HasData | ai-notebook/app/page.tsx:187 | the data views show exactly when notes, todo lists or projects exist |

## Left out

- Persistence: the `localStorage` load and save effects of the notes page (`app/page.tsx:40-87`) are
  I/O. Only the selection rule of the mount effect is modelled, as `NotesPage.InitialLoad`.
  JSON (de)serialisation and storage exceptions are not modelled either.
- The AI: `callOpenRouter`, the prompt text, and the regular-expression JSON extraction and
  `JSON.parse` at `ai-project-splitter.tsx:83-85` are an oracle. The model receives the parsed tree,
  or `None` for a missing or non-array `projects`.
- AI failures, alerts, and the input clearing after a split (`ai-project-splitter.tsx:160-172`) are
  UI effects.
- Clock and calendar: `new Date().toISOString()` and `Date.now()` are parameters. One `now`
  parameter stands for the two consecutive `new Date()` calls that fill `createdAt` and `updatedAt`
  of a new record (for example `mock-supabase.ts:361-362` and `project-manager.tsx:75-76`), so
  `created_at == updated_at` in `NewRow`, `NewTask`, `CreateProject`, `CreateTodoItem`, `NewReport`,
  `CreateNote` and the splitter's rows is a modelling choice; the source may read two different
  milliseconds. The date-fns
  computations `getDateDisplay`, `getRecentDates`, `getWeekDisplay`, `getRecentWeeks` and `weekEnd`
  (`weekly-report-editor.tsx:32`) are not modelled; `weekEnd` is an input.
- Random ids: `Math.random` in `mock-supabase.ts:66-68` becomes a parameter for the random part.
- Id generator: `generateId` from `lib/utils.ts` is not part of this model. It is replaced by
  `Ids.IdGenerator`, which promises a fresh id. The source itself does not guarantee uniqueness.
- Timers, audio and floating point: `setInterval` scheduling, the completion sound, and the
  `progress` percentage (`pomodoro-timer.tsx:78`). A tick is modelled as one call of `Timer.Tick`.
- Backend calls in the auth façade: the `supabase.auth.*` requests are foreign code. Their results
  are the `BackendOutcome` input.
  - The request contents are not modelled: the profile data of `updateProfile` and the `redirectTo`
    URL of `resetPassword`.
  - The async interleaving of `initialize` with later auth events is not modelled.
  - `setupAuthListener`'s logging (`auth-config.ts:44-67`) is not modelled.
- The asynchrony of `updateNote`: the model applies the content update and then the AI update, with
  nothing in between. Edits made while the AI call is pending are not modelled.
- Text lengths: JavaScript counts UTF-16 code units, while the model counts characters. This matters
  for the length tests of passwords and of notes over 50 characters.
- Whitespace: `trim` uses a fixed table of JavaScript whitespace characters.
- Error tables: JavaScript looks keys up through `Object.prototype` (a message such as "constructor"
  finds a function). The model's map holds only the listed keys.
- Listener re-entrancy: a listener that subscribes or unsubscribes while being notified is not
  modelled. Notices are recorded in a log.
- Pure UI state has no model:
  - editing and input setters: `handleEditItem`, `handleStartEdit`, `handleCancelEdit`,
    `handleEditListTitle`, `handleSelectProject`;
  - the page's pass-through handlers (`app/page.tsx:171-186`);
  - rendering other than the two-level task rows.
- MockSupabase.MockSupabaseTable.Update: returns the caller's own updated row (`OwnedUpdateResult`).
  The code at `mock-supabase.ts:395` looks the row up by id alone; that as-written result is
  `UpdateResult` (see Findings).
- ProjectManager.GetAllChildTaskIds: requires the parent links reached from its argument to be
  acyclic (a ghost rank that decreases along every link at or below the argument's rank); links
  elsewhere in the list are unconstrained. The source has no such guard: a cycle below the argument,
  as restored or imported data can hold, makes `getAllChildTaskIds` (`project-manager.tsx:94-104`)
  recurse until the stack overflows. The app's own handlers never build such a cycle. That
  non-terminating behaviour is not modelled.
- ProjectManager.DeleteTask: for a present id inherits that requirement, so only deleting a task
  with a cycle among its descendants is not modelled; an unknown id and a cycle elsewhere in the
  list are covered (`CycleElsewhereAllowsDelete`).
- MockSupabase.RestoreOutcome: a stored text that parses to a non-session value with a future
  `expires_at` (such as `{"expires_at": 1e20}`) would be adopted by `restoreSession` as a session
  without a user; the model's `Stored` has no such value.
- Exception paths in the emulator: the `catch` branches of `signUp`, `signInWithPassword` and
  `signOut` (`mock-supabase.ts:118-123`, `149-154`, `167-169`, yielding '注册失败', '登录失败' and
  '登出失败') are reached only when `localStorage` or a listener throws, which the model does not
  represent, so they are not modelled.
- Aliasing in `updateUser`: `currentSession.user = currentUser` (`mock-supabase.ts:243`) makes the
  session share the user object; the model copies the value, so a later in-place change of the
  user would not show in the session. The emulator makes no such later change.
- Undefined filter values: the model's column test compares a present column with a value, so
  `eq(column, undefined)`, which the source matches against rows lacking the column, is not
  expressible.
- AuthService.ErrorKeysStartUpper: states only that each key of the error table starts with an
  upper-case Latin letter, not that the whole key is English text; that is what separates keys from
  translations in the idempotence proof.
- AuthConfig.KeysStartUpper: states the same of `formatAuthError`'s table, and no more.
- AuthService.TranslationsStartCjk: states only that each translation starts with a CJK unified ideograph, not
  that the whole text is Chinese.
- PomodoroTimer.FormatTime: the model formats natural numbers only. `timeLeft` is never negative in a
  reachable state, so `Math.floor` and `%` on negative values are not modelled.
- The integration and test scripts only motivate the ownership properties above.

## Findings

| source | as written | input that shows it | evidently intended | confidence | as-written member | corrected member |
|---|---|---|---|---|---|---|
| ai-notebook/lib/mock-supabase.ts:395 | `update` rewrites only the caller's rows, but looks up the row it returns by id alone, regardless of owner | alice owns `{id: "mock_a", user_id: "alice", title: "A"}`; bob calls `update({id: "mock_a", title: "B"})`; nothing is changed, yet alice's row comes back to bob | return only the caller's own updated row, as every other table operation is owner-scoped | not executed | MockSupabase.UpdateReturnsForeignRow | MockSupabase.OwnedUpdateResultIsolated |
