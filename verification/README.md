# WTC Connect chat core in Dafny

WTC Connect is an Android CRM and chat app. This project models its chat
core. That covers the in-memory chat repository: users, groups, a
single-valued user-to-group membership map, conversations and messages.
It also covers the screen and view-model logic that decides who may see
which chat and what the app shows. In detail, the model covers:

- the authentication state machine: startup, login, registration with
  local validation, backend error translation, logout and clearing the
  error;
- the chat screen's group-chat detection and group decoding;
- its authorization check and its "sent by me" test;
- the main screen's bottom bar, routes and group-chat route;
- the shared repository the main screen builds;
- the change-password screen's strength rules;
- the profile screen's display name and password-change dialog flow;
- the clients screen's filter, chips and notes;
- the conversation list's state and search filter;
- the groups screen's default and effective group, member list, initials
  and add-by-email action.

Every operation is a pure function. A mutating repository call returns a
`Step` that holds the outcome (`Success` or `Failure(message)`) and the new
store. Kotlin nullables are `Option`. A screen's `remember` state is a
small immutable record, and each handler is a function from the old
record to the new one.

Values the source draws for itself are parameters of the model:

- a fresh UUID becomes `freshId`;
- `System.currentTimeMillis()` becomes `now`;
- the authentication backend's answer is `BackendResult` or `TaskResult`;
- Android's email pattern is `isEmail`;
- the repository's group lookup on the screens is `lookup`.

Helper modules:

- `Wrappers` holds `Option` and `Outcome`.
- `Seqs` holds `Filter`, `Any`, `FindIndex` and `Find`. It proves that
  `Filter` returns an order-preserving subsequence, and `Filter` is used
  for every `filter { }` in the source.
- `Text` models the Kotlin string functions the code calls: `trim`,
  `isBlank`, `lowercase`, `contains(ignoreCase)`, `startsWith`,
  `removePrefix`, `substringBefore`, `replace` and `replaceFirstChar`.

Two places where the code does not do what it evidently intends are
listed under "## Findings". For each, the model has both the behaviour as
written and the intended one. The chat screen's repeated checks
(`RunChecks`) apply the intended rule. `Login` keeps the login table as
written, and `LoginIntended` is the same login with the intended table.

## Model

| member | source | states |
|---|---|---|
| FakeChatRepository.GetUserGroupId | app/src/main/java/br/com/fiap/wtcconnect/data/FakeChatRepository.kt:222-226 | The user's group is their recorded membership. A user with no membership, or one the store has never seen, is reported in "g0". |
| FakeChatRepository.GetGroupMembers | app/src/main/java/br/com/fiap/wtcconnect/data/FakeChatRepository.kt:183-186 | Exactly the users whose recorded membership is the group, with no default-group fallback. |
| FakeChatRepository.GetUserById | app/src/main/java/br/com/fiap/wtcconnect/data/FakeChatRepository.kt:228-231 | The first user in the list with that id, whatever users with the same id follow; none exactly when no user has that id. |
| FakeChatRepository.GetUserByIdIsFirst | app/src/main/java/br/com/fiap/wtcconnect/data/FakeChatRepository.kt:228-231 | For every position whose id no earlier user has, the lookup of that id returns the user at that position. |
| FakeChatRepository.SearchUsers | app/src/main/java/br/com/fiap/wtcconnect/data/FakeChatRepository.kt:212-220 | Exactly the users matching the trimmed query (empty, or in the name or email ignoring case) who are in the given group when one is given. |
| FakeChatRepository.Init | app/src/main/java/br/com/fiap/wtcconnect/data/FakeChatRepository.kt:22-121 | The seed has the three groups "g0", "g1" and "g2". The current user is always present. Every user starts in "g0". There are four conversations, the last being "group_g0". Every conversation has a message list. |
| FakeChatRepository.SendMessage | app/src/main/java/br/com/fiap/wtcconnect/data/FakeChatRepository.kt:130-178 | Always succeeds and appends exactly one message, by the sender with the content, to that conversation only. An existing conversation's summary is updated in place. For an unknown conversation, a group row is appended only when the id names a known group. Users, groups and memberships are untouched, and the store invariant is kept. |
| FakeChatRepository.NameFromEmail | app/src/main/java/br/com/fiap/wtcconnect/data/FakeChatRepository.kt:197 | A created user's name is the email's part before the first '@', character by character, with each '.' turned into a space and the first character upper-cased when it is a lower-case letter. |
| FakeChatRepository.NameFromEmailOfAddress | app/src/main/java/br/com/fiap/wtcconnect/data/FakeChatRepository.kt:197 | An address whose local part has no '@' or '.' and does not start lower case names its new user exactly that local part, whatever the domain. |
| FakeChatRepository.AddUserToGroupByEmail | app/src/main/java/br/com/fiap/wtcconnect/data/FakeChatRepository.kt:188-203 | Always succeeds. The first user whose email matches ignoring case is moved into the group. Otherwise a new user with that email is appended and put in the group. No other membership changes, and the invariant is kept. |
| FakeChatRepository.RemoveUserFromGroup | app/src/main/java/br/com/fiap/wtcconnect/data/FakeChatRepository.kt:205-210 | When the user is not recorded in the group, it fails with "Usuário não pertence a este grupo" and the store is unchanged. Otherwise it succeeds, clears only that user's membership, and keeps the invariant. |
| FakeChatRepository.MembersAndSearchKeepUserOrder | app/src/main/java/br/com/fiap/wtcconnect/data/FakeChatRepository.kt:183-220 | Member lists and search results are subsequences of the user list, in its order. |
| FakeChatRepository.BlankSearchWithinGroupIsMembers | app/src/main/java/br/com/fiap/wtcconnect/data/FakeChatRepository.kt:212-220 | A blank query within a group returns exactly that group's member list. |
| FakeChatRepository.BlankSearchListsEveryone | app/src/main/java/br/com/fiap/wtcconnect/data/FakeChatRepository.kt:212-220 | A blank query with no group returns every user, in order. |
| FakeChatRepository.RemovedFromDefaultStillReportsDefault | app/src/main/java/br/com/fiap/wtcconnect/data/FakeChatRepository.kt:205-226 | After removal from "g0", a user is no longer a member but is still reported in "g0" by the fallback. |
| FakeChatRepository.RemoveTwiceFails | app/src/main/java/br/com/fiap/wtcconnect/data/FakeChatRepository.kt:205-210 | Removing the same user from the same group twice fails the second time with the not-a-member error. |
| FakeChatRepository.AddedUserIsMember | app/src/main/java/br/com/fiap/wtcconnect/data/FakeChatRepository.kt:188-203 | After adding by email, some user with that email is a member of the group and is reported in it. |
| FakeChatRepository.NewUserIsFoundBySearch | app/src/test/java/br/com/fiap/wtcconnect/data/FakeChatRepositoryTest.kt:10-26 | A user created from an unknown email is found by a search for any part of that email. |
| FakeChatRepository.AddNewThenRemove | app/src/main/java/br/com/fiap/wtcconnect/data/FakeChatRepository.kt:188-210 | A user created by adding by email can then be removed from that group, and the user list keeps them. |
| FakeChatRepository.SeedRemoveScenario | app/src/main/java/br/com/fiap/wtcconnect/data/FakeChatRepository.kt:46-55 | In the seed, removing "u2" from "g0" succeeds. "u2" leaves the member list but is still reported in "g0". |
| FakeChatRepository.MemberListsAreDisjoint | app/src/main/java/br/com/fiap/wtcconnect/data/FakeChatRepository.kt:183-186 | Membership is single-valued: no user is listed in two different groups. |
| AuthViewModel.FirstMatch | app/src/main/java/br/com/fiap/wtcconnect/viewmodel/AuthViewModel.kt:67-77 | The translation of the first rule whose key occurs in the message ignoring case. None exactly when no key occurs. |
| AuthViewModel.MapError | app/src/main/java/br/com/fiap/wtcconnect/viewmodel/AuthViewModel.kt:67-79 | No message gives the fallback. A message no rule matches is shown raw. Otherwise the translation of the first rule whose key the message contains ignoring case is shown. |
| AuthViewModel.CheckCurrentUser | app/src/main/java/br/com/fiap/wtcconnect/viewmodel/AuthViewModel.kt:33-42 | Authenticated exactly when the backend has a current user, whose uid and email are copied in. Otherwise the default state. |
| AuthViewModel.LoginRequest | app/src/main/java/br/com/fiap/wtcconnect/viewmodel/AuthViewModel.kt:45-52 | Rejected exactly when the email or password is empty, setting only the error. Otherwise loading starts and the error clears. |
| AuthViewModel.RegisterValidation | app/src/main/java/br/com/fiap/wtcconnect/viewmodel/AuthViewModel.kt:95-121 | Passes exactly when all fields are non-empty, the email matches, the password is at least 6 long and equals the confirmation. Each check, once the earlier ones pass, reports its own message: empty fields, then a bad email format, then a short password, then a mismatch. |
| AuthViewModel.RegisterRequest | app/src/main/java/br/com/fiap/wtcconnect/viewmodel/AuthViewModel.kt:95-123 | Rejected exactly when validation fails, setting only that error. Otherwise loading starts. |
| AuthViewModel.Complete | app/src/main/java/br/com/fiap/wtcconnect/viewmodel/AuthViewModel.kt:56-83 | Loading always ends. On success: authenticated, no error, type per the operator flag, the backend user's id and email. On failure: only the translated error changes. |
| AuthViewModel.Login | app/src/main/java/br/com/fiap/wtcconnect/viewmodel/AuthViewModel.kt:44-86 | Empty fields set only the error. Otherwise a backend success authenticates with the chosen type and the backend user's id and email. A failure keeps the authentication flag, type, id and email and shows the message as the login table written in the code translates it. |
| AuthViewModel.LoginIntended | app/src/test/java/br/com/fiap/wtcconnect/viewmodel/AuthViewModelTest.kt:121-147 | The login the unit test expects: identical to `Login` on empty fields and on success; on a failure it differs only in the error, translated by the table that also recognises "badly formatted". |
| AuthViewModel.Register | app/src/main/java/br/com/fiap/wtcconnect/viewmodel/AuthViewModel.kt:93-153 | A failed validation sets only its error. Otherwise a success authenticates with the chosen type and the backend user's id and email. A failure keeps flag, type, id and email and shows the registration translation. |
| AuthViewModel.Logout | app/src/main/java/br/com/fiap/wtcconnect/viewmodel/AuthViewModel.kt:88-91 | Logout clears authentication, ids, email, error and loading, and resets the type to client. |
| AuthViewModel.ClearError | app/src/main/java/br/com/fiap/wtcconnect/viewmodel/AuthViewModel.kt:155-157 | Only the error changes, to none. |
| AuthViewModel.LogoutIsFreshStart | app/src/main/java/br/com/fiap/wtcconnect/viewmodel/AuthViewModel.kt:26-42 | Logging out from any state gives the startup state with no backend user. |
| AuthViewModel.ClearErrorUndoesRejectedLogin | app/src/main/java/br/com/fiap/wtcconnect/viewmodel/AuthViewModel.kt:44-50 | Clearing the error after a login rejected for empty fields restores the earlier error-free state. Clearing is idempotent. |
| AuthViewModel.LoginErrorTranslated | app/src/main/java/br/com/fiap/wtcconnect/viewmodel/AuthViewModel.kt:67-77 | A login failure whose message contains a key of the table as written, and none of the earlier keys, shows that key's translation. |
| AuthViewModel.IntendedLoginErrorTranslated | app/src/test/java/br/com/fiap/wtcconnect/viewmodel/AuthViewModelTest.kt:121-147 | With the intended table, a message containing a key, and none of the earlier keys, is shown as that key's translation. |
| AuthViewModel.RegisterErrorTranslated | app/src/main/java/br/com/fiap/wtcconnect/viewmodel/AuthViewModel.kt:138-146 | A registration error containing a registration key, and none of the earlier ones, is shown as that key's translation. |
| AuthViewModel.RegisterRejectionOnlySetsError | app/src/main/java/br/com/fiap/wtcconnect/viewmodel/AuthViewModel.kt:93-121 | A registration rejected by local validation changes nothing but the error: clearing it gives the earlier state with its error cleared. |
| AuthViewModel.RegisterValidImpliesLoginSubmitted | app/src/main/java/br/com/fiap/wtcconnect/viewmodel/AuthViewModel.kt:44-52 | Fields that pass registration's checks also pass login's empty-field check. |
| AuthViewModel.BadlyFormattedShownRaw | app/src/main/java/br/com/fiap/wtcconnect/viewmodel/AuthViewModel.kt:67-79 | As written, the backend's "The email address is badly formatted." matches no login key and is shown raw. |
| AuthViewModel.BadEmailTranslated | app/src/test/java/br/com/fiap/wtcconnect/viewmodel/AuthViewModelTest.kt:121-147 | With the intended login table, any message containing "email address is malformed" or "badly formatted", in any letter case, is shown as "Formato de e-mail inválido". |
| AuthViewModel.BadlyFormattedTranslated | app/src/test/java/br/com/fiap/wtcconnect/viewmodel/AuthViewModelTest.kt:121-147 | With the intended login table, the backend's "The email address is badly formatted." is shown as "Formato de e-mail inválido", as the unit test expects. |
| AuthViewModel.LoginBadlyFormattedGap | app/src/main/java/br/com/fiap/wtcconnect/viewmodel/AuthViewModel.kt:66-79 | On any state and non-empty fields, a login failing with "The email address is badly formatted." shows that message raw, while the intended login shows "Formato de e-mail inválido". |
| ChatScreen.TargetGroupId | app/src/main/java/br/com/fiap/wtcconnect/screens/ChatScreen.kt:56 | The group is the peer id without "group:". When that leaves nothing, it is the conversation id without "group_". |
| ChatScreen.Authorize | app/src/main/java/br/com/fiap/wtcconnect/screens/ChatScreen.kt:53-82 | The rule the screen applies once the lookup has delivered its value. Group chat: allowed exactly for an operator, or for a signed-in user whose looked-up group is the target; denied with the group message. One-to-one chat: denied exactly for a signed-in client whose or whose peer's group is unknown or differs, with the peer message. |
| ChatScreen.RepoLookup | app/src/main/java/br/com/fiap/wtcconnect/data/FakeChatRepository.kt:222-226 | The value the in-memory repository's lookup delivers: the recorded group when there is one, else "g0"; never "no group". |
| ChatScreen.AuthorizeInMemory | app/src/main/java/br/com/fiap/wtcconnect/screens/ChatScreen.kt:53-82 | The check as written with the in-memory repository, whose lookup flow never completes: refused exactly for a signed-out non-operator in a group chat, with the group message; every other case stays authorized. |
| ChatScreen.InMemoryGroupChatGap | app/src/main/java/br/com/fiap/wtcconnect/screens/ChatScreen.kt:58-66 | On the seeded store, user "me" (a client, in "g0") opening "group_g1"/"group:g1" is let in as written but refused by the intended rule. |
| ChatScreen.InMemoryDirectChatGap | app/src/main/java/br/com/fiap/wtcconnect/screens/ChatScreen.kt:69-79 | Whenever a client and the peer resolve to different groups, the one-to-one chat is let in as written but refused by the intended rule. |
| ChatScreen.SignedOutChecksAgree | app/src/main/java/br/com/fiap/wtcconnect/screens/ChatScreen.kt:58-66 | For a signed-out user the check as written and the intended rule give the same decision, whatever the lookup. |
| ChatScreen.RunCheck | app/src/main/java/br/com/fiap/wtcconnect/screens/ChatScreen.kt:50-82 | A run keeps the screen authorized only if the decision allows it. A refusal records its reason, and an allowed run changes nothing. |
| ChatScreen.RunChecks | app/src/main/java/br/com/fiap/wtcconnect/screens/ChatScreen.kt:50-82 | After several runs the screen is authorized exactly when it started so and every run allowed. Any refusal leaves an error message. |
| ChatScreen.RefusalIsPermanent | app/src/main/java/br/com/fiap/wtcconnect/screens/ChatScreen.kt:50-82 | Once refused, no later run re-authorizes the screen. |
| ChatScreen.EffectiveUserId | app/src/main/java/br/com/fiap/wtcconnect/screens/ChatScreen.kt:41 | The signed-in user's id, else "me". |
| ChatScreen.IsMine | app/src/main/java/br/com/fiap/wtcconnect/screens/ChatScreen.kt:177 | A message is drawn as the user's own exactly when its sender is the signed-in user, or "me" when signed out. |
| ChatScreen.SentMessageIsMine | app/src/main/java/br/com/fiap/wtcconnect/screens/ChatScreen.kt:177 | A message sent from the screen becomes the conversation's last message and is drawn as the user's own. |
| ChatScreen.RepoGroupChatAccess | app/src/main/java/br/com/fiap/wtcconnect/screens/ChatScreen.kt:55-66 | The rule the screen applies once the lookup completes: with the in-memory repository's value, a non-operator enters a group chat exactly when the fallback lookup names the target group. |
| ChatScreen.RepoDirectChatAccess | app/src/main/java/br/com/fiap/wtcconnect/screens/ChatScreen.kt:67-80 | The rule the screen applies once the lookup completes: with the in-memory repository's value, a client enters a one-to-one chat exactly when both parties resolve to the same group. |
| ChatScreen.SignedOutClientDeniedGroupChat | app/src/main/java/br/com/fiap/wtcconnect/screens/ChatScreen.kt:58-65 | A signed-out non-operator is always refused a group chat, with the group message. |
| MainScreen.RoutesAreDistinct | app/src/main/java/br/com/fiap/wtcconnect/screens/MainScreen.kt:35-41 | No two tabs share a route. |
| MainScreen.BottomNavItems | app/src/main/java/br/com/fiap/wtcconnect/screens/MainScreen.kt:52-62 | Always four items: chat, campaigns, then clients exactly for an operator or groups exactly for a client, then profile. |
| MainScreen.BottomNavRoutesDistinct | app/src/main/java/br/com/fiap/wtcconnect/screens/MainScreen.kt:52-62 | The bar's four routes are pairwise distinct. |
| MainScreen.GroupChatArgs | app/src/main/java/br/com/fiap/wtcconnect/screens/MainScreen.kt:132-134 | The route opens the chat with a conversation id starting "group_" and a peer id starting "group:", each of which gives back the group id when its prefix is removed. |
| MainScreen.GroupRouteRoundTrip | app/src/main/java/br/com/fiap/wtcconnect/screens/MainScreen.kt:132-134 | The arguments the group-chat route passes are seen as a group chat and decode back to the same group id, for every id including the empty one. |
| MainScreen.GroupRouteAccess | app/src/main/java/br/com/fiap/wtcconnect/screens/MainScreen.kt:132-134 | The rule the screen applies once the lookup completes: through the group-chat route, a non-operator enters exactly when their group, after the fallback, is the route's group. |
| MainScreen.SharedRepoUserId | app/src/main/java/br/com/fiap/wtcconnect/screens/MainScreen.kt:115-117 | The shared repository is built for the signed-in user's id, else "me". |
| MainScreen.SharedRepo | app/src/main/java/br/com/fiap/wtcconnect/screens/MainScreen.kt:115-117 | The shared repository has the seed groups and a user with the id it was built for, reported in "g0". |
| MainScreen.SharedRepoAdmitsUserToDefaultGroup | app/src/main/java/br/com/fiap/wtcconnect/screens/MainScreen.kt:115-134 | The chat screen gets the signed-in id as is. With the shared repository the intended rule admits a user to the "g0" chat exactly when they are signed in or are an operator. |
| MainScreen.RemovedClientStillOpensDefaultGroupChat | app/src/main/java/br/com/fiap/wtcconnect/data/FakeChatRepository.kt:222-226 | A client removed from "g0" can still open the "g0" chat, because the lookup falls back to "g0". |
| ChangePasswordScreen.HasUpperCase | app/src/main/java/br/com/fiap/wtcconnect/screens/ChangePasswordScreen.kt:43 | Holds exactly when some character of the new password is upper case. |
| ChangePasswordScreen.HasLowerCase | app/src/main/java/br/com/fiap/wtcconnect/screens/ChangePasswordScreen.kt:44 | Holds exactly when some character of the new password is lower case. |
| ChangePasswordScreen.HasNumber | app/src/main/java/br/com/fiap/wtcconnect/screens/ChangePasswordScreen.kt:45 | Holds exactly when some character of the new password is a digit. |
| ChangePasswordScreen.PasswordsMatch | app/src/main/java/br/com/fiap/wtcconnect/screens/ChangePasswordScreen.kt:46 | Holds exactly when the confirmation equals the new password and is non-empty; two empty fields do not match. |
| ChangePasswordScreen.IsFormValid | app/src/main/java/br/com/fiap/wtcconnect/screens/ChangePasswordScreen.kt:47-48 | Holds exactly when the current password is non-empty and all five requirements hold. It implies a new password of at least 8 that equals the confirmation. |
| ChangePasswordScreen.ValidFormDisplay | app/src/main/java/br/com/fiap/wtcconnect/screens/ChangePasswordScreen.kt:169-185 | A valid form shows the requirements and no mismatch error. The mismatch error shows exactly when a non-empty confirmation differs. |
| ProfileScreen.UserName | app/src/main/java/br/com/fiap/wtcconnect/screens/profile/ProfileScreen.kt:49-51 | With no email, "Usuário". Otherwise the text before the first '@', its first character upper-cased when it is a lower-case letter and the rest unchanged. |
| Seqs.FilterCounts | app/src/main/java/br/com/fiap/wtcconnect/data/FakeChatRepository.kt:184 | `filter` keeps every occurrence of a matching element and drops every other: duplicates of a match are all kept, so with the order-preserving subsequence property the result is exactly the matches in order. |
| Text.SubstringBeforeOfAddress | app/src/main/java/br/com/fiap/wtcconnect/screens/profile/ProfileScreen.kt:50 | The text before '@' of local + "@" + domain is the local part, when the local part has no '@'. |
| ProfileScreen.UserNameOfAddress | app/src/main/java/br/com/fiap/wtcconnect/screens/profile/ProfileScreen.kt:49-51 | An address whose local part has no '@' and does not start lower case shows the local part unchanged. |
| ProfileScreen.ValidateDialog | app/src/main/java/br/com/fiap/wtcconnect/screens/profile/ProfileScreen.kt:580-594 | The handler is called exactly when the passwords match, the new one is at least 6 long and the current one is not blank. A mismatch is reported first, then a short new password, then a blank current password. |
| ProfileScreen.OnConfirm | app/src/main/java/br/com/fiap/wtcconnect/screens/profile/ProfileScreen.kt:347-360 | Stops with its message exactly when there is no email or the new password is shorter than 6. Otherwise loading starts and both messages clear. |
| ProfileScreen.OnReauthFailed | app/src/main/java/br/com/fiap/wtcconnect/screens/profile/ProfileScreen.kt:379-388 | Loading ends and the reauth error is translated; the dialog and the success message are kept. |
| ProfileScreen.OnUpdateDone | app/src/main/java/br/com/fiap/wtcconnect/screens/profile/ProfileScreen.kt:366-378 | On success the dialog closes with the success message and no error. On failure it stays open with the error, or "Erro ao atualizar a senha", and no success message. |
| ProfileScreen.Dismiss | app/src/main/java/br/com/fiap/wtcconnect/screens/profile/ProfileScreen.kt:342-346 | The dialog closes and both messages clear. |
| ProfileScreen.SubmitChange | app/src/main/java/br/com/fiap/wtcconnect/screens/profile/ProfileScreen.kt:347-390 | A dialog error leaves the screen state as it was. A missing email sets only the not-signed-in error. Otherwise loading ends, a reauth failure shows its translation, and a reauth success leads to the update's outcome. |
| ProfileScreen.DialogAcceptedHandlerStarts | app/src/main/java/br/com/fiap/wtcconnect/screens/profile/ProfileScreen.kt:349-357 | After the dialog accepts, the handler stops only for a missing email, never for length. |
| ProfileScreen.SuccessfulChangeCloses | app/src/main/java/br/com/fiap/wtcconnect/screens/profile/ProfileScreen.kt:363-373 | A valid change the backend accepts closes the dialog showing "Senha atualizada com sucesso". |
| ProfileScreen.WrongPasswordTranslated | app/src/main/java/br/com/fiap/wtcconnect/screens/profile/ProfileScreen.kt:382-384 | A reauth failure mentioning either wrong-password phrase, in any letter case, shows "Senha atual incorreta". |
| ProfileScreen.EditSaveEnabled | app/src/main/java/br/com/fiap/wtcconnect/screens/profile/ProfileScreen.kt:496 | Enabled exactly when the trimmed name is non-empty. |
| ClientsScreen.Filtered | app/src/main/java/br/com/fiap/wtcconnect/screens/ClientsScreen.kt:60-68 | Exactly the mock clients matching the name query ignoring case, the selected statuses, every selected tag and the minimum score. |
| ClientsScreen.FilteredKeepsOrder | app/src/main/java/br/com/fiap/wtcconnect/screens/ClientsScreen.kt:61 | The filtered list is an order-preserving subsequence of the mock clients. |
| ClientsScreen.NoFilterListsAll | app/src/main/java/br/com/fiap/wtcconnect/screens/ClientsScreen.kt:60-68 | With an empty query, no chips and minimum 0, every mock client is listed. |
| ClientsScreen.AddingTagNarrows | app/src/main/java/br/com/fiap/wtcconnect/screens/ClientsScreen.kt:64 | Selecting one more tag gives a subsequence of the previous result. |
| ClientsScreen.Toggle | app/src/main/java/br/com/fiap/wtcconnect/screens/ClientsScreen.kt:110-112 | The clicked value's membership flips; no other value changes. |
| ClientsScreen.ToggleTwice | app/src/main/java/br/com/fiap/wtcconnect/screens/ClientsScreen.kt:132-134 | Two clicks on one chip restore the selection. |
| ClientsScreen.NoteCount | app/src/main/java/br/com/fiap/wtcconnect/screens/ClientsScreen.kt:155 | The number of notes stored for the client, 0 when none are. |
| ClientsScreen.SaveNote | app/src/main/java/br/com/fiap/wtcconnect/screens/ClientsScreen.kt:183-190 | The dialog always closes with an empty field. A non-blank text is appended, trimmed, to the open client's notes only; otherwise the notes are unchanged. |
| ClientsScreen.CancelNote | app/src/main/java/br/com/fiap/wtcconnect/screens/ClientsScreen.kt:194 | Cancelling closes the dialog, drops the text and keeps the notes. |
| ClientsScreen.SavedNoteCounts | app/src/main/java/br/com/fiap/wtcconnect/screens/ClientsScreen.kt:183-190 | Saving a non-blank note raises that client's count by one, and the stored note is the non-empty trimmed text. |
| ConversationListViewModel.OnConversations | app/src/main/java/br/com/fiap/wtcconnect/presentation/ConversationListViewModel.kt:31-33 | A delivered list replaces the shown one, ends loading, clears the error and keeps the query. |
| ConversationListViewModel.OnLoadError | app/src/main/java/br/com/fiap/wtcconnect/presentation/ConversationListViewModel.kt:34-36 | Loading ends with the failure's message, or "Erro ao carregar" when it has none; the list and query are kept. |
| ConversationListViewModel.Collect | app/src/main/java/br/com/fiap/wtcconnect/presentation/ConversationListViewModel.kt:29-37 | The emitted lists are delivered in order, and the last one is shown; a failure, caught once, ends the collection with its message or "Erro ao carregar" over the last list. The query is kept. |
| ConversationListViewModel.LoadErrorKeepsListing | app/src/main/java/br/com/fiap/wtcconnect/presentation/ConversationListViewModel.kt:34-36 | A failure never changes which conversations are listed. |
| ConversationListViewModel.FailureKeepsCollectedListing | app/src/main/java/br/com/fiap/wtcconnect/presentation/ConversationListViewModel.kt:29-37 | A collection that ends in a failure lists the same conversations as one that delivered the same lists and ended without a failure. |
| ConversationListViewModel.OnQueryChanged | app/src/main/java/br/com/fiap/wtcconnect/presentation/ConversationListViewModel.kt:41-43 | Only the query changes. |
| ConversationListViewModel.NormalizedQuery | app/src/main/java/br/com/fiap/wtcconnect/presentation/ConversationListViewModel.kt:48 | The normalized query is empty exactly when the query is blank. |
| ConversationListViewModel.FilteredList | app/src/main/java/br/com/fiap/wtcconnect/presentation/ConversationListViewModel.kt:47-51 | A blank query gives all conversations. Otherwise exactly those whose lower-cased peer name contains the trimmed, lower-cased query. |
| ConversationListViewModel.FilteredKeepsOrder | app/src/main/java/br/com/fiap/wtcconnect/presentation/ConversationListViewModel.kt:50 | The filtered list is an order-preserving subsequence of the conversations. |
| ConversationListViewModel.FilteredListIdempotent | app/src/main/java/br/com/fiap/wtcconnect/presentation/ConversationListViewModel.kt:47-51 | Filtering an already filtered list changes nothing. |
| ConversationListViewModel.FullPeerNameFindsConversation | app/src/main/java/br/com/fiap/wtcconnect/presentation/ConversationListViewModel.kt:48-50 | Typing a peer's whole name, in any letter case and padded with whitespace, lists that conversation. |
| ConversationListViewModel.QueryAndDeliveryCommute | app/src/main/java/br/com/fiap/wtcconnect/presentation/ConversationListViewModel.kt:31-43 | Delivering a list and changing the query commute, and the filtered list depends only on the list and the query. |
| GroupsScreen.DefaultGroup | app/src/main/java/br/com/fiap/wtcconnect/screens/groups/GroupsScreen.kt:58 | The first group with id "g0" when there is one. Otherwise the first group named "WTC Connect", none exactly when no group has that name. |
| GroupsScreen.DefaultGroupStableUnderAppend | app/src/main/java/br/com/fiap/wtcconnect/screens/groups/GroupsScreen.kt:58 | Once the list has a group with id "g0", groups appended after it never change the default group. |
| GroupsScreen.MyGroupId | app/src/main/java/br/com/fiap/wtcconnect/screens/groups/GroupsScreen.kt:45-55 | None when signed out, otherwise the repository's answer for the user. |
| GroupsScreen.EffectiveGroupId | app/src/main/java/br/com/fiap/wtcconnect/screens/groups/GroupsScreen.kt:59 | The user's group when known, else the default group's id. None exactly when both are missing. |
| GroupsScreen.LoggedMembers | app/src/main/java/br/com/fiap/wtcconnect/screens/groups/GroupsScreen.kt:165 | Exactly the members with an email. |
| GroupsScreen.LoggedMembersKeepOrder | app/src/main/java/br/com/fiap/wtcconnect/screens/groups/GroupsScreen.kt:165 | The shown members keep the member list's order. |
| GroupsScreen.Initials | app/src/main/java/br/com/fiap/wtcconnect/screens/groups/GroupsScreen.kt:174 | One character: the name's first, else the email's first, else "U". |
| GroupsScreen.InitialsOfCreatedUser | app/src/main/java/br/com/fiap/wtcconnect/screens/groups/GroupsScreen.kt:174 | A user created from an email shows the email's first character, upper-cased when a lower-case letter (a leading '.' shows as a space). |
| GroupsScreen.SubmitAddByEmail | app/src/main/java/br/com/fiap/wtcconnect/screens/groups/GroupsScreen.kt:262-285 | With no managed group, or a blank email, the store is untouched and the matching snackbar shows. Otherwise the trimmed email is added to the group. Success clears the field; failure keeps it and shows the error. |
| GroupsScreen.SeedDefaultGroup | app/src/main/java/br/com/fiap/wtcconnect/screens/groups/GroupsScreen.kt:58 | With the seeded groups the default group is "g0", "WTC Connect". |
| GroupsScreen.EffectiveGroupWithRepo | app/src/main/java/br/com/fiap/wtcconnect/screens/groups/GroupsScreen.kt:45-59 | With the in-memory repository a signed-in user is shown their fallback group. A signed-out user is shown "g0" with the seeded groups. |
| GroupsScreen.AddByEmailStoresTrimmed | app/src/main/java/br/com/fiap/wtcconnect/screens/groups/GroupsScreen.kt:268-285 | Adding an unknown padded email appends a user with the trimmed email, whom a fresh member query of the group lists among the logged members, and clears the field. |

## Left out

- Unicode character classes: `isUpperCase`, `isLowerCase`, `isDigit`, `isWhitespace`, `lowercase` and `titlecase` are modelled on ASCII letters and digits. The whitespace set is ASCII plus a few code points. Non-ASCII letters, digits and spaces are treated as other characters.
- String lengths count code points, not UTF-16 units.
- Android's `Patterns.EMAIL_ADDRESS` is the parameter `isEmail`, not a regular expression.
- The Firebase backend (sign-in, sign-up, reauthentication, password update, current user) is not modelled. Its answers are inputs.
- UUIDs and `System.currentTimeMillis()` are the parameters `freshId` and `now`. All seed timestamps use one `now`, offset as in the source.
- Flows, coroutines and Compose recomposition are not modelled. A value read with `collectAsState` or inside `produceState` is one function application, and the initial `null` before the first emission is not modelled. The chat screen's `collect` calls, which never return on the in-memory repository, are handled under "## Findings".
- The `getOrPut` in `getMessages` creates an empty list for an unknown conversation. The model reads an unknown conversation as empty, which is indistinguishable.
- The chat screen never resets its authorization state when its inputs change. This is modelled faithfully: `RunChecks` applies a series of runs of the intended rule.
- GroupsScreen's remove button and its snackbars, the `isProcessing` flag, and the exception path of `addUserToGroupByEmail` are not modelled. The in-memory repository never throws.
- The conversation list never recovers after a failure: the `catch` wraps `collectLatest`, so the first failure ends the only collection and no list is delivered afterwards. `Collect` models this, and nothing restarts it.
- The member lists on the groups screen are one-shot snapshots: `getGroupMembers` returns a new `MutableStateFlow` of the current members, and the `produceState` calls are keyed on the group id alone, so a user just added appears only when the list is fetched again. The model states what a fresh member query returns.
- ClientsScreen's slider is a `Float`. `minScore` is the integer it truncates to.
- The peer name lookup on the chat screen and all drawing code are left out.
- `NotificationScreen`, `CampaignsScreen`, `HelpScreen`, `conversas.kt` and the Firestore-backed repositories are not part of this model.

## Findings

| source | as written | input that shows it | evidently intended | confidence | as-written member | corrected member |
|---|---|---|---|---|---|---|
| app/src/main/java/br/com/fiap/wtcconnect/screens/ChatScreen.kt:58-79 | The group lookups are read with `collect` on the in-memory repository's `StateFlow`, which never completes, so the comparison after it never runs for a signed-in user and the screen stays authorized | conversation "group_g1", peer "group:g1", user "me" as a client, seeded store: the chat opens, though "me" is in "g0" | read the lookup's current value, then apply the comparison | high, not executed | ChatScreen.InMemoryGroupChatGap | ChatScreen.RepoGroupChatAccess |
| app/src/main/java/br/com/fiap/wtcconnect/viewmodel/AuthViewModel.kt:67-69 | The only bad-address key is "email address is malformed" | backend message "The email address is badly formatted." is shown raw | show "Formato de e-mail inválido", as app/src/test/java/br/com/fiap/wtcconnect/viewmodel/AuthViewModelTest.kt:121-147 expects | medium, not executed | AuthViewModel.LoginBadlyFormattedGap | AuthViewModel.LoginIntended |
