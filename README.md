# MVI user list: the state machine behind the screen

This project models the non-UI core of a single-screen Android app that adds,
lists, deletes, restores ("undo"), searches and clears users in the
Model-View-Intent style. It has two parts:

- **The in-memory user store** `UserRepositoryImpl` (`user_repository.dfy`).
  It is a class whose `users` field the methods change in place: append,
  remove the first equal element, and clear. Every method returns the
  resulting list.
- **The view model** `UserListViewModel` (`user_list_view_model.dfy`).
  It is a class holding the current `UserViewState`, the effects sent so
  far, the private one-slot undo buffer `recentlyDeletedUser`, and its
  repository. `HandleIntent` dispatches each of the ten `UserIntent`
  variants to its handler.

Each handler is specified by a function of values in `reducer.dfy`.
`Reducer.Machine` holds the view state, the repository list, the undo slot
and the effects. Each class method ends with `Snapshot()` equal to that
function applied to the old snapshot. `properties.dfy` proves what each
intent does.

The view state, the intents and the snackbar effect are datatypes
(`user_view_state.dfy`, `user_intent.dfy`, `snackbar_effect.dfy`).
Kotlin's `copy(...)` is Dafny's update expression. `ViewStates.AgreeExcept`
says which fields a step may have touched. `user_intent.dfy` writes the
closed intent alphabet out as ten constructors. `AddUser` carries an
optional image; `CaptureImage` always carries one. `DeleteUser` carries
a user value, which is removed by structural equality.

The outside world is a parameter:
- the email pattern is `isEmailAddress: string -> bool`;
- `Reducer.World` carries one intent's random id (0 to 1000, both
  included), the path returned by the image save (absent on an I/O error),
  and whether the repository call throws before it changes the store.

Each `viewModelScope.launch` body runs to completion straight after the
synchronous part of its handler, so one intent is one atomic step.
`isLoading` is set and cleared inside that step. `Reducer.Inv` holds
between steps: nothing is loading, and the view state's own
`recentlyDeletedUser` is still at its default.

What the proofs expose:
- **Undo never undoes.** The code's undo path calls the add path with no
  image. That path always stops at validation or at the image check, before
  the repository is reached. So a deleted user is never restored
  (`Properties.UndoNeverReAdds`, `Properties.DeleteThenUndoLosesUser`).
  The design intent, that undo brings back the deleted user, is not what the
  code does. The model follows the code.
- **Search is destructive.** It filters the list currently shown, not the
  repository. Only `LoadUsers` or a successful add, delete or clear shows
  the repository list again.

## Model

| member | source | states |
|---|---|---|
| Text.EmptyIsContained | app/src/main/java/com/instant/mvi/view/UserListViewModel.kt:175 | every string contains the empty query, ignoring case |
| Text.ContainsItself | app/src/main/java/com/instant/mvi/view/UserListViewModel.kt:175 | every string contains itself |
| Text.ContainsIsCaseBlind | app/src/main/java/com/instant/mvi/view/UserListViewModel.kt:175 | two queries that differ only in the case of ASCII letters are contained in exactly the same strings |
| ViewStates.InitialIsIdle | app/src/main/java/com/instant/mvi/view/uimodel/UserViewState.kt:7-8 | the default state is not loading and has no users |
| ViewStates.InitialFormIsEmpty | app/src/main/java/com/instant/mvi/view/uimodel/UserViewState.kt:9-12 | the default form has empty name and email and both error flags false |
| ViewStates.InitialHasNoQueryUndoOrImage | app/src/main/java/com/instant/mvi/view/uimodel/UserViewState.kt:13-15 | the default state has an empty query, no recently deleted user and no selected image |
| ViewStates.AgreeEverywhereIsEqual | app/src/main/java/com/instant/mvi/view/uimodel/UserViewState.kt:6-16 | a view state is exactly its nine fields: two states that agree on every field are equal, so a copy that names no field changes nothing |
| Lists.Filter | app/src/main/java/com/instant/mvi/view/UserListViewModel.kt:174-176 | the filter result is no longer than the input, holds only elements of the input that pass, and holds every element that passes |
| Lists.FilterIsSubsequence | app/src/main/java/com/instant/mvi/view/UserListViewModel.kt:174-176 | filtering keeps the input order of what it keeps |
| Lists.FilterCounts | app/src/main/java/com/instant/mvi/view/UserListViewModel.kt:174-176 | filtering keeps every copy of a kept element and no copy of a dropped one |
| Lists.FilterKeepsAll | app/src/main/java/com/instant/mvi/view/UserListViewModel.kt:174-176 | when every element passes, the filter returns the input unchanged |
| Lists.FilterIdempotent | app/src/main/java/com/instant/mvi/view/UserListViewModel.kt:174-176 | filtering twice with the same test equals filtering once |
| Lists.FirstIndex | app/src/main/java/com/instant/mvi/repository/UserRepositoryImpl.kt:24 | the position found holds the element, and no earlier position does |
| Lists.RemoveFirst | app/src/main/java/com/instant/mvi/repository/UserRepositoryImpl.kt:24 | removal shortens the list by one exactly when the element is present |
| Lists.RemoveFirstAbsent | app/src/main/java/com/instant/mvi/repository/UserRepositoryImpl.kt:22-26 | removing an absent element leaves the list unchanged |
| Lists.RemoveFirstSplices | app/src/main/java/com/instant/mvi/repository/UserRepositoryImpl.kt:22-26 | removing a present element cuts out its first occurrence only; the parts before and after stay in order |
| Lists.RemoveFirstMultiset | app/src/main/java/com/instant/mvi/repository/UserRepositoryImpl.kt:22-26 | removal takes away one copy of the element when present and nothing else |
| Repository.UserRepositoryImpl.constructor | app/src/main/java/com/instant/mvi/repository/UserRepositoryImpl.kt:8-9 | a new store is empty |
| Repository.UserRepositoryImpl.GetUsers | app/src/main/java/com/instant/mvi/repository/UserRepositoryImpl.kt:11-14 | returns the stored list and changes nothing |
| Repository.UserRepositoryImpl.AddUser | app/src/main/java/com/instant/mvi/repository/UserRepositoryImpl.kt:16-20 | new contents are the old contents followed by the user; the old prefix is untouched; returns the new contents |
| Repository.UserRepositoryImpl.DeleteUser | app/src/main/java/com/instant/mvi/repository/UserRepositoryImpl.kt:22-26 | new contents are the old with the first equal user removed; one shorter when present, unchanged when absent; returns the new contents |
| Repository.UserRepositoryImpl.ClearUsers | app/src/main/java/com/instant/mvi/repository/UserRepositoryImpl.kt:28-32 | the store is empty afterwards whatever it held, so a second call changes nothing; returns the new contents |
| Properties.UpdateNameTouchesOnlyName | app/src/main/java/com/instant/mvi/view/UserListViewModel.kt:185-190 | `UpdateName(n)` sets the name to n and the name flag to "every character is whitespace"; no other field, no store or slot change, no effect |
| Properties.UpdateEmailTouchesOnlyEmail | app/src/main/java/com/instant/mvi/view/UserListViewModel.kt:199-204 | `UpdateEmail(e)` sets the email to e and the flag to "blank or not an email address"; nothing else changes and no effect is sent |
| Properties.AddUserRejectsInvalidInput | app/src/main/java/com/instant/mvi/view/UserListViewModel.kt:75-93 | with invalid input only the two flags change; users, name, email, store and slot stay; the one message names which check failed |
| Properties.AddUserWithoutImage | app/src/main/java/com/instant/mvi/view/UserListViewModel.kt:96-101 | valid input without an image changes no state and no store and sends only the image reminder |
| Properties.AddUserSucceeds | app/src/main/java/com/instant/mvi/view/UserListViewModel.kt:103-120 | a successful add appends the new user (given id, name, email, saved path) to the store and shows the whole store; not loading; the form, the image and the flags are reset; the query stays; one success message |
| Properties.AddUserFails | app/src/main/java/com/instant/mvi/view/UserListViewModel.kt:121-124 | a throwing repository call leaves the store and every field but the loading flag, and reports the error |
| Properties.DeleteUserFillsUndoSlot | app/src/main/java/com/instant/mvi/view/UserListViewModel.kt:135-138 | deleting always puts the user in the undo slot, even when the repository call fails; the state's own field is not written |
| Properties.DeleteUserSucceeds | app/src/main/java/com/instant/mvi/view/UserListViewModel.kt:139-142 | a successful delete shows the store with the first equal user removed; not loading; only loading and users change; sends ("User deleted", "Undo") |
| Properties.DeleteUserRemovesFirstCopy | app/src/main/java/com/instant/mvi/view/UserListViewModel.kt:140 | the store after a successful delete has the first equal user cut out and the rest in order, one shorter; unchanged when no user is equal; one copy fewer |
| Properties.DeleteUserFails | app/src/main/java/com/instant/mvi/view/UserListViewModel.kt:143-146 | a throwing repository call leaves the store and every field but the loading flag, and reports the error |
| Properties.LastDeleteWins | app/src/main/java/com/instant/mvi/view/UserListViewModel.kt:138 | after two deletes the undo slot holds the second user |
| Properties.UndoWithEmptySlot | app/src/main/java/com/instant/mvi/view/UserListViewModel.kt:150-151 | with an empty undo slot, undo changes nothing at all |
| Properties.UndoNeverReAdds | app/src/main/java/com/instant/mvi/view/UserListViewModel.kt:150-155 | with a held user, undo empties the slot and never changes the store or the users shown; only the two flags may change, and are set only when the held user fails validation; exactly one message is sent, without an action: the rejection message for the failed check, otherwise the image reminder |
| Properties.DeleteThenUndoLosesUser | app/src/main/java/com/instant/mvi/view/UserListViewModel.kt:135-155 | after a successful delete and then undo, the store has one copy fewer of the user and the slot is empty |
| Properties.ClearUsersEmpties | app/src/main/java/com/instant/mvi/view/UserListViewModel.kt:157-163 | a successful clear empties the store and the users shown; not loading; only those fields change; sends "All users cleared!" |
| Properties.ClearTwiceIsClearOnce | app/src/main/java/com/instant/mvi/view/UserListViewModel.kt:157-163 | clearing twice leaves the same state, store and slot as clearing once |
| Properties.ClearUsersFails | app/src/main/java/com/instant/mvi/view/UserListViewModel.kt:164-167 | a throwing repository call leaves the store, the undo slot and every field but the loading flag, and reports the error |
| Properties.LoadUsersReplacesOnlyUsers | app/src/main/java/com/instant/mvi/view/UserListViewModel.kt:128-133 | `LoadUsers` shows the store's list and touches no other field, the store, the slot or the effects |
| Properties.SearchFilters | app/src/main/java/com/instant/mvi/view/UserListViewModel.kt:171-182 | `SearchUser(q)` sets the query, replaces only the users shown by the filtered list, and sends "No users found" exactly when that list is empty |
| Properties.SearchKeepsOrder | app/src/main/java/com/instant/mvi/view/UserListViewModel.kt:174-176 | the search result keeps the users it keeps in their shown order |
| Properties.SearchKeepsExactlyMatches | app/src/main/java/com/instant/mvi/view/UserListViewModel.kt:174-176 | the search result holds every copy of each user whose name or email contains the query ignoring case, and no other user |
| Properties.SearchEmptyIffNoMatch | app/src/main/java/com/instant/mvi/view/UserListViewModel.kt:174-179 | the search result is empty exactly when no user shown matches |
| Properties.EmptySearchKeepsAll | app/src/main/java/com/instant/mvi/view/UserListViewModel.kt:171-177 | the empty query keeps every user shown |
| Properties.SearchByOwnNameKeepsUser | app/src/main/java/com/instant/mvi/view/UserListViewModel.kt:174-176 | searching by a shown user's own name keeps that user |
| Properties.SearchTwiceIsSearchOnce | app/src/main/java/com/instant/mvi/view/UserListViewModel.kt:171-177 | repeating a search leaves the state, store and slot as after the first |
| Properties.SelectImageStoresUri | app/src/main/java/com/instant/mvi/view/UserListViewModel.kt:217-221 | a gallery pick stores the URI text verbatim as the selected image, touches no other field, and announces it |
| Properties.CaptureImageStoresSavedPath | app/src/main/java/com/instant/mvi/view/UserListViewModel.kt:225-230 | a capture stores the saved path, absent if saving failed, touches no other field, and announces success either way |
| Properties.StepKeepsInvariant | app/src/main/java/com/instant/mvi/view/UserListViewModel.kt:47-60 | every intent keeps "not loading", never writes the state's own undo field, and sends at most one effect, appended after the earlier ones |
| Properties.RunKeepsInvariant | app/src/main/java/com/instant/mvi/view/UserListViewModel.kt:33-40 | over any run of intents these hold throughout, and the effects sent earlier stay as they were, in order |
| Properties.ConstructedViewModel | app/src/main/java/com/instant/mvi/view/UserListViewModel.kt:42-44 | a new view model, after its `init` load, shows the store's users, is otherwise at the defaults, and has sent nothing |
| ViewModel.UserListViewModel.constructor | app/src/main/java/com/instant/mvi/view/UserListViewModel.kt:28-44 | construction runs the `LoadUsers` step on the default state, leaving the invariant established |
| ViewModel.UserListViewModel.HandleIntent | app/src/main/java/com/instant/mvi/view/UserListViewModel.kt:47-60 | each of the ten intents moves the object to `Reducer.Step` of its old snapshot, keeping the invariant |
| ViewModel.UserListViewModel.ValidateAndAddUser | app/src/main/java/com/instant/mvi/view/UserListViewModel.kt:74-126 | the object ends in `Reducer.ValidateAndAddUser` of its old snapshot |
| ViewModel.UserListViewModel.LoadUsers | app/src/main/java/com/instant/mvi/view/UserListViewModel.kt:128-133 | the object ends in `Reducer.LoadUsers` of its old snapshot |
| ViewModel.UserListViewModel.DeleteUser | app/src/main/java/com/instant/mvi/view/UserListViewModel.kt:135-148 | the object ends in `Reducer.DeleteUser` of its old snapshot; the undo slot holds the user |
| ViewModel.UserListViewModel.UndoDelete | app/src/main/java/com/instant/mvi/view/UserListViewModel.kt:150-155 | the object ends in `Reducer.UndoDelete` of its old snapshot; store and users shown unchanged; slot empty |
| ViewModel.UserListViewModel.ClearUsers | app/src/main/java/com/instant/mvi/view/UserListViewModel.kt:157-169 | the object ends in `Reducer.ClearUsers` of its old snapshot |
| ViewModel.UserListViewModel.SearchUsers | app/src/main/java/com/instant/mvi/view/UserListViewModel.kt:171-182 | the object ends in `Reducer.SearchUsers` of its old snapshot |
| ViewModel.UserListViewModel.ValidateName | app/src/main/java/com/instant/mvi/view/UserListViewModel.kt:185-196 | the object ends in `Reducer.ValidateName` of its old snapshot |
| ViewModel.UserListViewModel.ValidateEmail | app/src/main/java/com/instant/mvi/view/UserListViewModel.kt:199-214 | the object ends in `Reducer.ValidateEmail` of its old snapshot |
| ViewModel.UserListViewModel.SelectImageFromGallery | app/src/main/java/com/instant/mvi/view/UserListViewModel.kt:217-222 | the object ends in `Reducer.SelectImageFromGallery` of its old snapshot |
| ViewModel.UserListViewModel.CaptureImage | app/src/main/java/com/instant/mvi/view/UserListViewModel.kt:225-231 | the object ends in `Reducer.CaptureImage` of its old snapshot |

## Left out

- Coroutine interleaving and the `delay` calls in the repository: each intent is one atomic step. Two asynchronous intents racing on the view state or on `isLoading` are not modelled.
- Effect channel delivery: the rendezvous channel and `receiveAsFlow` become an append-only sequence of effects. Consumption, suspension of the sender and dropped effects are not modelled.
- Image saving and loading (`saveBitmapToFile`, the bitmap encoding, the file name from the clock): the saved path is `World.savedImage`, absent on an I/O error.
- The platform email pattern: an uninterpreted parameter `isEmailAddress`.
- Random id generation: `World.newId` in 0 to 1000. Ids are not claimed unique, because the code does not make them so.
- Exceptions: `World.fault` stands for the repository call, or anything before it in the same body, throwing before the store changes. For `UserRepositoryImpl` that is a cancellation during `delay`. In `loadUsers` nothing catches it, so the step changes nothing; a crash from an uncaught non-cancellation exception is not modelled. The text of `e.message` is the fault's string.
- Aliasing: the repository returns its live backing list. Here it is a value; under atomic steps this cannot be observed.
- Text.IsWhitespace: a fixed table of Kotlin's JVM whitespace (ASCII controls 9-13 and 28-31, the space, and the Unicode space, line and paragraph separators) instead of the Unicode database.
- Text.SameIgnoringCase: ASCII letters only. Kotlin also folds other scripts' cases.
- The `UserRepository` interface: the view model is bound to `UserRepositoryImpl`. Other implementations' failures are covered only through `World.fault`.
- `validateInput`: a private function the view model never calls.
- The `User` type's own file is not part of this model. `User` is taken to be a data class with structural equality.
- The Compose UI, the Undo wiring of the snackbar, the button gating in the input form, and the dependency-injection module: rendering and wiring only, with no state of the core.
