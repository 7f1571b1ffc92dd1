/** What each intent does to the machine, and what every run of intents keeps. */
module Properties {
  import opened Wrappers
  import opened Model
  import opened Text
  import opened Effects
  import opened ViewStates
  import opened Reducer
  import I = Intents
  import Lists

  /** `UpdateName(n)` sets the name and its flag and nothing else, and sends nothing. */
  lemma UpdateNameTouchesOnlyName(m: Machine, n: string, isEmailAddress: string -> bool, w: World)
    ensures var r := Step(m, I.UpdateName(n), isEmailAddress, w);
      && r.state.name == n
      && (r.state.nameError <==> forall i | 0 <= i < |n| :: IsWhitespace(n[i]))
      && AgreeExcept(m.state, r.state, {NameText, NameFlag})
      && r.store == m.store && r.undo == m.undo && r.effects == m.effects
  {}

  /** `UpdateEmail(e)` sets the email and its flag and nothing else, and sends nothing. */
  lemma UpdateEmailTouchesOnlyEmail(m: Machine, e: string, isEmailAddress: string -> bool, w: World)
    ensures var r := Step(m, I.UpdateEmail(e), isEmailAddress, w);
      && r.state.email == e
      && (r.state.emailError <==> IsBlank(e) || !isEmailAddress(e))
      && AgreeExcept(m.state, r.state, {EmailText, EmailFlag})
      && r.store == m.store && r.undo == m.undo && r.effects == m.effects
  {}

  /**
   * `AddUser` with a blank name or a bad email only raises the flags and
   * sends the one message that names what failed.
   */
  lemma AddUserRejectsInvalidInput(m: Machine, name: string, email: string, bitmap: Option<Bitmap>,
                                   isEmailAddress: string -> bool, w: World)
    requires NameError(name) || EmailError(email, isEmailAddress)
    ensures var r := Step(m, I.AddUser(name, email, bitmap), isEmailAddress, w);
      && r.state.nameError == NameError(name)
      && r.state.emailError == EmailError(email, isEmailAddress)
      && AgreeExcept(m.state, r.state, {NameFlag, EmailFlag})
      && r.state.users == m.state.users && r.state.name == m.state.name && r.state.email == m.state.email
      && r.store == m.store && r.undo == m.undo
      && (NameError(name) && EmailError(email, isEmailAddress) ==>
            r.effects == m.effects + [Snackbar("Name and email are invalid.")])
      && (NameError(name) && !EmailError(email, isEmailAddress) ==>
            r.effects == m.effects + [Snackbar("Name cannot be empty.")])
      && (!NameError(name) && EmailError(email, isEmailAddress) ==>
            r.effects == m.effects + [Snackbar("Invalid email address.")])
  {}

  /** Valid input without an image changes nothing but sends the image reminder. */
  lemma AddUserWithoutImage(m: Machine, name: string, email: string, isEmailAddress: string -> bool, w: World)
    requires !NameError(name) && !EmailError(email, isEmailAddress)
    ensures var r := Step(m, I.AddUser(name, email, None), isEmailAddress, w);
      && r.state == m.state && r.store == m.store && r.undo == m.undo
      && r.effects == m.effects + [Snackbar("Please select or capture an image!")]
  {}

  /**
   * A successful add appends the new user to the repository, shows the whole
   * repository, resets the form and the selected image, and reports success.
   */
  lemma AddUserSucceeds(m: Machine, name: string, email: string, bitmap: Bitmap,
                        isEmailAddress: string -> bool, w: World)
    requires !NameError(name) && !EmailError(email, isEmailAddress)
    requires w.fault == None
    ensures var r := Step(m, I.AddUser(name, email, Some(bitmap)), isEmailAddress, w);
      && |r.store| == |m.store| + 1 && r.store[..|m.store|] == m.store
      && r.store[|m.store|] == User(w.newId, name, email, w.savedImage)
      && r.state.users == r.store
      && !r.state.isLoading && r.state.name == "" && r.state.email == ""
      && r.state.selectedImageUri == None && !r.state.nameError && !r.state.emailError
      && AgreeExcept(m.state, r.state, {Loading, UserList, NameText, EmailText, ImageUri, NameFlag, EmailFlag})
      && r.undo == m.undo
      && r.effects == m.effects + [Snackbar("User added successfully!")]
  {}

  /** A failing repository call during an add only ends the loading and reports the error. */
  lemma AddUserFails(m: Machine, name: string, email: string, bitmap: Bitmap,
                     isEmailAddress: string -> bool, w: World, message: string)
    requires !NameError(name) && !EmailError(email, isEmailAddress)
    requires w.fault == Some(message)
    ensures var r := Step(m, I.AddUser(name, email, Some(bitmap)), isEmailAddress, w);
      && !r.state.isLoading && AgreeExcept(m.state, r.state, {Loading})
      && r.store == m.store && r.undo == m.undo
      && r.effects == m.effects + [Snackbar("Error adding user: " + message)]
  {}

  /** Deleting always puts the user in the undo slot, whether or not the repository call succeeds. */
  lemma DeleteUserFillsUndoSlot(m: Machine, user: User, isEmailAddress: string -> bool, w: World)
    ensures var r := Step(m, I.DeleteUser(user), isEmailAddress, w);
      r.undo == Some(user) && r.state.recentlyDeletedUser == m.state.recentlyDeletedUser
  {}

  /** A successful delete shows the repository without the user and offers "Undo". */
  lemma DeleteUserSucceeds(m: Machine, user: User, isEmailAddress: string -> bool, w: World)
    requires w.fault == None
    ensures var r := Step(m, I.DeleteUser(user), isEmailAddress, w);
      && r.store == Lists.RemoveFirst(m.store, user)
      && r.state.users == r.store && !r.state.isLoading
      && AgreeExcept(m.state, r.state, {Loading, UserList})
      && r.effects == m.effects + [ShowSnackbar("User deleted", Some("Undo"))]
  {}

  /**
   * A successful delete cuts the first equal user out of the repository and
   * keeps the order of the others; without an equal user it changes nothing.
   */
  lemma {:induction false} DeleteUserRemovesFirstCopy(m: Machine, user: User, isEmailAddress: string -> bool, w: World)
    requires w.fault == None
    ensures var r := Step(m, I.DeleteUser(user), isEmailAddress, w);
      && (user in m.store ==>
            |r.store| == |m.store| - 1
            && r.store == m.store[..Lists.FirstIndex(m.store, user)] + m.store[Lists.FirstIndex(m.store, user) + 1..])
      && (user !in m.store ==> r.store == m.store)
      && multiset(r.store) == multiset(m.store) - multiset{user}
  {
    DeleteUserSucceeds(m, user, isEmailAddress, w);
    if user in m.store {
      Lists.RemoveFirstSplices(m.store, user);
    } else {
      Lists.RemoveFirstAbsent(m.store, user);
    }
    Lists.RemoveFirstMultiset(m.store, user);
  }

  /** A failing repository call during a delete leaves the store and the list shown as they were. */
  lemma DeleteUserFails(m: Machine, user: User, isEmailAddress: string -> bool, w: World, message: string)
    requires w.fault == Some(message)
    ensures var r := Step(m, I.DeleteUser(user), isEmailAddress, w);
      && !r.state.isLoading && AgreeExcept(m.state, r.state, {Loading})
      && r.store == m.store
      && r.effects == m.effects + [Snackbar("Error deleting user: " + message)]
  {}

  /** Two deletes in a row: only the second user is in the undo slot. */
  lemma LastDeleteWins(m: Machine, first: User, second: User, isEmailAddress: string -> bool, w1: World, w2: World)
    ensures Step(Step(m, I.DeleteUser(first), isEmailAddress, w1), I.DeleteUser(second), isEmailAddress, w2).undo
            == Some(second)
  {}

  /** With an empty undo slot, `UndoDelete` does nothing at all. */
  lemma UndoWithEmptySlot(m: Machine, isEmailAddress: string -> bool, w: World)
    requires m.undo == None
    ensures Step(m, I.UndoDelete, isEmailAddress, w) == m
  {}

  /**
   * `UndoDelete` never brings the user back: the add path it calls is given
   * no image, so it stops at validation or at the image check before the
   * repository. The slot is emptied and exactly one message is sent.
   */
  lemma UndoNeverReAdds(m: Machine, isEmailAddress: string -> bool, w: World)
    requires m.undo.Some?
    ensures var r := Step(m, I.UndoDelete, isEmailAddress, w);
      && r.store == m.store && r.state.users == m.state.users
      && r.undo == None
      && AgreeExcept(m.state, r.state, {NameFlag, EmailFlag})
      && var deleted := m.undo.value;
         var nameError := NameError(deleted.name);
         var emailError := EmailError(deleted.email, isEmailAddress);
         && r.state.nameError == (if nameError || emailError then nameError else m.state.nameError)
         && r.state.emailError == (if nameError || emailError then emailError else m.state.emailError)
         && r.effects == m.effects + [Snackbar(if nameError || emailError
                                               then InvalidInputMessage(nameError, emailError)
                                               else "Please select or capture an image!")]
  {}

  /**
   * Delete followed by undo loses one copy of the user from the repository
   * for good, and the list shown is the repository after the delete.
   */
  lemma {:induction false} DeleteThenUndoLosesUser(m: Machine, user: User, isEmailAddress: string -> bool,
                                                   w1: World, w2: World)
    requires w1.fault == None && user in m.store
    ensures var r := Step(Step(m, I.DeleteUser(user), isEmailAddress, w1), I.UndoDelete, isEmailAddress, w2);
      && multiset(r.store)[user] == multiset(m.store)[user] - 1
      && r.store == Lists.RemoveFirst(m.store, user) && r.state.users == r.store
      && r.undo == None
  {
    var d := Step(m, I.DeleteUser(user), isEmailAddress, w1);
    DeleteUserRemovesFirstCopy(m, user, isEmailAddress, w1);
    DeleteUserSucceeds(m, user, isEmailAddress, w1);
    UndoNeverReAdds(d, isEmailAddress, w2);
  }

  /** `ClearUsers` empties the repository and the list shown, whatever they held. */
  lemma ClearUsersEmpties(m: Machine, isEmailAddress: string -> bool, w: World)
    requires w.fault == None
    ensures var r := Step(m, I.ClearUsers, isEmailAddress, w);
      && r.store == [] && r.state.users == [] && !r.state.isLoading
      && AgreeExcept(m.state, r.state, {Loading, UserList})
      && r.undo == m.undo
      && r.effects == m.effects + [Snackbar("All users cleared!")]
  {}

  /** Clearing twice leaves the same state and store as clearing once. */
  lemma ClearTwiceIsClearOnce(m: Machine, isEmailAddress: string -> bool, w1: World, w2: World)
    requires w1.fault == None && w2.fault == None
    ensures var once := Step(m, I.ClearUsers, isEmailAddress, w1);
      var twice := Step(once, I.ClearUsers, isEmailAddress, w2);
      twice.state == once.state && twice.store == once.store && twice.undo == once.undo
  {}

  /** A failing repository call during a clear keeps the store and the list shown. */
  lemma ClearUsersFails(m: Machine, isEmailAddress: string -> bool, w: World, message: string)
    requires w.fault == Some(message)
    ensures var r := Step(m, I.ClearUsers, isEmailAddress, w);
      && !r.state.isLoading && AgreeExcept(m.state, r.state, {Loading})
      && r.store == m.store && r.undo == m.undo
      && r.effects == m.effects + [Snackbar("Error clearing users: " + message)]
  {}

  /** `LoadUsers` replaces the list shown by the repository's list, and nothing else. */
  lemma LoadUsersReplacesOnlyUsers(m: Machine, isEmailAddress: string -> bool, w: World)
    requires w.fault == None
    ensures var r := Step(m, I.LoadUsers, isEmailAddress, w);
      && r.state.users == m.store && AgreeExcept(m.state, r.state, {UserList})
      && r.store == m.store && r.undo == m.undo && r.effects == m.effects
  {}

  /**
   * `SearchUser(q)` records the query, replaces only the list shown, and
   * sends "No users found" exactly when nothing is left.
   */
  lemma SearchFilters(m: Machine, q: string, isEmailAddress: string -> bool, w: World)
    ensures var r := Step(m, I.SearchUser(q), isEmailAddress, w);
      && r.state.searchQuery == q
      && r.state.users == Lists.Filter(m.state.users, Matcher(q))
      && AgreeExcept(m.state, r.state, {Query, UserList})
      && r.store == m.store && r.undo == m.undo
      && r.effects == m.effects + if r.state.users == [] then [Snackbar("No users found")] else []
  {}

  /** The search result keeps the shown users it keeps in their order. */
  lemma {:induction false} SearchKeepsOrder(users: seq<User>, q: string)
    ensures Lists.IsSubsequence(Lists.Filter(users, Matcher(q)), users)
  {
    Lists.FilterIsSubsequence(users, Matcher(q));
  }

  /**
   * The search result holds every copy of each shown user whose name or
   * email contains the query ignoring case, and no other user.
   */
  lemma {:induction false} SearchKeepsExactlyMatches(users: seq<User>, q: string, u: User)
    ensures multiset(Lists.Filter(users, Matcher(q)))[u] == if Matches(u, q) then multiset(users)[u] else 0
  {
    Lists.FilterCounts(users, Matcher(q), u);
  }

  /** The search result is empty exactly when no shown user matches. */
  lemma {:induction false} SearchEmptyIffNoMatch(users: seq<User>, q: string)
    ensures Lists.Filter(users, Matcher(q)) == [] <==> forall i | 0 <= i < |users| :: !Matches(users[i], q)
  {
    var filtered := Lists.Filter(users, Matcher(q));
    if filtered != [] {
      assert filtered[0] in filtered;
    }
  }

  /** The empty query keeps every user shown. */
  lemma {:induction false} EmptySearchKeepsAll(m: Machine, isEmailAddress: string -> bool, w: World)
    ensures Step(m, I.SearchUser(""), isEmailAddress, w).state.users == m.state.users
  {
    forall i | 0 <= i < |m.state.users| ensures Matcher("")(m.state.users[i]) {
      EmptyIsContained(m.state.users[i].name);
    }
    Lists.FilterKeepsAll(m.state.users, Matcher(""));
  }

  /** Searching by a user's own name keeps that user shown. */
  lemma {:induction false} SearchByOwnNameKeepsUser(m: Machine, u: User, isEmailAddress: string -> bool, w: World)
    requires u in m.state.users
    ensures u in Step(m, I.SearchUser(u.name), isEmailAddress, w).state.users
  {
    ContainsItself(u.name);
  }

  /** Repeating a search changes nothing further in the state or the store. */
  lemma {:induction false} SearchTwiceIsSearchOnce(m: Machine, q: string, isEmailAddress: string -> bool,
                                                   w1: World, w2: World)
    ensures var once := Step(m, I.SearchUser(q), isEmailAddress, w1);
      var twice := Step(once, I.SearchUser(q), isEmailAddress, w2);
      twice.state == once.state && twice.store == once.store && twice.undo == once.undo
  {
    var filtered := Lists.Filter(m.state.users, Matcher(q));
    var once := Step(m, I.SearchUser(q), isEmailAddress, w1);
    assert once == SearchUsers(m, q);
    assert once.state == m.state.(searchQuery := q, users := filtered);
    Lists.FilterIdempotent(m.state.users, Matcher(q));
    assert Step(once, I.SearchUser(q), isEmailAddress, w2).state == once.state.(searchQuery := q, users := filtered);
  }

  /** A gallery pick stores the URI's text as the selected image and announces it. */
  lemma SelectImageStoresUri(m: Machine, uri: Uri, isEmailAddress: string -> bool, w: World)
    ensures var r := Step(m, I.SelectImageFromGallery(uri), isEmailAddress, w);
      && r.state.selectedImageUri == Some(uri.text) && AgreeExcept(m.state, r.state, {ImageUri})
      && r.store == m.store && r.undo == m.undo
      && r.effects == m.effects + [Snackbar("Image selected from gallery!")]
  {}

  /** A capture stores the saved path (absent if saving failed) and announces success either way. */
  lemma CaptureImageStoresSavedPath(m: Machine, bitmap: Bitmap, isEmailAddress: string -> bool, w: World)
    ensures var r := Step(m, I.CaptureImage(bitmap), isEmailAddress, w);
      && r.state.selectedImageUri == w.savedImage && AgreeExcept(m.state, r.state, {ImageUri})
      && r.store == m.store && r.undo == m.undo
      && r.effects == m.effects + [Snackbar("Image captured successfully!")]
  {}

  /** One intent keeps the invariant, never writes the state's own undo field, and sends at most one effect. */
  lemma StepKeepsInvariant(m: Machine, intent: I.UserIntent, isEmailAddress: string -> bool, w: World)
    ensures var r := Step(m, intent, isEmailAddress, w);
      && (Inv(m) ==> Inv(r))
      && r.state.recentlyDeletedUser == m.state.recentlyDeletedUser
      && r.effects[..|m.effects|] == m.effects && |r.effects| <= |m.effects| + 1
  {}

  /** Over any run: the invariant holds throughout and effects are only ever appended. */
  lemma {:induction false} RunKeepsInvariant(m: Machine, steps: seq<(I.UserIntent, World)>, isEmailAddress: string -> bool)
    ensures var r := Run(m, steps, isEmailAddress);
      && (Inv(m) ==> Inv(r))
      && r.state.recentlyDeletedUser == m.state.recentlyDeletedUser
      && |m.effects| <= |r.effects| <= |m.effects| + |steps|
      && r.effects[..|m.effects|] == m.effects
    decreases |steps|
  {
    if |steps| > 0 {
      var next := Step(m, steps[0].0, isEmailAddress, steps[0].1);
      var r := Run(next, steps[1..], isEmailAddress);
      assert Run(m, steps, isEmailAddress) == r;
      StepKeepsInvariant(m, steps[0].0, isEmailAddress, steps[0].1);
      RunKeepsInvariant(next, steps[1..], isEmailAddress);
      assert r.effects[..|m.effects|] == r.effects[..|next.effects|][..|m.effects|];
    }
  }

  /** A new view model, once its `init` block has loaded, shows the repository's users and is otherwise at its defaults. */
  lemma ConstructedViewModel(store: seq<User>, isEmailAddress: string -> bool, w: World)
    requires w.fault == None
    ensures var r := Step(Start(store), I.LoadUsers, isEmailAddress, w);
      && r.state == Initial().(users := store) && Inv(r)
      && r.store == store && r.undo == None && r.effects == []
  {}
}
