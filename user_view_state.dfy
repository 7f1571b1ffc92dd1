/** The snapshot of everything the screen renders. */
module ViewStates {
  import opened Wrappers
  import opened Model

  /**
   * The immutable view state. Kotlin's `copy(f = v)` is Dafny's update
   * expression `s.(f := v)`, which keeps every field not named.
   */
  datatype UserViewState = UserViewState(
    isLoading: bool,
    users: seq<User>,
    name: string,
    email: string,
    nameError: bool,
    emailError: bool,
    searchQuery: string,
    recentlyDeletedUser: Option<User>,
    selectedImageUri: Option<string>)

  /** `UserViewState()`: every field at its default value. */
  function Initial(): UserViewState
  {
    UserViewState(false, [], "", "", false, false, "", None, None)
  }

  lemma InitialIsIdle()
    ensures !Initial().isLoading && Initial().users == []
  {}

  lemma InitialFormIsEmpty()
    ensures Initial().name == "" && Initial().email == ""
    ensures !Initial().nameError && !Initial().emailError
  {}

  lemma InitialHasNoQueryUndoOrImage()
    ensures Initial().searchQuery == ""
    ensures Initial().recentlyDeletedUser == None
    ensures Initial().selectedImageUri == None
  {}

  /** Names for the fields of the view state, to say which of them a step touches. */
  datatype Field =
    | Loading | UserList | NameText | EmailText | NameFlag | EmailFlag
    | Query | DeletedUser | ImageUri

  /** `a` and `b` hold the same value in field `f`. */
  predicate Same(a: UserViewState, b: UserViewState, f: Field)
  {
    match f
    case Loading => a.isLoading == b.isLoading
    case UserList => a.users == b.users
    case NameText => a.name == b.name
    case EmailText => a.email == b.email
    case NameFlag => a.nameError == b.nameError
    case EmailFlag => a.emailError == b.emailError
    case Query => a.searchQuery == b.searchQuery
    case DeletedUser => a.recentlyDeletedUser == b.recentlyDeletedUser
    case ImageUri => a.selectedImageUri == b.selectedImageUri
  }

  /** `a` and `b` differ at most in the fields of `touched`. */
  ghost predicate AgreeExcept(a: UserViewState, b: UserViewState, touched: set<Field>)
  {
    forall f: Field :: f !in touched ==> Same(a, b, f)
  }

  /** A view state is nothing but its fields: agreeing on all of them is equality. */
  lemma AgreeEverywhereIsEqual(a: UserViewState, b: UserViewState)
    ensures AgreeExcept(a, b, {}) <==> a == b
  {
    if AgreeExcept(a, b, {}) {
      assert Same(a, b, Loading) && Same(a, b, UserList) && Same(a, b, NameText);
      assert Same(a, b, EmailText) && Same(a, b, NameFlag) && Same(a, b, EmailFlag);
      assert Same(a, b, Query) && Same(a, b, DeletedUser) && Same(a, b, ImageUri);
    }
  }
}
