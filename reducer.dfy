/**
 * The view model's behaviour as a function of values: one step per intent.
 * Each `viewModelScope.launch` body runs to completion right after the
 * synchronous part of its handler, so an intent is one atomic step, and
 * effects sent to the channel are appended to a sequence in order.
 */
module Reducer {
  import opened Wrappers
  import opened Model
  import opened Text
  import opened Effects
  import opened ViewStates
  import Intents
  import Lists

  /** The range of `(0..1000).random()`: both ends included. */
  type RandomId = n: int | 0 <= n <= 1000

  /**
   * What the world outside answers during one intent: the id drawn at
   * random, the path `saveBitmapToFile` returns (absent on an I/O error),
   * and whether the repository call throws (`Some(message)`) before it
   * changes the store; for `UserRepositoryImpl` that is a cancellation
   * during its `delay`.
   */
  datatype World = World(newId: RandomId, savedImage: Option<string>, fault: Option<string>)

  /**
   * Everything one intent can change: the view state, the repository's
   * list, the private undo slot `recentlyDeletedUser`, and the effects
   * sent so far, oldest first.
   */
  datatype Machine = Machine(
    state: UserViewState,
    store: seq<User>,
    undo: Option<User>,
    effects: seq<SnackbarEffect>)

  /** A new view model over a repository holding `store`, before its `init` block. */
  function Start(store: seq<User>): Machine
  {
    Machine(Initial(), store, None, [])
  }

  /** The name check: `name.isBlank()`. */
  predicate NameError(name: string)
  {
    IsBlank(name)
  }

  /** The email check: blank, or not matched by the platform's email pattern. */
  predicate EmailError(email: string, isEmailAddress: string -> bool)
  {
    IsBlank(email) || !isEmailAddress(email)
  }

  /** The snackbar text for failed validation. */
  function InvalidInputMessage(nameError: bool, emailError: bool): string
  {
    if nameError && emailError then "Name and email are invalid."
    else if nameError then "Name cannot be empty."
    else if emailError then "Invalid email address."
    else ""
  }

  /** `validateAndAddUser`. */
  function ValidateAndAddUser(m: Machine, name: string, email: string, bitmap: Option<Bitmap>,
                              isEmailAddress: string -> bool, w: World): Machine
  {
    var nameError := NameError(name);
    var emailError := EmailError(email, isEmailAddress);
    if nameError || emailError then
      m.(state := m.state.(nameError := nameError, emailError := emailError),
         effects := m.effects + [Snackbar(InvalidInputMessage(nameError, emailError))])
    else if bitmap.None? then
      m.(effects := m.effects + [Snackbar("Please select or capture an image!")])
    else
      var loading := m.state.(isLoading := true);
      match w.fault
      case None =>
        var users := m.store + [User(w.newId, name, email, w.savedImage)];
        m.(state := loading.(isLoading := false, users := users, name := "", email := "",
                             selectedImageUri := None, nameError := false, emailError := false),
           store := users,
           effects := m.effects + [Snackbar("User added successfully!")])
      case Some(message) =>
        m.(state := loading.(isLoading := false),
           effects := m.effects + [Snackbar("Error adding user: " + message)])
  }

  /** `loadUsers`: the body has no handler, so a throwing call abandons it. */
  function LoadUsers(m: Machine, w: World): Machine
  {
    match w.fault
    case None => m.(state := m.state.(users := m.store))
    case Some(_) => m
  }

  /** `deleteUser`: the undo slot is written before the repository is called. */
  function DeleteUser(m: Machine, user: User, w: World): Machine
  {
    var loading := m.state.(isLoading := true);
    match w.fault
    case None =>
      var users := Lists.RemoveFirst(m.store, user);
      m.(state := loading.(isLoading := false, users := users),
         store := users,
         undo := Some(user),
         effects := m.effects + [ShowSnackbar("User deleted", Some("Undo"))])
    case Some(message) =>
      m.(state := loading.(isLoading := false),
         undo := Some(user),
         effects := m.effects + [Snackbar("Error deleting user: " + message)])
  }

  /** `undoDelete`: re-runs the add path with the deleted user's name and email and no image. */
  function UndoDelete(m: Machine, isEmailAddress: string -> bool, w: World): Machine
  {
    match m.undo
    case None => m
    case Some(deleted) =>
      ValidateAndAddUser(m, deleted.name, deleted.email, None, isEmailAddress, w).(undo := None)
  }

  /** `clearUsers`. */
  function ClearUsers(m: Machine, w: World): Machine
  {
    var loading := m.state.(isLoading := true);
    match w.fault
    case None =>
      m.(state := loading.(isLoading := false, users := []),
         store := [],
         effects := m.effects + [Snackbar("All users cleared!")])
    case Some(message) =>
      m.(state := loading.(isLoading := false),
         effects := m.effects + [Snackbar("Error clearing users: " + message)])
  }

  /** The search test: the name or the email contains the query, ignoring case. */
  predicate Matches(u: User, query: string)
  {
    ContainsIgnoreCase(u.name, query) || ContainsIgnoreCase(u.email, query)
  }

  /** The lambda given to `filter` in `searchUsers`. */
  function Matcher(query: string): User -> bool
  {
    u => Matches(u, query)
  }

  /** `searchUsers`: filters the users currently shown, not the repository. */
  function SearchUsers(m: Machine, query: string): Machine
  {
    var queried := m.state.(searchQuery := query);
    var filtered := Lists.Filter(queried.users, Matcher(query));
    m.(state := queried.(users := filtered),
       effects := m.effects + if |filtered| == 0 then [Snackbar("No users found")] else [])
  }

  /** `validateName`. */
  function ValidateName(m: Machine, name: string): Machine
  {
    m.(state := m.state.(name := name, nameError := NameError(name)))
  }

  /** `validateEmail`. */
  function ValidateEmail(m: Machine, email: string, isEmailAddress: string -> bool): Machine
  {
    m.(state := m.state.(email := email, emailError := EmailError(email, isEmailAddress)))
  }

  /** `selectImageFromGallery`. */
  function SelectImageFromGallery(m: Machine, uri: Uri): Machine
  {
    m.(state := m.state.(selectedImageUri := Some(uri.text)),
       effects := m.effects + [Snackbar("Image selected from gallery!")])
  }

  /** `captureImage`: the saved path, absent when saving failed; the message is sent either way. */
  function CaptureImage(m: Machine, w: World): Machine
  {
    m.(state := m.state.(selectedImageUri := w.savedImage),
       effects := m.effects + [Snackbar("Image captured successfully!")])
  }

  /** `handleIntent`: each intent goes to exactly one handler. */
  function Step(m: Machine, intent: Intents.UserIntent, isEmailAddress: string -> bool, w: World): Machine
  {
    match intent
    case LoadUsers => LoadUsers(m, w)
    case AddUser(name, email, bitmap) => ValidateAndAddUser(m, name, email, bitmap, isEmailAddress, w)
    case DeleteUser(user) => DeleteUser(m, user, w)
    case ClearUsers => ClearUsers(m, w)
    case SearchUser(query) => SearchUsers(m, query)
    case UpdateName(name) => ValidateName(m, name)
    case UpdateEmail(email) => ValidateEmail(m, email, isEmailAddress)
    case UndoDelete => UndoDelete(m, isEmailAddress, w)
    case SelectImageFromGallery(uri) => SelectImageFromGallery(m, uri)
    case CaptureImage(_) => CaptureImage(m, w)
  }

  /** A run of intents, each with the world's answers for it, one after the other. */
  function Run(m: Machine, steps: seq<(Intents.UserIntent, World)>, isEmailAddress: string -> bool): Machine
    decreases |steps|
  {
    if |steps| == 0 then m
    else Run(Step(m, steps[0].0, isEmailAddress, steps[0].1), steps[1..], isEmailAddress)
  }

  /**
   * What holds between intents: nothing is loading (every handler that sets
   * the flag clears it in the same step) and the view state's own
   * `recentlyDeletedUser` is still absent (the undo slot is a separate field).
   */
  predicate Inv(m: Machine)
  {
    !m.state.isLoading && m.state.recentlyDeletedUser == None
  }
}
