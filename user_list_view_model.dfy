/** The view model object: the state holder behind the screen. */
module ViewModel {
  import opened Wrappers
  import opened Model
  import opened Effects
  import opened ViewStates
  import opened Repository
  import Intents
  import Lists
  import Reducer
  import Properties

  /**
   * `UserListViewModel`. Its state is the current view state, the effects
   * sent so far (the channel, oldest first), the private undo slot, and the
   * repository it was given. Each method does what the Kotlin handler does,
   * step by step, and ends in the state `Reducer` gives for that intent.
   */
  class UserListViewModel {
    const repository: UserRepositoryImpl
    /** `android.util.Patterns.EMAIL_ADDRESS.matcher(s).matches()`, supplied by the platform. */
    const isEmailAddress: string -> bool
    var viewState: UserViewState
    var effects: seq<SnackbarEffect>
    var recentlyDeletedUser: Option<User>

    /** The machine this object and its repository stand for. */
    function Snapshot(): Reducer.Machine
      reads this, repository
    {
      Reducer.Machine(viewState, repository.users, recentlyDeletedUser, effects)
    }

    ghost predicate Valid()
      reads this, repository
    {
      Reducer.Inv(Snapshot())
    }

    /** The constructor with its `init` block, which handles `LoadUsers`. */
    constructor (repository: UserRepositoryImpl, isEmailAddress: string -> bool, w: Reducer.World)
      ensures this.repository == repository && this.isEmailAddress == isEmailAddress
      ensures Valid()
      ensures Snapshot() == Reducer.Step(Reducer.Start(repository.users), Intents.LoadUsers, isEmailAddress, w)
    {
      this.repository := repository;
      this.isEmailAddress := isEmailAddress;
      viewState := Initial();
      effects := [];
      recentlyDeletedUser := None;
      new;
      LoadUsers(w);
    }

    /** `handleIntent`: dispatch to the one handler for the intent. */
    method HandleIntent(intent: Intents.UserIntent, w: Reducer.World)
      requires Valid()
      modifies this, repository
      ensures Valid()
      ensures Snapshot() == Reducer.Step(old(Snapshot()), intent, isEmailAddress, w)
    {
      match intent
      case LoadUsers => LoadUsers(w);
      case AddUser(name, email, bitmap) => ValidateAndAddUser(name, email, bitmap, w);
      case DeleteUser(user) => DeleteUser(user, w);
      case ClearUsers => ClearUsers(w);
      case SearchUser(query) => SearchUsers(query);
      case UpdateName(name) => ValidateName(name);
      case UpdateEmail(email) => ValidateEmail(email);
      case UndoDelete => UndoDelete(w);
      case SelectImageFromGallery(uri) => SelectImageFromGallery(uri);
      case CaptureImage(bitmap) => CaptureImage(bitmap, w);
    }

    method ValidateAndAddUser(name: string, email: string, bitmap: Option<Bitmap>, w: Reducer.World)
      requires Valid()
      modifies this, repository
      ensures Valid()
      ensures Snapshot() == Reducer.ValidateAndAddUser(old(Snapshot()), name, email, bitmap, isEmailAddress, w)
    {
      var nameError := Reducer.NameError(name);
      var emailError := Reducer.EmailError(email, isEmailAddress);
      if nameError || emailError {
        var errorMessage := Reducer.InvalidInputMessage(nameError, emailError);
        viewState := viewState.(nameError := nameError, emailError := emailError);
        effects := effects + [Snackbar(errorMessage)];
        return;
      }
      if bitmap == None {
        effects := effects + [Snackbar("Please select or capture an image!")];
        return;
      }
      viewState := viewState.(isLoading := true);
      var imageUrl := w.savedImage;
      var newUser := User(w.newId, name, email, imageUrl);
      match w.fault {
        case None =>
          var users := repository.AddUser(newUser);
          viewState := viewState.(isLoading := false, users := users, name := "", email := "",
                                  selectedImageUri := None, nameError := false, emailError := false);
          effects := effects + [Snackbar("User added successfully!")];
        case Some(message) =>
          viewState := viewState.(isLoading := false);
          effects := effects + [Snackbar("Error adding user: " + message)];
      }
    }

    method LoadUsers(w: Reducer.World)
      requires Valid()
      modifies this
      ensures Valid()
      ensures Snapshot() == Reducer.LoadUsers(old(Snapshot()), w)
    {
      if w.fault == None {
        var users := repository.GetUsers();
        viewState := viewState.(users := users);
      }
    }

    method DeleteUser(user: User, w: Reducer.World)
      requires Valid()
      modifies this, repository
      ensures Valid()
      ensures Snapshot() == Reducer.DeleteUser(old(Snapshot()), user, w)
      ensures recentlyDeletedUser == Some(user)
    {
      viewState := viewState.(isLoading := true);
      recentlyDeletedUser := Some(user);
      match w.fault {
        case None =>
          var users := repository.DeleteUser(user);
          viewState := viewState.(isLoading := false, users := users);
          effects := effects + [ShowSnackbar("User deleted", Some("Undo"))];
        case Some(message) =>
          viewState := viewState.(isLoading := false);
          effects := effects + [Snackbar("Error deleting user: " + message)];
      }
    }

    method UndoDelete(w: Reducer.World)
      requires Valid()
      modifies this, repository
      ensures Valid()
      ensures Snapshot() == Reducer.UndoDelete(old(Snapshot()), isEmailAddress, w)
      ensures repository.users == old(repository.users) && viewState.users == old(viewState.users)
      ensures recentlyDeletedUser == None
    {
      ghost var before := Snapshot();
      if recentlyDeletedUser != None {
        var deletedUser := recentlyDeletedUser.value;
        ValidateAndAddUser(deletedUser.name, deletedUser.email, None, w);
        recentlyDeletedUser := None;
        Properties.UndoNeverReAdds(before, isEmailAddress, w);
      }
    }

    method ClearUsers(w: Reducer.World)
      requires Valid()
      modifies this, repository
      ensures Valid()
      ensures Snapshot() == Reducer.ClearUsers(old(Snapshot()), w)
    {
      viewState := viewState.(isLoading := true);
      match w.fault {
        case None =>
          var users := repository.ClearUsers();
          viewState := viewState.(isLoading := false, users := users);
          effects := effects + [Snackbar("All users cleared!")];
        case Some(message) =>
          viewState := viewState.(isLoading := false);
          effects := effects + [Snackbar("Error clearing users: " + message)];
      }
    }

    method SearchUsers(query: string)
      requires Valid()
      modifies this
      ensures Valid()
      ensures Snapshot() == Reducer.SearchUsers(old(Snapshot()), query)
    {
      viewState := viewState.(searchQuery := query);
      var filteredUsers := Lists.Filter(viewState.users, Reducer.Matcher(query));
      viewState := viewState.(users := filteredUsers);
      if |filteredUsers| == 0 {
        effects := effects + [Snackbar("No users found")];
      }
    }

    method ValidateName(name: string)
      requires Valid()
      modifies this
      ensures Valid()
      ensures Snapshot() == Reducer.ValidateName(old(Snapshot()), name)
    {
      var nameError := Reducer.NameError(name);
      viewState := viewState.(name := name, nameError := nameError);
    }

    method ValidateEmail(email: string)
      requires Valid()
      modifies this
      ensures Valid()
      ensures Snapshot() == Reducer.ValidateEmail(old(Snapshot()), email, isEmailAddress)
    {
      var emailError := Reducer.EmailError(email, isEmailAddress);
      viewState := viewState.(email := email, emailError := emailError);
    }

    method SelectImageFromGallery(uri: Uri)
      requires Valid()
      modifies this
      ensures Valid()
      ensures Snapshot() == Reducer.SelectImageFromGallery(old(Snapshot()), uri)
    {
      viewState := viewState.(selectedImageUri := Some(uri.text));
      effects := effects + [Snackbar("Image selected from gallery!")];
    }

    /** `captureImage`: `saveBitmapToFile(bitmap)` is the world's `savedImage`. */
    method CaptureImage(bitmap: Bitmap, w: Reducer.World)
      requires Valid()
      modifies this
      ensures Valid()
      ensures Snapshot() == Reducer.CaptureImage(old(Snapshot()), w)
    {
      var imageUri := w.savedImage;
      viewState := viewState.(selectedImageUri := imageUri);
      effects := effects + [Snackbar("Image captured successfully!")];
    }
  }
}
