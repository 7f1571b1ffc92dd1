/** The closed alphabet of user actions the view model consumes. */
module Intents {
  import opened Wrappers
  import opened Model

  /**
   * The ten intents. `AddUser` may come without an image; `CaptureImage`
   * always carries one (its Kotlin property is `bitmap`, renamed `capture`
   * here because a datatype's field names must have one type).
   */
  datatype UserIntent =
    | LoadUsers
    | AddUser(name: string, email: string, bitmap: Option<Bitmap>)
    | DeleteUser(user: User)
    | ClearUsers
    | SearchUser(query: string)
    | UpdateName(name: string)
    | UpdateEmail(email: string)
    | UndoDelete
    | SelectImageFromGallery(uri: Uri)
    | CaptureImage(capture: Bitmap)
}
