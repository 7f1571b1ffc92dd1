/** The values the screen works on. */
module Model {
  import opened Wrappers

  /**
   * A user record. Kotlin data classes compare structurally, so two users
   * are equal exactly when all four fields are; Dafny's datatype equality
   * is that comparison.
   */
  datatype User = User(id: int, name: string, email: string, imageUrl: Option<string>)

  /** An image as the platform hands it over; only its presence matters here. */
  datatype Bitmap = Bitmap(pixels: seq<int>)

  /** An image URI picked from the gallery; `text` is its `toString()`. */
  datatype Uri = Uri(text: string)
}
