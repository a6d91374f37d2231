/** How Kotlin shows a nullable string: with the elvis operator, or through `toString()` and string templates. */
module KotlinText {
  import opened Wrappers

  /** Kotlin's `?: ""`: an absent string is shown as the empty string. */
  function ShownOrEmpty(s: Option<string>): (r: string)
    ensures s.Some? ==> r == s.value
    ensures s.None? ==> r == ""
  {
    if s.Some? then s.value else ""
  }

  /**
   * Kotlin's `toString()` on a nullable string, and a nullable string inside
   * a string template: an absent string becomes the text "null".
   */
  function NullableToString(s: Option<string>): (r: string)
    ensures s.Some? ==> r == s.value
    ensures s.None? ==> r == "null"
  {
    if s.Some? then s.value else "null"
  }
}
