/** Character classes shared by the URL patterns and by `int()`. */
module Chars {
  /** `[0-9]`: an ASCII decimal digit. */
  predicate IsDigit(c: char)
  {
    '0' <= c <= '9'
  }
}
