/** What several models in this project share. */
module Prelude {

  /** A value that may be absent: a null pointer, a failed match, a lock without a holder. */
  datatype Option<+T> = None | Some(value: T)

  function LowerChar(c: char): char {
    if 'A' <= c <= 'Z' then c - 'A' + 'a' else c
  }

  /** strtolower, or a comparison that ignores case, on ASCII text. */
  function Lower(s: string): string {
    seq(|s|, i requires 0 <= i < |s| => LowerChar(s[i]))
  }
}
