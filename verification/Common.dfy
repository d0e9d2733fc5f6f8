/** Small shared datatypes and text helpers. */
module Common {
  datatype Option<+T> = None | Some(value: T)

  predicate IsSpace(c: char) { c == ' ' || c == '\t' || c == '\n' || c == '\r' }

  /** `str.strip()` */
  function Strip(s: string): string {
    if s != [] && IsSpace(s[0]) then Strip(s[1..])
    else if s != [] && IsSpace(s[|s| - 1]) then Strip(s[..|s| - 1])
    else s
  }

  /** The elements of a sequence. */
  function ElementsOf<T(==)>(s: seq<T>): set<T> {
    set x | x in s
  }
}
