/** Row identifiers, optional values and the two database backends. */
module Ids {

  datatype Option<+T> = None | Some(value: T)

  predicate IsHexDigit(c: char) {
    '0' <= c <= '9' || 'a' <= c <= 'f'
  }

  /** The canonical text of a UUID: groups of 8, 4, 4, 4 and 12 hex digits. */
  predicate IsUuidText(s: string) {
    && |s| == 36
    && forall i :: 0 <= i < 36 ==> if i in {8, 13, 18, 23} then s[i] == '-' else IsHexDigit(s[i])
  }

  /** A UUID, identified with its canonical text. */
  type Uuid = s: string | IsUuidText(s) witness "00000000-0000-0000-0000-000000000000"

  /** The Go text form of a UUID whose bytes were never set. */
  const NIL_UUID: Uuid := "00000000-0000-0000-0000-000000000000"

  datatype Dialect = Postgres | Sqlite
}
