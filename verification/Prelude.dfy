/** Vocabulary shared by every module. */
module Prelude {
  datatype Option<+T> = None | Some(value: T)

  /** What `String.prototype.trim` strips. */
  predicate IsSpace(c: char) {
    c in "\t\n \r" || c == '\U{B}' || c == '\U{C}' || c == '\U{A0}' || c == '\U{1680}' || '\U{2000}' <= c <= '\U{200A}'
    || c == '\U{2028}' || c == '\U{2029}' || c == '\U{202F}' || c == '\U{205F}' || c == '\U{3000}' || c == '\U{FEFF}'
  }

  predicate IsBlank(s: string) {
    forall c :: c in s ==> IsSpace(c)
  }
}
