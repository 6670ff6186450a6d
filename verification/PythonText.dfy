/** Whitespace as Python's string methods see it. */
module PythonText {

  /** The characters Python's str.split() and str.strip() treat as whitespace. */
  predicate IsSpace(c: char) {
    || '\t' <= c <= '\r' || '\U{1C}' <= c <= ' ' || c == '\U{85}' || c == '\U{A0}' || c == '\U{1680}'
    || '\U{2000}' <= c <= '\U{200A}' || c == '\U{2028}' || c == '\U{2029}' || c == '\U{202F}'
    || c == '\U{205F}' || c == '\U{3000}'
  }

  /** value.strip() is not empty. */
  predicate NonBlank(s: string) { exists i :: 0 <= i < |s| && !IsSpace(s[i]) }
}
