/** String helpers with JavaScript's meaning. */
module Text {

  /** The white space and line ends that String.prototype.trim removes. */
  predicate Blank(c: char) {
    || '\U{09}' <= c <= '\U{0D}' || '\U{2000}' <= c <= '\U{200A}'
    || c in {' ', '\U{A0}', '\U{1680}', '\U{2028}', '\U{2029}', '\U{202F}', '\U{205F}', '\U{3000}', '\U{FEFF}'}
  }

  /** String.prototype.trim */
  function Trimmed(s: string): string {
    if s == "" then ""
    else if Blank(s[0]) then Trimmed(s[1..])
    else if Blank(s[|s| - 1]) then Trimmed(s[..|s| - 1])
    else s
  }
}
