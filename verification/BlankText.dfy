/** Text that is more than white space. */
module BlankText {

  /** The 29 characters `str.strip()` removes; the migration freezes the same set for `btrim`. */
  const BLANKS: set<char> := {
    '\U{0009}', '\U{000A}', '\U{000B}', '\U{000C}', '\U{000D}', '\U{001C}', '\U{001D}', '\U{001E}', '\U{001F}',
    '\U{0020}', '\U{0085}', '\U{00A0}', '\U{1680}', '\U{2000}', '\U{2001}', '\U{2002}', '\U{2003}', '\U{2004}',
    '\U{2005}', '\U{2006}', '\U{2007}', '\U{2008}', '\U{2009}', '\U{200A}', '\U{2028}', '\U{2029}', '\U{202F}',
    '\U{205F}', '\U{3000}'
  }

  predicate NotBlank(s: string) {
    exists i :: 0 <= i < |s| && s[i] !in BLANKS
  }
}
