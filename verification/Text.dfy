/** Texts as Go sees them: the white space its strings package trims, and their length in bytes. */
module Text {
  /** unicode.IsSpace. */
  predicate IsSpace(c: char) {
    c in "\t\n\U{0B}\U{0C}\r \U{85}\U{A0}\U{1680}\U{2028}\U{2029}\U{202F}\U{205F}\U{3000}"
    || '\U{2000}' <= c <= '\U{200A}'
  }

  function TrimLeft(s: string): string {
    if s != "" && IsSpace(s[0]) then TrimLeft(s[1..]) else s
  }

  function TrimSpace(s: string): string {
    if s != "" && IsSpace(s[|s| - 1]) then TrimSpace(s[..|s| - 1]) else TrimLeft(s)
  }

  /** The length in bytes of a text's UTF-8 form. */
  function Bytes(s: string): nat {
    if s == "" then 0
    else Bytes(s[..|s| - 1])
         + var c := s[|s| - 1]; if c < '\U{80}' then 1 else if c < '\U{800}' then 2 else if c < '\U{10000}'
             then 3 else 4
  }
  lemma {:induction false} AsciiBytes(s: string)
    requires forall i | 0 <= i < |s| :: s[i] < '\U{80}'
    ensures Bytes(s) == |s|
  {
    if s != "" {
      AsciiBytes(s[..|s| - 1]);
    }
  }
}
