/** Unicode white space and trimming, as the source's string library defines them. */
module Text {

  predicate IsWhitespace(c: char) {
    || '\t' <= c <= '\r'
    || c in " \U{85}\U{A0}\U{1680}\U{2028}\U{2029}\U{202F}\U{205F}\U{3000}"
    || '\U{2000}' <= c <= '\U{200A}'
  }

  function TrimStart(s: string): string {
    if s != [] && IsWhitespace(s[0]) then TrimStart(s[1..]) else s
  }

  function TrimEnd(s: string): string {
    if s != [] && IsWhitespace(s[|s| - 1]) then TrimEnd(s[..|s| - 1]) else s
  }

  function Trim(s: string): string {
    TrimEnd(TrimStart(s))
  }

  /** `s` neither starts nor ends with white space. */
  predicate Trimmed(s: string) {
    s != [] ==> !IsWhitespace(s[0]) && !IsWhitespace(s[|s| - 1])
  }

  lemma {:induction false} TrimEndKeepsStart(s: string)
    requires s != [] && !IsWhitespace(s[0])
    ensures TrimEnd(s) != [] && TrimEnd(s)[0] == s[0]
    ensures !IsWhitespace(TrimEnd(s)[|TrimEnd(s)| - 1])
  {
    if IsWhitespace(s[|s| - 1]) {
      TrimEndKeepsStart(s[..|s| - 1]);
    }
  }

  lemma {:induction false} TrimStartResult(s: string)
    ensures TrimStart(s) == [] || !IsWhitespace(TrimStart(s)[0])
  {
    if s != [] && IsWhitespace(s[0]) {
      TrimStartResult(s[1..]);
    }
  }

  /** Trimming leaves a trimmed string, and leaves a trimmed string alone. */
  lemma TrimResult(s: string)
    ensures Trimmed(Trim(s))
    ensures Trimmed(s) ==> Trim(s) == s
  {
    TrimStartResult(s);
    if TrimStart(s) != [] {
      TrimEndKeepsStart(TrimStart(s));
    }
  }

  /** A trimmed non-empty string is not blank, and neither is one that starts with
      something other than white space. */
  lemma VisibleStart(s: string)
    requires s != [] && !IsWhitespace(s[0])
    ensures Trim(s) != [] && Trim(s)[0] == s[0]
  {
    TrimEndKeepsStart(s);
  }
}
