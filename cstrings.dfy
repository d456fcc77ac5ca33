/** The view of a character buffer that C code gets through a `const char *`:
    everything before the first NUL character. */
module CStrings {

  /** The C string read from `s`: the longest prefix of `s` without a NUL,
      stopped either by the end of `s` or by a NUL. */
  function CString(s: string): (r: string)
    ensures |r| <= |s| && r == s[..|r|]
    ensures '\0' !in r
    ensures |r| < |s| ==> s[|r|] == '\0'
  {
    if s == [] || s[0] == '\0' then [] else [s[0]] + CString(s[1..])
  }

  /** The three properties in CString's contract determine its result. */
  lemma CStringUnique(s: string, r: string)
    requires |r| <= |s| && r == s[..|r|]
    requires '\0' !in r
    requires |r| < |s| ==> s[|r|] == '\0'
    ensures r == CString(s)
  {
  }

  /** A buffer passes through a `const char *` unchanged exactly when it holds no NUL. */
  lemma CStringIdentity(s: string)
    ensures CString(s) == s <==> '\0' !in s
  {
  }

  /** Reading a C string back as a C string changes nothing. */
  lemma CStringIdempotent(s: string)
    ensures CString(CString(s)) == CString(s)
  {
  }

  /** A buffer reads as the empty C string exactly when it is empty or starts with a NUL. */
  lemma CStringEmpty(s: string)
    ensures CString(s) == "" <==> (s == "" || s[0] == '\0')
  {
  }
}
