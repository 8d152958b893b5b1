/**
 * The glib string helpers the package manager relies on: case-insensitive ASCII
 * comparison (g_ascii_strcasecmp) and path joining (g_build_filename).
 */
module CStrings {

  /** A C string seen as its characters: it ends at its terminator, so it holds no NUL. */
  type CStr = s: string | '\0' !in s

  /** g_ascii_tolower: 'A'..'Z' become 'a'..'z', every other character is kept. */
  function AsciiLower(c: char): (r: char)
    ensures !('A' <= r <= 'Z')
    ensures r != c ==> 'A' <= c <= 'Z' && r as int == c as int + 32
  {
    if 'A' <= c <= 'Z' then (c as int + 32) as char else c
  }

  /** The code at the front of a C string; the terminator of an exhausted one is 0. */
  function FirstCode(s: CStr): int {
    if s == [] then 0 else s[0] as int
  }

  /** Equal up to ASCII case: same length, and equal after lower-casing position by position. */
  predicate CaseFoldEqual(a: string, b: string) {
    |a| == |b| && forall i :: 0 <= i < |a| ==> AsciiLower(a[i]) == AsciiLower(b[i])
  }

  /**
   * g_ascii_strcasecmp: walks both strings while neither has ended; at the first
   * position whose lower-cased characters differ it returns their difference,
   * otherwise the difference of the codes where the shorter one ended. It
   * returns 0 exactly for strings equal up to ASCII case.
   */
  function AsciiStrCaseCmp(a: CStr, b: CStr): (r: int)
    ensures r == 0 <==> CaseFoldEqual(a, b)
    decreases |a|
  {
    CaseFoldStep(a, b);
    if a == [] || b == [] then FirstCode(a) - FirstCode(b)
    else if AsciiLower(a[0]) != AsciiLower(b[0]) then AsciiLower(a[0]) as int - AsciiLower(b[0]) as int
    else AsciiStrCaseCmp(a[1..], b[1..])
  }

  /**
   * One step of the comparison: a string that has ended is case-fold equal to
   * another exactly when both have ended (a C string holds no NUL, so its first
   * code is not 0); two strings that have not ended are case-fold equal exactly
   * when their first characters agree up to case and so do their tails.
   */
  lemma CaseFoldStep(a: CStr, b: CStr)
    ensures a == [] || b == [] ==> (FirstCode(a) - FirstCode(b) == 0 <==> CaseFoldEqual(a, b))
    ensures a != [] && b != [] ==>
              (CaseFoldEqual(a, b) <==> AsciiLower(a[0]) == AsciiLower(b[0]) && CaseFoldEqual(a[1..], b[1..]))
  {
    if a == [] || b == [] {
      if a != [] {
        assert a[0] in a;
      }
      if b != [] {
        assert b[0] in b;
      }
    } else {
      if AsciiLower(a[0]) == AsciiLower(b[0]) && CaseFoldEqual(a[1..], b[1..]) {
        forall i | 0 <= i < |a|
          ensures AsciiLower(a[i]) == AsciiLower(b[i])
        {
          if i > 0 {
            assert a[i] == a[1..][i - 1] && b[i] == b[1..][i - 1];
          }
        }
      }
      if CaseFoldEqual(a, b) {
        forall i | 0 <= i < |a| - 1
          ensures AsciiLower(a[1..][i]) == AsciiLower(b[1..][i])
        {
          assert a[1..][i] == a[i + 1] && b[1..][i] == b[i + 1];
        }
      }
    }
  }

  /**
   * g_build_filename with two elements: the directory, one '/' and the name.
   * The result is exactly the two parts around a single separator.
   */
  function BuildFilename(dir: CStr, name: CStr): (path: CStr)
    ensures |path| == |dir| + 1 + |name|
    ensures path[..|dir|] == dir && path[|dir|] == '/' && path[|dir| + 1..] == name
  {
    dir + "/" + name
  }
}
