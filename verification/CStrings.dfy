/** C strings as character sequences: what the byte routines of <string.h> see. */
module CStrings {

  const NUL: char := '\0'

  predicate NulFree(s: string) {
    NUL !in s
  }

  /** strchr as an index; the length of `s` when `c` does not occur. */
  function IndexOf(s: string, c: char): (i: nat)
    ensures i <= |s|
    ensures c !in s[..i]
    ensures i < |s| ==> s[i] == c
  {
    if s == "" || s[0] == c then 0 else 1 + IndexOf(s[1..], c)
  }

  /** The C string that starts at the first character of `s`. */
  function CStr(s: string): (t: string)
    ensures NulFree(t)
  {
    s[..IndexOf(s, NUL)]
  }

  predicate StartsWith(s: string, prefix: string) {
    |prefix| <= |s| && s[..|prefix|] == prefix
  }

  /** strstr(s, keyword) != NULL. */
  predicate Contains(s: string, keyword: string) {
    exists i | 0 <= i <= |s| :: StartsWith(s[i..], keyword)
  }

  function SkipSpaces(s: string): (t: string)
    ensures |t| <= |s|
    ensures t != "" ==> t[0] != ' '
  {
    if s != "" && s[0] == ' ' then SkipSpaces(s[1..]) else s
  }

  lemma IndexOfUnique(s: string, c: char, i: nat)
    requires i <= |s|
    requires c !in s[..i]
    requires i < |s| ==> s[i] == c
    ensures IndexOf(s, c) == i
  {
    assert i > 0 ==> s[0] in s[..i];
    if s != "" && s[0] != c {
      assert forall x | x in s[1..][..i - 1] :: x in s[..i];
      IndexOfUnique(s[1..], c, i - 1);
    }
  }

  /** A field without the delimiter is found by searching for the delimiter. */
  lemma IndexOfField(field: string, c: char, rest: string)
    requires c !in field
    ensures IndexOf(field + [c] + rest, c) == |field|
    ensures (field + [c] + rest)[..|field|] == field
    ensures (field + [c] + rest)[|field| + 1..] == rest
  {
    var s := field + [c] + rest;
    assert s[..|field|] == field;
    IndexOfUnique(s, c, |field|);
  }

  lemma CStrOfNulFree(s: string)
    requires NulFree(s)
    ensures CStr(s) == s
  {
    assert s[..|s|] == s;
    IndexOfUnique(s, NUL, |s|);
  }

  lemma CStrOfPrefix(s: string, rest: string)
    ensures CStr(s + [NUL] + rest) == CStr(s)
  {
    var i, t := IndexOf(s, NUL), s + [NUL] + rest;
    assert t[..i] == s[..i];
    IndexOfUnique(t, NUL, i);
  }

  lemma CStrOfTerminated(s: string, rest: string)
    requires NulFree(s)
    ensures CStr(s + [NUL] + rest) == s
  {
    IndexOfField(s, NUL, rest);
  }
}
