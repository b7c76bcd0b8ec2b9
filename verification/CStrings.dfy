/** NUL-terminated strings in character arrays, and the bounded copies the firmware makes. */
module CStrings {

  predicate NoNul(s: string) { '\0' !in s }

  /** `buf` holds the C string `s`. */
  ghost predicate Holds(buf: array<char>, s: string)
    reads buf
  {
    NoNul(s) && |s| < buf.Length && buf[..|s|] == s && buf[|s|] == '\0'
  }

  function Take(s: string, n: nat): (t: string)
    ensures |t| <= n && t <= s
  {
    if |s| <= n then s else s[..n]
  }

  /** Where a string is held, its NUL is the first one. */
  lemma HoldsAt(buf: array<char>, s: string)
    requires Holds(buf, s)
    ensures forall k :: 0 <= k < |s| ==> buf[k] == s[k] && buf[k] != '\0'
  {
    forall k | 0 <= k < |s| ensures buf[k] == s[k] && buf[k] != '\0' {
      assert buf[..|s|][k] == s[k];
      assert s[k] in s;
    }
  }

  method StrLen(buf: array<char>, ghost s: string) returns (n: nat)
    requires Holds(buf, s)
    ensures n == |s|
  {
    HoldsAt(buf, s);
    n := 0;
    while buf[n] != '\0'
      invariant n <= |s|
      decreases |s| - n
    {
      n := n + 1;
    }
  }

  /** `strncat(buf, s, n)`: append at most `n` characters, then NUL. */
  method StrNCat(buf: array<char>, ghost before: string, s: string, n: nat)
    requires Holds(buf, before) && NoNul(s) && |before| + n < buf.Length
    modifies buf
    ensures Holds(buf, before + Take(s, n))
  {
    var at := StrLen(buf, before);
    var count := if |s| <= n then |s| else n;
    for i := 0 to count
      invariant buf[..at] == before
      invariant buf[at..at + i] == s[..i]
    {
      buf[at + i] := s[i];
    }
    buf[at + count] := '\0';
    assert buf[..at + count] == buf[..at] + buf[at..at + count];
    assert s[..count] == Take(s, n);
  }

  /** `snprintf(buf, size, "%s", s)`, or `strncpy` with its final NUL, on a whole buffer. */
  method StrCopy(buf: array<char>, s: string)
    requires NoNul(s) && buf.Length > 0
    modifies buf
    ensures Holds(buf, Take(s, buf.Length - 1))
  {
    buf[0] := '\0';
    StrNCat(buf, "", s, buf.Length - 1);
    assert "" + Take(s, buf.Length - 1) == Take(s, buf.Length - 1);
  }
}
