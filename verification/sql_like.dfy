/**
 * PostgreSQL's `ILIKE` pattern match, the operator the candidate filters
 * send to the database: `%` matches any run of characters, `_` exactly one,
 * and a backslash makes the next pattern character literal. Letters are
 * compared after ASCII lower-casing.
 */
module SqlLike {
  import opened Strings

  /** Does the whole of `s` match `pattern`? A lone trailing backslash is read as a literal one. */
  function ILike(s: string, pattern: string): bool
    decreases |s| + |pattern|
  {
    if pattern == [] then s == []
    else if pattern[0] == '%' then
      ILike(s, pattern[1..]) || (s != [] && ILike(s[1..], pattern))
    else if pattern[0] == '_' then
      s != [] && ILike(s[1..], pattern[1..])
    else if pattern[0] == '\\' && |pattern| >= 2 then
      s != [] && Lower(s[0]) == Lower(pattern[1]) && ILike(s[1..], pattern[2..])
    else
      s != [] && Lower(s[0]) == Lower(pattern[0]) && ILike(s[1..], pattern[1..])
  }

  /** A single `%` matches every string. */
  lemma {:induction false} PercentMatchesAll(s: string)
    ensures ILike(s, "%")
  {
    if s != [] {
      PercentMatchesAll(s[1..]);
    }
  }

  /** A leading `%` lets the rest of the pattern match any suffix of `s`. */
  lemma {:induction false} LeadingPercent(s: string, rest: string)
    ensures ILike(s, "%" + rest) <==> exists k :: 0 <= k <= |s| && ILike(s[k..], rest)
  {
    var pat := "%" + rest;
    assert pat[0] == '%' && pat[1..] == rest;
    if s == [] {
      assert ILike(s, pat) == ILike(s, rest);
      assert s[0..] == s;
    } else {
      LeadingPercent(s[1..], rest);
      if ILike(s, pat) {
        if !ILike(s, rest) {
          var k :| 0 <= k <= |s[1..]| && ILike(s[1..][k..], rest);
          assert s[1..][k..] == s[k + 1..];
        } else {
          assert s[0..] == s;
        }
      }
      if exists k :: 0 <= k <= |s| && ILike(s[k..], rest) {
        var k :| 0 <= k <= |s| && ILike(s[k..], rest);
        if k == 0 {
          assert s[0..] == s;
        } else {
          assert s[1..][k - 1..] == s[k..];
        }
      }
    }
  }
}
