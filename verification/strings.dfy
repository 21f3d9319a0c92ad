/**
 * The Ruby / ActiveSupport string operations the application relies on:
 * `blank?`, `strip`, `downcase`, case-insensitive containment, and the
 * `URI::MailTo::EMAIL_REGEXP` format used by the model validations.
 * Characters are Unicode scalar values; only ASCII letters change case.
 */
module Strings {

  /** Characters matched by `[[:space:]]` in ActiveSupport's `String#blank?`. */
  predicate IsBlankSpace(c: char)
  {
    c == ' ' || c == '\t' || c == '\n' || c == '\U{B}' || c == '\U{C}' || c == '\r'
    || c == '\U{85}' || c == '\U{A0}' || c == '\U{1680}'
    || ('\U{2000}' <= c <= '\U{200A}')
    || c == '\U{2028}' || c == '\U{2029}' || c == '\U{202F}' || c == '\U{205F}' || c == '\U{3000}'
  }

  /** `String#blank?`: empty or made only of whitespace (nil is modelled as ""). */
  predicate Blank(s: string)
  {
    forall i :: 0 <= i < |s| ==> IsBlankSpace(s[i])
  }

  /** `present?` is the negation of `blank?`. */
  predicate Present(s: string)
  {
    !Blank(s)
  }

  /** Characters removed by Ruby's `String#strip`: NUL, \t, \n, \v, \f, \r and space. */
  predicate IsStripSpace(c: char)
  {
    c == '\0' || c == ' ' || c == '\t' || c == '\n' || c == '\U{B}' || c == '\U{C}' || c == '\r'
  }

  /** The first index at or after `i` that does not hold whitespace (or `|s|`). */
  function StripStart(s: string, i: nat): (r: nat)
    requires i <= |s|
    ensures i <= r <= |s|
    ensures forall k :: i <= k < r ==> IsStripSpace(s[k])
    ensures r < |s| ==> !IsStripSpace(s[r])
    decreases |s| - i
  {
    if i < |s| && IsStripSpace(s[i]) then StripStart(s, i + 1) else i
  }

  /** The end of `s[lo..j]` once its trailing whitespace is dropped. */
  function StripEnd(s: string, lo: nat, j: nat): (r: nat)
    requires lo <= j <= |s|
    ensures lo <= r <= j
    ensures forall k :: r <= k < j ==> IsStripSpace(s[k])
    ensures lo < r ==> !IsStripSpace(s[r - 1])
  {
    if lo < j && IsStripSpace(s[j - 1]) then StripEnd(s, lo, j - 1) else j
  }

  /** `r` is the slice of `s` that starts at `i`, and everything around it is whitespace. */
  predicate InfixAt(s: string, r: string, i: int)
  {
    0 <= i && i + |r| <= |s| && s[i..i + |r|] == r
    && (forall j :: 0 <= j < i ==> IsStripSpace(s[j]))
    && (forall j :: i + |r| <= j < |s| ==> IsStripSpace(s[j]))
  }

  /** `String#strip`: the input without its leading and trailing whitespace. */
  function Strip(s: string): (r: string)
    ensures r != [] ==> !IsStripSpace(r[0]) && !IsStripSpace(r[|r| - 1])
    ensures exists i :: 0 <= i <= |s| && InfixAt(s, r, i)
    ensures forall ch :: ch in r ==> ch in s
  {
    var i := StripStart(s, 0);
    var j := StripEnd(s, i, |s|);
    assert InfixAt(s, s[i..j], i);
    s[i..j]
  }

  /** A string that neither starts nor ends with whitespace is left as it is. */
  lemma StripUnchanged(s: string)
    requires s != [] ==> !IsStripSpace(s[0]) && !IsStripSpace(s[|s| - 1])
    ensures Strip(s) == s
  {
    assert StripStart(s, 0) == 0;
    assert StripEnd(s, 0, |s|) == |s|;
  }

  lemma StripIdempotent(s: string)
    ensures Strip(Strip(s)) == Strip(s)
  {
    StripUnchanged(Strip(s));
  }

  /** ASCII lower-casing of one character. */
  function Lower(c: char): char
  {
    if 'A' <= c <= 'Z' then (c as int + 32) as char else c
  }

  /** `String#downcase`, restricted to ASCII letters. */
  function Downcase(s: string): (r: string)
    ensures |r| == |s|
    ensures forall i :: 0 <= i < |s| ==> r[i] == Lower(s[i])
    ensures forall ch :: ch in r ==> !('A' <= ch <= 'Z')
  {
    seq(|s|, i requires 0 <= i < |s| => Lower(s[i]))
  }

  lemma DowncaseIdempotent(s: string)
    ensures Downcase(Downcase(s)) == Downcase(s)
  {
  }

  /** A string without upper-case ASCII letters is its own lower-case form. */
  lemma DowncaseIdentity(s: string)
    requires forall ch :: ch in s ==> !('A' <= ch <= 'Z')
    ensures Downcase(s) == s
  {
    assert forall i :: 0 <= i < |s| ==> s[i] in s;
  }

  /** Downcase commutes with taking a slice. */
  lemma DowncaseSlice(s: string, i: int, j: int)
    requires 0 <= i <= j <= |s|
    ensures Downcase(s[i..j]) == Downcase(s)[i..j]
  {
  }

  /**
   * `downcase` then `strip`: what `Candidate#normalize_email` stores, and
   * what Devise does to a user's email before validating it (its
   * `case_insensitive_keys` and `strip_whitespace_keys` are both `[:email]`
   * by default).
   */
  function NormalizedEmail(email: string): (r: string)
    ensures forall ch :: ch in r ==> !('A' <= ch <= 'Z')
    ensures r != [] ==> !IsStripSpace(r[0]) && !IsStripSpace(r[|r| - 1])
  {
    Strip(Downcase(email))
  }

  lemma {:induction false} NormalizedEmailIdempotent(email: string)
    ensures NormalizedEmail(NormalizedEmail(email)) == NormalizedEmail(email)
  {
    var r := NormalizedEmail(email);
    DowncaseIdentity(r);
    StripIdempotent(Downcase(email));
  }

  /** "A@x.io" is stored as "a@x.io". */
  lemma UppercaseEmailNormalized()
    ensures NormalizedEmail("A@x.io") == "a@x.io"
  {
    var d := Downcase("A@x.io");
    assert d == "a@x.io" by {
      assert d[0] == Lower('A') == 'a';
      assert d[1] == '@' && d[2] == 'x' && d[3] == '.' && d[4] == 'i' && d[5] == 'o';
    }
    var lower := "a@x.io";
    assert lower[0] == 'a' && lower[5] == 'o';
    StripUnchanged(lower);
  }

  /** `s` holds `p` at offset `k`, ignoring ASCII case. */
  predicate OccursAt(s: string, p: string, k: int)
  {
    0 <= k && k + |p| <= |s| && Downcase(s[k..k + |p|]) == Downcase(p)
  }

  /** Case-insensitive substring test (ILIKE '%p%' with no wildcard in p). */
  predicate ContainsCI(s: string, p: string)
  {
    exists k :: 0 <= k <= |s| && OccursAt(s, p, k)
  }

  predicate IsAlnum(c: char)
  {
    ('a' <= c <= 'z') || ('A' <= c <= 'Z') || ('0' <= c <= '9')
  }

  /** Characters allowed before the '@' by `URI::MailTo::EMAIL_REGEXP`. */
  predicate IsLocalChar(c: char)
  {
    IsAlnum(c) || c in ".!#$%&'*+/=?^_`{|}~-"
  }

  /** After the '@': the first character of a domain label, which must be alphanumeric. */
  predicate ScanLabelStart(s: string)
    decreases |s|, 1
  {
    s != [] && IsAlnum(s[0]) && ScanLabel(s[1..], 1, true)
  }

  /**
   * Inside a domain label of `len` characters whose last character was
   * alphanumeric when `lastAlnum`: labels hold letters, digits and '-', are
   * at most 63 characters long, end with a letter or digit, and are
   * separated by single dots.
   */
  predicate ScanLabel(s: string, len: nat, lastAlnum: bool)
    decreases |s|, 0
  {
    if s == [] then lastAlnum
    else if s[0] == '.' then lastAlnum && ScanLabelStart(s[1..])
    else (IsAlnum(s[0]) || s[0] == '-') && len < 63 && ScanLabel(s[1..], len + 1, IsAlnum(s[0]))
  }

  /** Before the '@': one or more local-part characters. */
  predicate ScanLocal(s: string)
  {
    s != [] && if s[0] == '@' then ScanLabelStart(s[1..]) else IsLocalChar(s[0]) && ScanLocal(s[1..])
  }

  /**
   * `URI::MailTo::EMAIL_REGEXP` matched against the whole string:
   * `[local chars]+ @ label (. label)*`, read left to right.
   */
  predicate MailtoEmail(s: string)
  {
    s != [] && IsLocalChar(s[0]) && ScanLocal(s[1..])
  }
}
