/** The JavaScript string behaviour the modelled code relies on: truthiness
    and `||` defaults, `String.prototype.trim` and the email pattern
    `^[^\s@]+@[^\s@]+\.[^\s@]+$`. */
module JsText {
  import opened Results
  import Seqs

  /** JavaScript truthiness of a string field: missing, `null` and `""` are falsy. */
  predicate Truthy(v: Option<string>) {
    v.Some? && v.value != ""
  }

  /** `v || fallback` on a string field. */
  function OrElse(v: Option<string>, fallback: string): string {
    if Truthy(v) then v.value else fallback
  }

  /** The characters JavaScript's `\s` matches and `trim` removes
      (white space and line terminators). */
  predicate IsJsWhitespace(c: char) {
    c == '\t' || c == '\n' || c == '\U{B}' || c == '\U{C}' || c == '\r' || c == ' '
    || c == '\U{A0}' || c == '\U{1680}' || ('\U{2000}' <= c <= '\U{200A}')
    || c == '\U{2028}' || c == '\U{2029}' || c == '\U{202F}' || c == '\U{205F}'
    || c == '\U{3000}' || c == '\U{FEFF}'
  }

  predicate AllWhitespace(s: string) {
    forall i :: 0 <= i < |s| ==> IsJsWhitespace(s[i])
  }

  /** `s` with its leading white space dropped. */
  function TrimStart(s: string): string
    decreases |s|
  {
    if s != [] && IsJsWhitespace(s[0]) then TrimStart(s[1..]) else s
  }

  /** What `TrimStart` drops is white space, and what it keeps does not start with any. */
  lemma {:induction false} TrimStartSpec(s: string)
    ensures var r := TrimStart(s);
      |r| <= |s| && r == s[|s| - |r|..] && AllWhitespace(s[..|s| - |r|])
      && (r != [] ==> !IsJsWhitespace(r[0]))
    decreases |s|
  {
    if s != [] && IsJsWhitespace(s[0]) {
      TrimStartSpec(s[1..]);
      var r := TrimStart(s[1..]);
      assert s[..|s| - |r|] == [s[0]] + s[1..][..|s| - 1 - |r|];
    }
  }

  /** `s` with its trailing white space dropped. */
  function TrimEnd(s: string): string
    decreases |s|
  {
    if s != [] && IsJsWhitespace(s[|s| - 1]) then TrimEnd(s[..|s| - 1]) else s
  }

  /** What `TrimEnd` drops is white space, and what it keeps does not end with any. */
  lemma {:induction false} TrimEndSpec(s: string)
    ensures var r := TrimEnd(s);
      |r| <= |s| && r == s[..|r|] && AllWhitespace(s[|r|..])
      && (r != [] ==> !IsJsWhitespace(r[|r| - 1]))
    decreases |s|
  {
    if s != [] && IsJsWhitespace(s[|s| - 1]) {
      TrimEndSpec(s[..|s| - 1]);
      var r := TrimEnd(s[..|s| - 1]);
      assert s[|r|..] == s[..|s| - 1][|r|..] + [s[|s| - 1]];
    }
  }

  /** `s.trim()`: the part of `s` left after dropping white space at both ends. */
  function Trim(s: string): string {
    TrimEnd(TrimStart(s))
  }

  /** `trim` keeps a contiguous part of `s`, drops only white space around it,
      and leaves none at either end. */
  lemma TrimSpec(s: string)
    ensures var r := Trim(s);
      (exists a :: 0 <= a <= |s| - |r| && r == s[a..a + |r|] && AllWhitespace(s[..a]) && AllWhitespace(s[a + |r|..]))
      && (r != [] ==> !IsJsWhitespace(r[0]) && !IsJsWhitespace(r[|r| - 1]))
  {
    var t := TrimStart(s);
    TrimStartSpec(s);
    TrimEndSpec(t);
    var r := TrimEnd(t);
    var a := |s| - |t|;
    assert r == s[a..a + |r|];
    assert s[a + |r|..] == t[|r|..];
  }

  /** A field is blank for the validators exactly when it is nothing but white space. */
  lemma TrimEmptyIffBlank(s: string)
    ensures Trim(s) == [] <==> AllWhitespace(s)
  {
    var t := TrimStart(s);
    TrimStartSpec(s);
    TrimEndSpec(t);
    if Trim(s) == [] {
      assert t[0..] == t;
      assert s[..|s| - |t|] == s;
    }
  }

  /** A character `[^\s@]` accepts. */
  predicate EmailChar(c: char) {
    !IsJsWhitespace(c) && c != '@'
  }

  predicate AllEmailChars(s: string) {
    forall i :: 0 <= i < |s| ==> EmailChar(s[i])
  }

  /** What it means for `^[^\s@]+@[^\s@]+\.[^\s@]+$` to match `s`: three non-empty
      runs of `[^\s@]`, separated by `@` and by a dot. */
  ghost predicate MatchesEmailPattern(s: string) {
    exists at, dot :: 0 < at && at + 1 < dot && dot + 1 < |s| && s[at] == '@' && s[dot] == '.'
      && AllEmailChars(s[..at]) && AllEmailChars(s[at + 1..dot]) && AllEmailChars(s[dot + 1..])
  }

  /** `emailRegex.test(s)`, decided directly: one `@` with something before it,
      no white space, and a dot strictly inside the part after the `@`. */
  function EmailRegexTest(s: string): bool {
    if '@' !in s then false
    else
      var at := Seqs.FirstIndex(s, '@');
      var domain := s[at + 1..];
      0 < at && AllEmailChars(s[..at]) && AllEmailChars(domain)
      && |domain| >= 3 && '.' in domain[1..|domain| - 1]
  }

  lemma EmailRegexTestSound(s: string)
    requires EmailRegexTest(s)
    ensures MatchesEmailPattern(s)
  {
    var at := Seqs.FirstIndex(s, '@');
    var domain := s[at + 1..];
    var inner := domain[1..|domain| - 1];
    var p :| 0 <= p < |inner| && inner[p] == '.';
    var dot := at + 2 + p;
    assert s[dot] == '.';
    assert s[at + 1..dot] == domain[..p + 1];
    assert s[dot + 1..] == domain[p + 2..];
    EmailCharsSlice(domain, 0, p + 1);
    EmailCharsSlice(domain, p + 2, |domain|);
    assert 0 < at && at + 1 < dot && dot + 1 < |s| && s[at] == '@' && s[dot] == '.'
      && AllEmailChars(s[..at]) && AllEmailChars(s[at + 1..dot]) && AllEmailChars(s[dot + 1..]);
  }

  lemma EmailCharsSlice(s: string, i: nat, j: nat)
    requires AllEmailChars(s) && i <= j <= |s|
    ensures AllEmailChars(s[i..j])
  {
    assert forall k :: 0 <= k < j - i ==> s[i..j][k] == s[i + k];
  }

  lemma FirstAtSign(s: string, at: nat)
    requires at < |s| && s[at] == '@' && AllEmailChars(s[..at])
    ensures '@' in s && Seqs.FirstIndex(s, '@') == at
  {
  }

  lemma DottedEmailChars(a: string, b: string)
    requires AllEmailChars(a) && AllEmailChars(b)
    ensures AllEmailChars(a + ['.'] + b)
  {
    var d := a + ['.'] + b;
    forall i | 0 <= i < |d| ensures EmailChar(d[i]) {
      if i < |a| { assert d[i] == a[i]; }
      else if i > |a| { assert d[i] == b[i - |a| - 1]; }
    }
  }

  lemma EmailRegexTestComplete(s: string)
    requires MatchesEmailPattern(s)
    ensures EmailRegexTest(s)
  {
    var at, dot :| 0 < at && at + 1 < dot && dot + 1 < |s| && s[at] == '@' && s[dot] == '.'
      && AllEmailChars(s[..at]) && AllEmailChars(s[at + 1..dot]) && AllEmailChars(s[dot + 1..]);
    DomainOfMatch(s, at, dot);
  }

  lemma DomainOfMatch(s: string, at: nat, dot: nat)
    requires 0 < at && at + 1 < dot && dot + 1 < |s| && s[at] == '@' && s[dot] == '.'
    requires AllEmailChars(s[..at]) && AllEmailChars(s[at + 1..dot]) && AllEmailChars(s[dot + 1..])
    ensures EmailRegexTest(s)
  {
    FirstAtSign(s, at);
    var domain := s[at + 1..];
    var a, b := s[at + 1..dot], s[dot + 1..];
    assert domain == a + ['.'] + b;
    DottedEmailChars(a, b);
    var inner := domain[1..|domain| - 1];
    assert inner[dot - at - 2] == '.';
  }

  /** The direct test accepts exactly the strings the regular expression matches. */
  lemma EmailRegexTestMeansMatch(s: string)
    ensures EmailRegexTest(s) <==> MatchesEmailPattern(s)
  {
    if EmailRegexTest(s) { EmailRegexTestSound(s); }
    if MatchesEmailPattern(s) { EmailRegexTestComplete(s); }
  }
}
