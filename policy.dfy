/**
 * The identifier policy of the Registration Authority: which DNS names it
 * will authorize at all (`forbiddenIdentifier`).
 */
module Policy {
  import opened Strings

  /** At most this many dot-separated labels. */
  const MaxLabels := 10
  /** Longest label, section 2.3.4 of RFC 1035. */
  const MaxLabelLength := 63

  /** Go's `strings.Split(s, ".")`: every dot separates two labels. */
  function Split(s: string): (labels: seq<string>)
    ensures |labels| >= 1
    ensures forall j, k :: 0 <= j < |labels| && 0 <= k < |labels[j]| ==> labels[j][k] != '.'
    decreases |s|
  {
    var i := IndexOf(s, '.');
    if i == |s| then [s]
    else [s[..i]] + Split(s[i + 1..])
  }

  /**
   * Go's `strings.SplitN(s, ".", n)` for `n > 0`: at most `n` labels, the
   * last of which is the unsplit remainder.
   */
  function SplitN(s: string, n: nat): (labels: seq<string>)
    requires n >= 1
    ensures 1 <= |labels| <= n
    decreases n
  {
    var i := IndexOf(s, '.');
    if n == 1 || i == |s| then [s]
    else [s[..i]] + SplitN(s[i + 1..], n - 1)
  }

  /** Labels glued back together with dots, the inverse of splitting. */
  function Join(labels: seq<string>): (s: string)
    requires |labels| >= 1
  {
    if |labels| == 1 then labels[0]
    else labels[0] + "." + Join(labels[1..])
  }

  predicate IsLdh(c: char) {
    ('a' <= c <= 'z') || ('A' <= c <= 'Z') || ('0' <= c <= '9') || c == '-'
  }

  predicate IsDigitOrDot(c: char) {
    ('0' <= c <= '9') || c == '.'
  }

  /** The whole of `s` matches `^[a-zA-Z0-9-]*$`. */
  predicate MatchesLdh(s: string) {
    forall k :: 0 <= k < |s| ==> IsLdh(s[k])
  }

  /** The whole of `s` matches `^[0-9.]*$`. */
  predicate MatchesDigitsAndDots(s: string) {
    forall k :: 0 <= k < |s| ==> IsDigitOrDot(s[k])
  }

  /** The IDNA ACE prefix of section 5 of RFC 3490, compared case-sensitively. */
  predicate HasAcePrefix(dnsLabel: string) {
    |dnsLabel| >= 4 && dnsLabel[..4] == "xn--"
  }

  /** The checks of one label, in the order `forbiddenIdentifier` makes them. */
  predicate ForbiddenLabel(dnsLabel: string) {
    || |dnsLabel| < 1 || |dnsLabel| > MaxLabelLength
    || !MatchesLdh(dnsLabel)
    || dnsLabel[0] == '-'
    || HasAcePrefix(dnsLabel)
  }

  /** The label loop: true as soon as one label is forbidden. */
  predicate AnyForbiddenLabel(labels: seq<string>) {
    labels != [] && (ForbiddenLabel(labels[0]) || AnyForbiddenLabel(labels[1..]))
  }

  /** `forbiddenIdentifier`: the checks in the order it makes them. */
  predicate ForbiddenIdentifier(id: string) {
    var labels := SplitN(id, MaxLabels + 1);
    if |labels| < 2 || |labels| > MaxLabels then true
    else if AnyForbiddenLabel(labels) then true
    else if MatchesDigitsAndDots(id) then true
    else MatchesDigitsAndDots(labels[|labels| - 1])
  }

  // ---------------------------------------------------------------------
  // A reference definition of the names the policy admits, over the full
  // split of the name.

  predicate AllDigits(s: string) {
    forall k :: 0 <= k < |s| ==> '0' <= s[k] <= '9'
  }

  predicate AllowedLabel(dnsLabel: string) {
    && 1 <= |dnsLabel| <= MaxLabelLength
    && (forall k :: 0 <= k < |dnsLabel| ==> IsLdh(dnsLabel[k]))
    && dnsLabel[0] != '-'
    && !HasAcePrefix(dnsLabel)
  }

  /** Two to ten labels, each allowed, and a final label that is not all digits. */
  predicate AllowedName(id: string) {
    var labels := Split(id);
    && 2 <= |labels| <= MaxLabels
    && (forall j :: 0 <= j < |labels| ==> AllowedLabel(labels[j]))
    && !AllDigits(labels[|labels| - 1])
  }

  // ---------------------------------------------------------------------
  // Splitting

  lemma {:induction false} SplitJoin(s: string)
    ensures Join(Split(s)) == s
    decreases |s|
  {
    var i := IndexOf(s, '.');
    if i < |s| {
      var rest := Split(s[i + 1..]);
      SplitJoin(s[i + 1..]);
      assert Split(s) == [s[..i]] + rest;
      assert (Split(s))[1..] == rest;
      assert Join(Split(s)) == s[..i] + "." + Join(rest);
      assert s == s[..i] + "." + s[i + 1..];
    }
  }

  lemma {:induction false} SplitNJoin(s: string, n: nat)
    requires n >= 1
    ensures Join(SplitN(s, n)) == s
    decreases n
  {
    var i := IndexOf(s, '.');
    if n > 1 && i < |s| {
      var rest := SplitN(s[i + 1..], n - 1);
      SplitNJoin(s[i + 1..], n - 1);
      assert SplitN(s, n) == [s[..i]] + rest;
      assert (SplitN(s, n))[1..] == rest;
      assert Join(SplitN(s, n)) == s[..i] + "." + Join(rest);
      assert s == s[..i] + "." + s[i + 1..];
    }
  }

  /** `SplitN` agrees with the full split until the limit, and is cut at the limit. */
  lemma {:induction false} SplitNAgreesWithSplit(s: string, n: nat)
    requires n >= 1
    ensures |Split(s)| <= n ==> SplitN(s, n) == Split(s)
    ensures |Split(s)| > n ==> |SplitN(s, n)| == n
    decreases n
  {
    var i := IndexOf(s, '.');
    if i < |s| && n > 1 {
      SplitNAgreesWithSplit(s[i + 1..], n - 1);
    }
  }

  /** A name made of digits and dots splits into labels made of digits and dots. */
  lemma {:induction false} SplitNKeepsDigitsAndDots(s: string, n: nat)
    requires n >= 1
    requires MatchesDigitsAndDots(s)
    ensures forall j :: 0 <= j < |SplitN(s, n)| ==> MatchesDigitsAndDots(SplitN(s, n)[j])
    decreases n
  {
    var i := IndexOf(s, '.');
    if n > 1 && i < |s| {
      SplitNKeepsDigitsAndDots(s[i + 1..], n - 1);
      var labels := SplitN(s, n);
      assert labels == [s[..i]] + SplitN(s[i + 1..], n - 1);
      forall j | 0 <= j < |labels|
        ensures MatchesDigitsAndDots(labels[j])
      {
        if j > 0 {
          assert labels[j] == SplitN(s[i + 1..], n - 1)[j - 1];
        }
      }
    }
  }

  // ---------------------------------------------------------------------
  // The label loop

  lemma {:induction false} AnyForbiddenLabelIff(labels: seq<string>)
    ensures AnyForbiddenLabel(labels) <==> exists j :: 0 <= j < |labels| && ForbiddenLabel(labels[j])
  {
    if labels != [] {
      AnyForbiddenLabelIff(labels[1..]);
      if ForbiddenLabel(labels[0]) {
      } else if exists j :: 0 <= j < |labels| && ForbiddenLabel(labels[j]) {
        var j :| 0 <= j < |labels| && ForbiddenLabel(labels[j]);
        assert labels[1..][j - 1] == labels[j];
      } else {
        forall j | 0 <= j < |labels[1..]|
          ensures !ForbiddenLabel(labels[1..][j])
        {
          assert labels[1..][j] == labels[j + 1];
        }
      }
    }
  }

  // ---------------------------------------------------------------------
  // What the policy admits

  /**
   * The whole-name check against `^[0-9.]*$` never decides the outcome: a
   * name that reaches it with well-formed labels is rejected by the
   * final-label check anyway.
   */
  lemma WholeNameCheckIsRedundant(id: string)
    ensures var labels := SplitN(id, MaxLabels + 1);
      ForbiddenIdentifier(id) ==
        (|labels| < 2 || |labels| > MaxLabels || AnyForbiddenLabel(labels)
         || MatchesDigitsAndDots(labels[|labels| - 1]))
  {
    var labels := SplitN(id, MaxLabels + 1);
    if MatchesDigitsAndDots(id) {
      SplitNKeepsDigitsAndDots(id, MaxLabels + 1);
      assert MatchesDigitsAndDots(labels[|labels| - 1]);
    }
  }

  /** The policy admits a name exactly when the reference definition does. */
  lemma AllowedIff(id: string)
    ensures !ForbiddenIdentifier(id) <==> AllowedName(id)
  {
    var labels := SplitN(id, MaxLabels + 1);
    var full := Split(id);
    SplitNAgreesWithSplit(id, MaxLabels + 1);
    WholeNameCheckIsRedundant(id);
    if 2 <= |full| <= MaxLabels {
      assert labels == full;
      AnyForbiddenLabelIff(labels);
      var last := full[|full| - 1];
      assert (forall k :: 0 <= k < |last| ==> last[k] != '.');
      assert MatchesDigitsAndDots(last) <==> AllDigits(last);
      assert (forall j :: 0 <= j < |full| ==> AllowedLabel(full[j]))
        <==> !(exists j :: 0 <= j < |labels| && ForbiddenLabel(labels[j]));
    }
  }

  /** Fewer than two or more than ten labels: forbidden ("foo" is). */
  lemma LabelCountForbidden(id: string)
    requires |Split(id)| < 2 || |Split(id)| > MaxLabels
    ensures ForbiddenIdentifier(id)
  {
    AllowedIff(id);
  }

  /** A name is admitted only if every label passes every label check. */
  lemma AdmittedLabelsAreWellFormed(id: string, j: int)
    requires !ForbiddenIdentifier(id)
    requires 0 <= j < |Split(id)|
    ensures 1 <= |Split(id)[j]| <= MaxLabelLength
    ensures MatchesLdh(Split(id)[j])
    ensures Split(id)[j][0] != '-'
    ensures !HasAcePrefix(Split(id)[j])
  {
    AllowedIff(id);
  }

  /** An all-digit final label is forbidden ("foo.123" is). */
  lemma NumericFinalLabelForbidden(id: string)
    requires AllDigits(Split(id)[|Split(id)| - 1])
    ensures ForbiddenIdentifier(id)
  {
    AllowedIff(id);
  }

  /** A name of digits and dots only is forbidden ("192.168.1.1" is). */
  lemma NumericNameForbidden(id: string)
    requires MatchesDigitsAndDots(id)
    ensures ForbiddenIdentifier(id)
  {
    SplitNKeepsDigitsAndDots(id, MaxLabels + 1);
    WholeNameCheckIsRedundant(id);
  }

  /** A name with exactly one dot splits into the two sides of it. */
  lemma SplitOneDot(a: string, b: string)
    requires '.' !in a && '.' !in b
    ensures Split(a + "." + b) == [a, b]
  {
    var s := a + "." + b;
    assert s[|a|] == '.';
    assert forall k :: 0 <= k < |a| ==> s[k] == a[k];
    assert IndexOf(s, '.') == |a|;
    assert s[..|a|] == a && s[|a| + 1..] == b;
    assert IndexOf(b, '.') == |b|;
  }

  /** Two allowed labels, the second not all digits, make an admitted name. */
  lemma AdmitsTwoLabels(a: string, b: string)
    requires '.' !in a && '.' !in b
    requires AllowedLabel(a) && AllowedLabel(b) && !AllDigits(b)
    ensures !ForbiddenIdentifier(a + "." + b)
  {
    SplitOneDot(a, b);
    AllowedIff(a + "." + b);
  }

  /** "foo.com" is admitted. */
  lemma AdmitsPlainName()
    ensures !ForbiddenIdentifier("foo.com")
  {
    assert "foo.com" == "foo" + "." + "com";
    assert !AllDigits("com") by { assert !('0' <= "com"[0] <= '9'); }
    AdmitsTwoLabels("foo", "com");
  }

  /** "foo" has one label and is forbidden. */
  lemma ForbidsSingleLabel()
    ensures ForbiddenIdentifier("foo")
  {
    assert IndexOf("foo", '.') == 3;
    LabelCountForbidden("foo");
  }

  /** "192.168.1.1" looks like an IPv4 address and is forbidden. */
  lemma ForbidsAddressLiteral()
    ensures ForbiddenIdentifier("192.168.1.1")
  {
    var s := "192.168.1.1";
    forall k | 0 <= k < |s|
      ensures IsDigitOrDot(s[k])
    {
    }
    NumericNameForbidden(s);
  }

  /** "xn--abc.com" carries the ACE prefix and is forbidden. */
  lemma ForbidsAcePrefix()
    ensures ForbiddenIdentifier("xn--abc.com")
  {
    SplitOneDot("xn--abc", "com");
    assert "xn--abc.com" == "xn--abc" + "." + "com";
    assert HasAcePrefix("xn--abc");
    AllowedIff("xn--abc.com");
  }

  /** "-foo.com" starts a label with a hyphen and is forbidden. */
  lemma ForbidsLeadingHyphen()
    ensures ForbiddenIdentifier("-foo.com")
  {
    SplitOneDot("-foo", "com");
    assert "-foo.com" == "-foo" + "." + "com";
    AllowedIff("-foo.com");
  }

  /** "foo.123" ends in an all-digit label and is forbidden. */
  lemma ForbidsNumericFinalLabel()
    ensures ForbiddenIdentifier("foo.123")
  {
    SplitOneDot("foo", "123");
    assert "foo.123" == "foo" + "." + "123";
    NumericFinalLabelForbidden("foo.123");
  }

  /** Only a leading hyphen is checked, so "evil-.com" is admitted. */
  lemma AdmitsTrailingHyphen()
    ensures !ForbiddenIdentifier("evil-.com")
  {
    assert "evil-.com" == "evil-" + "." + "com";
    assert !AllDigits("com") by { assert !('0' <= "com"[0] <= '9'); }
    AdmitsTwoLabels("evil-", "com");
  }

  /** The ACE prefix is compared case-sensitively, so "XN--abc.com" is admitted. */
  lemma AdmitsUpperCaseAcePrefix()
    ensures !ForbiddenIdentifier("XN--abc.com")
  {
    assert "XN--abc.com" == "XN--abc" + "." + "com";
    assert !AllDigits("com") by { assert !('0' <= "com"[0] <= '9'); }
    assert !HasAcePrefix("XN--abc") by { assert "XN--abc"[..4] != "xn--" by { assert "XN--abc"[0] != 'x'; } }
    AdmitsTwoLabels("XN--abc", "com");
  }
}
