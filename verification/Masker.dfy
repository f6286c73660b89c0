/**
 * The masker that every broker rejection passes through before it reaches a receipt. All three
 * of its replacements put the same marker over spans of the text; what survives outside the
 * spans, and what a marker can form together with its surroundings, is settled once for all.
 */
module Masker {
  import opened Numerals
  import opened Text

  const REDACTED := "[redacted]"
  const INNER := "redacted"
  const MINIMUM_NEEDLE := 6

  // ----- occurrences -----

  predicate OccursAt(n: string, t: string, k: nat) {
    k + |n| <= |t| && t[k..k + |n|] == n
  }

  ghost predicate Occurs(n: string, t: string) {
    exists k: nat :: OccursAt(n, t, k)
  }

  lemma CharAt(n: string, t: string, k: nat, i: nat)
    requires OccursAt(n, t, k) && i < |n|
    ensures t[k + i] == n[i]
  {
    assert t[k + i] == t[k..k + |n|][i];
  }

  lemma Shift(n: string, a: string, b: string, k: nat)
    requires OccursAt(n, b, k)
    ensures OccursAt(n, a + b, |a| + k)
  {
    assert (a + b)[|a| + k..|a| + k + |n|] == b[k..k + |n|];
  }

  lemma Unshift(n: string, a: string, b: string, k: nat)
    requires OccursAt(n, a + b, k) && k >= |a|
    ensures OccursAt(n, b, k - |a|)
  {
    assert (a + b)[k..k + |n|] == b[k - |a|..k - |a| + |n|];
  }

  lemma Inside(n: string, m: string, t: string)
    requires Occurs(n, m) && Occurs(m, t)
    ensures Occurs(n, t)
  {
    var i: nat :| OccursAt(n, m, i);
    var k: nat :| OccursAt(m, t, k);
    forall x | 0 <= x < |n| ensures t[k + i + x] == n[x] {
      CharAt(m, t, k, i + x);
      CharAt(n, m, i, x);
    }
    assert OccursAt(n, t, k + i);
  }

  lemma InPrefix(n: string, t: string, k: nat)
    requires k <= |t| && Occurs(n, t[..k])
    ensures Occurs(n, t)
  {
    var i: nat :| OccursAt(n, t[..k], i);
    assert t[..k][i..i + |n|] == t[i..i + |n|];
    assert OccursAt(n, t, i);
  }

  // ----- replacing spans -----

  /** How many characters from the start of a text are to be replaced; zero when none. */
  type Matcher = string -> nat

  predicate Matches(f: Matcher, t: string) {
    0 < f(t) <= |t|
  }

  /** Every leftmost, non-overlapping match becomes the marker. */
  function Substitute(t: string, f: Matcher): string
    decreases |t|
  {
    if t == "" then ""
    else if Matches(f, t) then REDACTED + Substitute(t[f(t)..], f)
    else [t[0]] + Substitute(t[1..], f)
  }

  /** Laid over each other at this offset, needle and marker agree wherever they overlap. */
  predicate AgreesAt(n: string, d: int) {
    forall i | 0 <= i < |n| && 0 <= i - d < |REDACTED| :: n[i] == REDACTED[i - d]
  }

  /** Some occurrence of the needle could share characters with a marker. */
  ghost predicate Entangled(n: string) {
    exists d: int :: -|REDACTED| < d < |n| && AgreesAt(n, d)
  }

  /** A needle that no marker can take part in. */
  ghost predicate Safe(n: string) {
    n != "" && !Entangled(n)
  }

  predicate Bracketless(n: string) {
    '[' !in n && ']' !in n
  }

  lemma BracketDisagrees(n: string, d: int, i: nat)
    requires Bracketless(n) && i < |n| && (i == d || i == d + 9)
    ensures !AgreesAt(n, d)
  {
    assert n[i] in n && n[i] != REDACTED[i - d];
  }

  /** A needle without brackets is entangled exactly when it is part of the word in the marker. */
  lemma BracketlessEntangled(n: string)
    requires n != "" && Bracketless(n)
    ensures Entangled(n) <==> Occurs(n, INNER)
  {
    if d: int :| -|REDACTED| < d < |n| && AgreesAt(n, d) {
      if d >= 0 {
        BracketDisagrees(n, d, d);
      }
      if d + 9 < |n| {
        BracketDisagrees(n, d, d + 9);
      }
      forall i | 0 <= i < |n| ensures n[i] == INNER[i - d - 1] {
        assert n[i] == REDACTED[i - d];
      }
      assert OccursAt(n, INNER, -d - 1);
    }
    if k: nat :| OccursAt(n, INNER, k) {
      forall i | 0 <= i < |n| ensures n[i] == REDACTED[i + k + 1] {
        CharAt(n, INNER, k, i);
      }
      assert AgreesAt(n, 0 - (k + 1));
    }
  }

  /** The start of an output was copied, or else a marker begins in it. */
  lemma {:induction false} CopiedOrMarker(t: string, f: Matcher, m: nat) returns (p: int)
    requires m <= |Substitute(t, f)|
    ensures p == -1 || (0 <= p < m && REDACTED <= Substitute(t, f)[p..])
    ensures p == -1 ==> m <= |t| && Substitute(t, f)[..m] == t[..m]
    decreases |t|
  {
    if m == 0 {
      p := -1;
    } else if Matches(f, t) {
      p := 0;
    } else {
      var rest := Substitute(t[1..], f);
      p := CopiedOrMarker(t[1..], f, m - 1);
      assert Substitute(t, f) == [t[0]] + rest;
      if p >= 0 {
        assert Substitute(t, f)[p + 1..] == rest[p..];
        p := p + 1;
      } else {
        assert Substitute(t, f)[..m] == [t[0]] + rest[..m - 1];
        assert t[..m] == [t[0]] + t[1..][..m - 1];
      }
    }
  }

  /** No needle reaches into a marker from before it. */
  lemma NoMarkerAhead(n: string, out: string, p: nat)
    requires Safe(n) && OccursAt(n, out, 0) && p < |n| && p <= |out|
    ensures !(REDACTED <= out[p..])
  {
    if REDACTED <= out[p..] {
      forall i | 0 <= i < |n| && 0 <= i - p < |REDACTED| ensures n[i] == REDACTED[i - p] {
        CharAt(n, out, 0, i);
        assert out[p..][i - p] == out[i];
      }
      assert AgreesAt(n, p);
    }
  }

  /** Nor from within it. */
  lemma MarkerIsolates(n: string, rest: string, k: nat)
    requires Safe(n) && OccursAt(n, REDACTED + rest, k)
    ensures k >= |REDACTED|
  {
    if k < |REDACTED| {
      forall i | 0 <= i < |n| && 0 <= i + k < |REDACTED| ensures n[i] == REDACTED[i + k] {
        CharAt(n, REDACTED + rest, k, i);
      }
      assert AgreesAt(n, 0 - k);
    }
  }

  /** Every occurrence of a safe needle in the output was copied from an occurrence in the input
      at which the matcher found nothing. */
  lemma {:induction false} Survivor(t: string, f: Matcher, n: string, k: nat) returns (j: nat)
    requires Safe(n) && OccursAt(n, Substitute(t, f), k)
    ensures OccursAt(n, t, j) && !Matches(f, t[j..])
    decreases |t|
  {
    if Matches(f, t) {
      var m := f(t);
      MarkerIsolates(n, Substitute(t[m..], f), k);
      Unshift(n, REDACTED, Substitute(t[m..], f), k);
      var i := Survivor(t[m..], f, n, k - |REDACTED|);
      Shift(n, t[..m], t[m..], i);
      assert t[..m] + t[m..] == t && t[m..][i..] == t[m + i..];
      j := m + i;
    } else if k > 0 {
      Unshift(n, [t[0]], Substitute(t[1..], f), k);
      var i := Survivor(t[1..], f, n, k - 1);
      Shift(n, t[..1], t[1..], i);
      assert t[..1] + t[1..] == t && t[1..][i..] == t[1 + i..];
      j := 1 + i;
    } else {
      var p := CopiedOrMarker(t, f, |n|);
      if p >= 0 {
        NoMarkerAhead(n, Substitute(t, f), p);
      }
      assert t[0..] == t;
      j := 0;
    }
  }

  /** Replacing anything never creates a safe needle. */
  lemma StaysAbsent(t: string, f: Matcher, n: string)
    requires Safe(n) && !Occurs(n, t)
    ensures !Occurs(n, Substitute(t, f))
  {
    if Occurs(n, Substitute(t, f)) {
      var k: nat :| OccursAt(n, Substitute(t, f), k);
      var j := Survivor(t, f, n, k);
    }
  }

  lemma {:induction false} Untouched(t: string, f: Matcher)
    requires forall j: nat | j < |t| :: !Matches(f, t[j..])
    ensures Substitute(t, f) == t
    decreases |t|
  {
    if t != "" {
      assert t[0..] == t;
      forall j: nat | j < |t[1..]| ensures !Matches(f, t[1..][j..]) {
        assert t[1..][j..] == t[1 + j..];
      }
      Untouched(t[1..], f);
    }
  }

  ghost predicate Catches(f: Matcher, n: string) {
    forall s :: n <= s ==> Matches(f, s)
  }

  /** Replacing everything that starts with a safe needle removes the needle. */
  lemma Removes(t: string, f: Matcher, n: string)
    requires Safe(n) && Catches(f, n)
    ensures !Occurs(n, Substitute(t, f))
  {
    if Occurs(n, Substitute(t, f)) {
      var k: nat :| OccursAt(n, Substitute(t, f), k);
      var j := Survivor(t, f, n, k);
    }
  }

  // ----- the three matchers -----

  /** strings.ReplaceAll's: the needle itself. */
  function Needle(n: string): Matcher {
    s => if n <= s then |n| else 0
  }

  function RunLength(s: string, inClass: char -> bool): (k: nat)
    ensures k <= |s| && forall i | 0 <= i < k :: inClass(s[i])
    ensures k < |s| ==> !inClass(s[k])
  {
    if s != "" && inClass(s[0]) then 1 + RunLength(s[1..], inClass) else 0
  }

  lemma RunCovers(s: string, n: string, inClass: char -> bool)
    requires n <= s && forall i | 0 <= i < |n| :: inClass(n[i])
    ensures RunLength(s, inClass) >= |n|
  {
    assert forall i | 0 <= i < |n| :: inClass(s[i]);
  }

  /** Eight digits, a dash and two digits; or else a run of at least eight digits. */
  function AccountShape(s: string): nat {
    if |s| >= 11 && AllDigits(s[..8]) && s[8] == '-' && IsDigit(s[9]) && IsDigit(s[10]) then 11
    else
      var k := RunLength(s, IsDigit);
      if k >= 8 then k else 0
  }

  predicate TokenChar(c: char) {
    'A' <= c <= 'Z' || 'a' <= c <= 'z' || IsDigit(c) || c == '_' || c == '-'
  }

  /** A run of at least twenty-four token characters. */
  function CredentialShape(s: string): nat {
    var k := RunLength(s, TokenChar);
    if k >= 24 then k else 0
  }

  predicate DigitRun(n: string) {
    |n| == 8 && AllDigits(n)
  }

  predicate CredentialRun(n: string) {
    |n| == 24 && forall i | 0 <= i < |n| :: TokenChar(n[i])
  }

  lemma AccountCatches(n: string)
    requires DigitRun(n)
    ensures Safe(n) && Catches(AccountShape, n)
  {
    forall d: int | -|REDACTED| < d < |n| ensures !AgreesAt(n, d) {
      var i := if d < 0 then 0 else d;
      assert IsDigit(n[i]) && !IsDigit(REDACTED[i - d]);
    }
    forall s | n <= s ensures Matches(AccountShape, s) {
      RunCovers(s, n, IsDigit);
    }
  }

  lemma CredentialCatches(n: string)
    requires CredentialRun(n)
    ensures Safe(n) && Catches(CredentialShape, n)
  {
    forall d: int | -|REDACTED| < d < |n| ensures !AgreesAt(n, d) {
      var i := if d < 0 then d + 9 else d;
      assert TokenChar(n[i]) && !TokenChar(REDACTED[i - d]);
    }
    forall s | n <= s ensures Matches(CredentialShape, s) {
      RunCovers(s, n, TokenChar);
    }
  }

  lemma AccountStarts(s: string)
    requires Matches(AccountShape, s)
    ensures |s| >= 8 && DigitRun(s[..8])
  {
  }

  lemma CredentialStarts(s: string)
    requires Matches(CredentialShape, s)
    ensures |s| >= 24 && CredentialRun(s[..24])
  {
  }

  lemma PrefixOccurs(n: string, t: string, j: nat)
    requires j <= |t| && n <= t[j..]
    ensures OccursAt(n, t, j) && Occurs(n, t)
  {
    assert t[j..][..|n|] == t[j..j + |n|];
    assert OccursAt(n, t, j);
  }

  // ----- masking -----

  function Cut(t: string, maxRunes: nat): string {
    if |t| > maxRunes then t[..maxRunes] else t
  }

  ghost predicate Clean(t: string, needles: seq<string>) {
    forall n | n in needles && Safe(n) :: !Occurs(n, t)
  }

  /** The masker built from the configuration. It keeps its needles in the order they are replaced. */
  datatype SecretMasker = SecretMasker(exact: seq<string>) {

    function Masked(text: string, count: nat): string
      requires count <= |exact|
    {
      if count == 0 then text else Substitute(Masked(text, count - 1), Needle(exact[count - 1]))
    }

    function FullyMasked(text: string): string {
      Substitute(Substitute(Masked(text, |exact|), AccountShape), CredentialShape)
    }

    /** A text that holds no secret and no secret-shaped run is reported as it is. */
    lemma HarmlessTextIsKept(text: string)
      requires forall n | n in exact :: n != "" && !Occurs(n, text)
      requires forall n | DigitRun(n) || CredentialRun(n) :: !Occurs(n, text)
      ensures FullyMasked(text) == text
    {
      NeedlesMiss(text, |exact|);
      hide AccountShape, CredentialShape, OccursAt;
      forall j: nat | j < |text| ensures !Matches(AccountShape, text[j..]) {
        if Matches(AccountShape, text[j..]) {
          AccountStarts(text[j..]);
          PrefixOccurs(text[j..][..8], text, j);
        }
      }
      Untouched(text, AccountShape);
      forall j: nat | j < |text| ensures !Matches(CredentialShape, text[j..]) {
        if Matches(CredentialShape, text[j..]) {
          CredentialStarts(text[j..]);
          PrefixOccurs(text[j..][..24], text, j);
        }
      }
      Untouched(text, CredentialShape);
    }

    lemma {:induction false} NeedlesMiss(text: string, count: nat)
      requires count <= |exact| && forall n | n in exact :: n != "" && !Occurs(n, text)
      ensures Masked(text, count) == text
    {
      if count > 0 {
        NeedlesMiss(text, count - 1);
        var n := exact[count - 1];
        forall j: nat | j < |text| ensures !Matches(Needle(n), text[j..]) {
          if Matches(Needle(n), text[j..]) {
            PrefixOccurs(n, text, j);
          }
        }
        Untouched(text, Needle(n));
      }
    }

    lemma {:induction false} MaskedIsClean(text: string, count: nat)
      requires count <= |exact|
      ensures Clean(Masked(text, count), exact[..count])
    {
      if count > 0 {
        MaskedIsClean(text, count - 1);
        var was, last := Masked(text, count - 1), exact[count - 1];
        forall n | n in exact[..count] && Safe(n) ensures !Occurs(n, Masked(text, count)) {
          if n == last {
            Removes(was, Needle(n), n);
          } else {
            assert n in exact[..count - 1];
            StaysAbsent(was, Needle(last), n);
          }
        }
      }
    }

    /** maskNeedles: no configured secret is left, whichever other secrets are replaced after it. */
    method MaskNeedles(text: string) returns (value: string)
      ensures value == Masked(text, |exact|)
      ensures Clean(value, exact)
    {
      value := text;
      for i := 0 to |exact|
        invariant value == Masked(text, i)
      {
        value := Substitute(value, Needle(exact[i]));
      }
      MaskedIsClean(text, |exact|);
      assert exact[..|exact|] == exact;
    }

    /** maskedCodeField: codes lose the configured secrets only. */
    method MaskCode(text: string, maxRunes: nat) returns (value: string)
      ensures Clean(value, exact) && |value| <= maxRunes
      ensures value == Cut(Masked(text, |exact|), maxRunes)
      ensures value <= Masked(text, |exact|) && (|Masked(text, |exact|)| <= maxRunes ==> value == Masked(text, |exact|))
      ensures |Masked(text, |exact|)| > maxRunes ==> |value| == maxRunes
    {
      var masked := MaskNeedles(text);
      value := Cut(masked, maxRunes);
      forall n | !Occurs(n, masked) ensures !Occurs(n, value) {
        if |masked| > maxRunes && Occurs(n, value) {
          InPrefix(n, masked, maxRunes);
        }
      }
    }

    /** maskText: besides, no run of eight digits and none of twenty-four token characters is left,
        and the bound on the length keeps all of this. */
    method MaskText(text: string, maxRunes: nat) returns (value: string)
      ensures value == Cut(FullyMasked(text), maxRunes)
      ensures value <= FullyMasked(text) && (|FullyMasked(text)| <= maxRunes ==> value == FullyMasked(text))
      ensures |FullyMasked(text)| > maxRunes ==> |value| == maxRunes
      ensures Clean(value, exact) && |value| <= maxRunes
      ensures forall n | DigitRun(n) || CredentialRun(n) :: !Occurs(n, value)
    {
      value := MaskNeedles(text);
      var digitsGone := Substitute(value, AccountShape);
      var allGone := Substitute(digitsGone, CredentialShape);
      forall n | n in exact && Safe(n) ensures !Occurs(n, allGone) {
        StaysAbsent(value, AccountShape, n);
        StaysAbsent(digitsGone, CredentialShape, n);
      }
      forall n | DigitRun(n) || CredentialRun(n) ensures !Occurs(n, allGone) {
        if DigitRun(n) {
          AccountCatches(n);
          Removes(value, AccountShape, n);
          StaysAbsent(digitsGone, CredentialShape, n);
        } else {
          CredentialCatches(n);
          Removes(digitsGone, CredentialShape, n);
        }
      }
      value := Cut(allGone, maxRunes);
      forall n | !Occurs(n, allGone) ensures !Occurs(n, value) {
        if |allGone| > maxRunes && Occurs(n, value) {
          InPrefix(n, allGone, maxRunes);
        }
      }
    }
  }

  // ----- exactly which needles work -----

  /** A part of the marker, once there, stays: any replacement leaves a marker behind. */
  lemma {:induction false} MarkerPartStays(t: string, f: Matcher, n: string)
    requires Occurs(n, REDACTED) && Occurs(n, t)
    ensures Occurs(n, Substitute(t, f))
  {
    if Occurs(REDACTED, Substitute(t, f)) {
      Inside(n, REDACTED, Substitute(t, f));
    } else {
      NoMarkerNoChange(t, f);
    }
  }

  lemma {:induction false} NoMarkerNoChange(t: string, f: Matcher)
    requires !Occurs(REDACTED, Substitute(t, f))
    ensures Substitute(t, f) == t
    decreases |t|
  {
    if t != "" {
      if Matches(f, t) {
        assert OccursAt(REDACTED, Substitute(t, f), 0);
      } else {
        var rest := Substitute(t[1..], f);
        if Occurs(REDACTED, rest) {
          var k: nat :| OccursAt(REDACTED, rest, k);
          Shift(REDACTED, [t[0]], rest, k);
        }
        NoMarkerNoChange(t[1..], f);
      }
    }
  }

  lemma {:induction false} MarkerPartRemains(m: SecretMasker, n: string, count: nat)
    requires count <= |m.exact| && Occurs(n, REDACTED)
    ensures Occurs(n, m.Masked(n, count))
  {
    if count == 0 {
      assert OccursAt(n, n, 0);
    } else {
      MarkerPartRemains(m, n, count - 1);
      MarkerPartStays(m.Masked(n, count - 1), Needle(m.exact[count - 1]), n);
    }
  }

  ghost predicate LeavesNone(m: SecretMasker, text: string) {
    forall n | n in m.exact :: !Occurs(n, m.Masked(text, |m.exact|))
  }

  lemma WordInMarker(n: string)
    requires Occurs(n, INNER)
    ensures Occurs(n, REDACTED)
  {
    assert OccursAt(INNER, REDACTED, 1);
    Inside(n, INNER, REDACTED);
  }

  /** With needles that have no brackets, that are part of the marker or that no marker can take part
      in, masking removes every one of them from every text exactly when none is part of the marker. */
  lemma MaskingIsExact(m: SecretMasker)
    requires forall n | n in m.exact :: n != "" && (Bracketless(n) || Occurs(n, REDACTED) || Safe(n))
    ensures (forall text :: LeavesNone(m, text)) <==> (forall n | n in m.exact :: !Occurs(n, REDACTED))
  {
    if n :| n in m.exact && Occurs(n, REDACTED) {
      MarkerPartRemains(m, n, |m.exact|);
      assert !LeavesNone(m, n);
    } else {
      forall n | n in m.exact ensures Safe(n) {
        if Bracketless(n) {
          BracketlessEntangled(n);
          if Occurs(n, INNER) {
            WordInMarker(n);
          }
        }
      }
      forall text ensures LeavesNone(m, text) {
        SafeNeedlesGo(m, text);
      }
    }
  }

  /** Needles of any kind, brackets or not, are removed from every text when no marker can take
      part in them. */
  lemma SafeNeedlesGo(m: SecretMasker, text: string)
    requires forall n | n in m.exact :: Safe(n)
    ensures LeavesNone(m, text)
  {
    m.MaskedIsClean(text, |m.exact|);
    assert m.exact[..|m.exact|] == m.exact;
  }

  /** A needle that starts with an end of the marker always can come back: the marker and what
      follows it make up the needle. */
  lemma MarkerEndReturns(head: string, start: string, rest: string)
    requires head + start == REDACTED && start != ""
    ensures var n := start + rest; Occurs(n, Substitute(n + rest, Needle(n)))
  {
    var n := start + rest;
    ReplacesOnce(n, rest);
    hide Substitute, Needle;
    assert head + start + rest == head + n;
    assert OccursAt(n, n, 0);
    Shift(n, head, n, 0);
  }

  /** A needle and less than a needle become a marker and the rest. */
  lemma ReplacesOnce(n: string, rest: string)
    requires |rest| < |n|
    ensures Substitute(n + rest, Needle(n)) == REDACTED + rest
  {
    var t := n + rest;
    assert n <= t && Matches(Needle(n), t) && t[|n|..] == rest;
    Untouched(rest, Needle(n));
  }

  lemma {:induction false} Passes(p: string, u: string, f: Matcher)
    requires forall j | 0 <= j < |p| :: !Matches(f, (p + u)[j..])
    ensures Substitute(p + u, f) == p + Substitute(u, f)
    decreases |p|
  {
    if p == "" {
      assert p + u == u;
    } else {
      assert (p + u)[0..] == p + u && (p + u)[1..] == p[1..] + u;
      forall j | 0 <= j < |p[1..]| ensures !Matches(f, (p[1..] + u)[j..]) {
        assert (p[1..] + u)[j..] == (p + u)[j + 1..];
      }
      Passes(p[1..], u, f);
    }
  }

  /** So can a needle whose first opening bracket could be a marker's: what stands before the bracket,
      the marker and what follows it make up the needle. */
  lemma BracketReturns(n: string, d: nat)
    requires d < |n| && '[' !in n[..d] && AgreesAt(n, d)
    ensures exists text :: Occurs(n, Substitute(text, Needle(n)))
  {
    var before, after := n[..d], if d + 10 < |n| then n[d + 10..] else "";
    NoEarlierMatch(n, d, after);
    Passes(before, n + after, Needle(n));
    ReplacesOnce(n, after);
    MarkerCompletes(n, d);
    hide Substitute, Needle, Occurs;
    assert Occurs(n, Substitute(before + (n + after), Needle(n)));
  }

  lemma NoEarlierMatch(n: string, d: nat, after: string)
    requires d < |n| && '[' !in n[..d] && AgreesAt(n, d)
    ensures forall j | 0 <= j < d :: !Matches(Needle(n), (n[..d] + (n + after))[j..])
  {
    var t := n[..d] + (n + after);
    assert n[d] == REDACTED[d - d];
    forall j | 0 <= j < d ensures !Matches(Needle(n), t[j..]) {
      assert t[j..][d] == t[j + d] == n[j] && n[j] in n[..d];
    }
  }

  lemma MarkerCompletes(n: string, d: nat)
    requires d < |n| && AgreesAt(n, d)
    ensures var after := if d + 10 < |n| then n[d + 10..] else ""; Occurs(n, n[..d] + (REDACTED + after))
  {
    var after := if d + 10 < |n| then n[d + 10..] else "";
    var out := n[..d] + (REDACTED + after);
    forall i | 0 <= i < |n| ensures out[i] == n[i] {
      if d <= i < d + 10 {
        assert n[i] == REDACTED[i - d];
      }
    }
    assert OccursAt(n, out, 0);
  }

  /** For one needle with no more than one opening bracket the condition is exact: replacing it removes
      it from every text if and only if no marker can take part in it. */
  lemma OneNeedleIsExact(n: string)
    requires n != "" && forall i, j | 0 <= i < j < |n| :: n[i] != '[' || n[j] != '['
    ensures (forall text :: !Occurs(n, Substitute(text, Needle(n)))) <==> Safe(n)
  {
    if d: int :| -|REDACTED| < d < |n| && AgreesAt(n, d) {
      if d >= 0 {
        assert n[d] == REDACTED[d - d];
        BracketReturns(n, d);
      } else {
        EndReturns(n, -d);
      }
    } else {
      forall text ensures !Occurs(n, Substitute(text, Needle(n))) {
        Removes(text, Needle(n), n);
      }
    }
  }

  /** A needle that a marker could run into returns. */
  lemma EndReturns(n: string, k: int)
    requires n != "" && 0 < k < |REDACTED| && AgreesAt(n, -k)
    ensures exists text :: Occurs(n, Substitute(text, Needle(n)))
  {
    StartAgrees(n, k);
    hide Substitute, Needle, AgreesAt;
    var start := REDACTED[k..];
    if |n| <= |start| {
      assert OccursAt(n, REDACTED, k) && OccursAt(n, n, 0);
      MarkerPartStays(n, Needle(n), n);
    } else {
      assert n == start + n[|start|..] && REDACTED[..k] + start == REDACTED;
      hide Occurs;
      MarkerEndReturns(REDACTED[..k], start, n[|start|..]);
    }
  }

  lemma StartAgrees(n: string, k: int)
    requires 0 < k < |REDACTED| && AgreesAt(n, -k)
    ensures if |n| <= |REDACTED| - k then n == REDACTED[k..k + |n|] else n[..|REDACTED| - k] == REDACTED[k..]
  {
    forall i | 0 <= i < |n| && i < |REDACTED| - k ensures n[i] == REDACTED[k + i] {
      assert n[i] == REDACTED[i - (-k)];
    }
  }

  /** A needle with a bracket can come back: its own marker completes it. */
  lemma BracketNeedleReturns()
    ensures var n := "x[reda"; OccursAt(n, SecretMasker([n]).Masked("xx[reda", 1), 0)
  {
    var n, f := "x[reda", Needle("x[reda");
    var t := "xx[reda";
    assert t[1..] == n && n[|n|..] == "";
    assert t[0] == 'x' && t[1] == 'x' && n[1] == '[';
    assert !Matches(f, t);
    assert Substitute(n, f) == REDACTED + Substitute("", f);
    assert Substitute(t, f) == "x" + REDACTED;
  }

  // ----- building the masker -----

  lemma {:induction false} TrimmedOccurs(s: string)
    ensures Occurs(TrimSpace(s), s)
  {
    if s != "" && IsSpace(s[|s| - 1]) {
      TrimmedOccurs(s[..|s| - 1]);
      InPrefix(TrimSpace(s), s, |s| - 1);
    } else {
      LeftTrimmedOccurs(s);
    }
  }

  lemma {:induction false} LeftTrimmedOccurs(s: string)
    ensures Occurs(TrimLeft(s), s)
  {
    if s != "" && IsSpace(s[0]) {
      LeftTrimmedOccurs(s[1..]);
      var k: nat :| OccursAt(TrimLeft(s), s[1..], k);
      Shift(TrimLeft(s), s[..1], s[1..], k);
      assert s[..1] + s[1..] == s;
    } else {
      assert OccursAt(s, s, 0);
    }
  }

  /** The eight-digit account and two-digit product of an account number in any accepted spelling. */
  function SplitAccountNo(value: string): (r: (string, string, bool))
    ensures r.2 ==> DigitRun(r.0) && |r.1| == 2 && AllDigits(r.1)
  {
    var trimmed := TrimSpace(value);
    var cleaned := if |trimmed| == 11 && trimmed[8] == '-' then trimmed[..8] + trimmed[9..] else trimmed;
    if |cleaned| == 8 && AllDigits(cleaned) then (cleaned, "01", true)
    else if |cleaned| == 10 && AllDigits(cleaned) then (cleaned[..8], cleaned[8..], true)
    else ("", "", false)
  }

  datatype Config = Config(appKey: string, appSecret: string, accountNo: string)

  /** Every text the masker is asked to hide: keys, token and each spelling of the account. */
  function Candidates(config: Config, token: string): seq<string> {
    var (cano, product, ok) := SplitAccountNo(config.accountNo);
    [config.appKey, config.appSecret, token, config.accountNo]
    + if ok then [cano, cano + "-" + product, cano + product] else []
  }

  /** The account numbers an account number can be spelled from. */
  predicate Account(cano: string, product: string) {
    |cano| == 8 && AllDigits(cano) && |product| == 2 && AllDigits(product)
  }

  /** The secrets are both keys, the token, the account number as configured and, whichever way it was
      configured, its eight digits alone and with the product, dashed or not; and nothing else. */
  lemma SecretsAre(config: Config, token: string, cano: string, product: string, c: string)
    requires Account(cano, product)
    ensures c in [config.appKey, config.appSecret, token, config.accountNo] ==> c in Candidates(config, token)
    ensures TrimSpace(config.accountNo) in [cano + product, cano + "-" + product]
            || (TrimSpace(config.accountNo) == cano && product == "01") ==>
              (c in Candidates(config, token) <==>
                 c in [config.appKey, config.appSecret, token, config.accountNo, cano, cano + product,
                       cano + "-" + product])
  {
    var trimmed := TrimSpace(config.accountNo);
    if trimmed == cano + "-" + product {
      assert trimmed[..8] + trimmed[9..] == cano + product;
    }
    if trimmed == cano + product || trimmed == cano + "-" + product {
      assert (cano + product)[..8] == cano && (cano + product)[8..] == product;
    }
  }

  /** An account number in the text leaves one marker, dashed or not, and so does a run of token
      characters of any length from twenty-four. */
  lemma ShapesLeaveOneMarker(cano: string, product: string, token: string)
    requires Account(cano, product) && |token| >= 24 && forall i | 0 <= i < |token| :: TokenChar(token[i])
    ensures Substitute(cano + "-" + product, AccountShape) == REDACTED
    ensures Substitute(cano + product, AccountShape) == REDACTED
    ensures Substitute(token, CredentialShape) == REDACTED
  {
    var dashed, plain := cano + "-" + product, cano + product;
    assert dashed[..8] == cano && dashed[11..] == "";
    RunCovers(plain, plain, IsDigit);
    assert plain[10..] == "";
    RunCovers(token, token, TokenChar);
    assert token[|token|..] == "";
  }

  /** A text becomes a needle when it is long enough to be unambiguous. */
  ghost predicate Kept(n: string, candidates: seq<string>) {
    exists c :: c in candidates && n == TrimSpace(c) && Bytes(n) >= MINIMUM_NEEDLE
  }

  lemma KeptAppend(n: string, candidates: seq<string>, c: string)
    ensures Kept(n, candidates + [c]) <==> Kept(n, candidates) || (n == TrimSpace(c) && Bytes(n) >= MINIMUM_NEEDLE)
  {
    assert forall x | x in candidates :: x in candidates + [c];
    assert c in candidates + [c];
  }

  predicate Descending(s: seq<string>) {
    forall i, j | 0 <= i < j < |s| :: Bytes(s[i]) >= Bytes(s[j])
  }

  method NewSecretMasker(config: Config, token: string) returns (masker: SecretMasker)
    ensures forall n :: n in masker.exact <==> Kept(n, Candidates(config, token))
    ensures Descending(masker.exact)
  {
    var candidates := Candidates(config, token);
    assert forall n :: !Kept(n, candidates[..0]);
    hide Kept, Candidates, TrimSpace, Bytes;
    var secrets: seq<string> := [];
    for i := 0 to |candidates|
      invariant forall n :: n in secrets <==> Kept(n, candidates[..i])
    {
      forall n {
        KeptAppend(n, candidates[..i], candidates[i]);
      }
      assert candidates[..i + 1] == candidates[..i] + [candidates[i]];
      var candidate := TrimSpace(candidates[i]);
      if Bytes(candidate) >= MINIMUM_NEEDLE {
        secrets := secrets + [candidate];
      }
    }
    assert candidates[..|candidates|] == candidates;
    var sorted := SortByLength(secrets);
    forall n ensures n in sorted <==> n in secrets {
      SameMembers(sorted, secrets, n);
    }
    masker := SecretMasker(sorted);
  }

  lemma InsertKeepsOrder(sorted: seq<string>, at: nat, x: string)
    requires Descending(sorted) && at <= |sorted|
    requires forall k | 0 <= k < at :: Bytes(sorted[k]) >= Bytes(x)
    requires at < |sorted| ==> Bytes(sorted[at]) < Bytes(x)
    ensures Descending(sorted[..at] + [x] + sorted[at..])
  {
    hide Bytes;
    var t := sorted[..at] + [x] + sorted[at..];
    forall i, j | 0 <= i < j < |t| ensures Bytes(t[i]) >= Bytes(t[j]) {
      var p, q := if i < at then i else i - 1, if j < at then j else j - 1;
      if i != at && j != at {
        assert Bytes(sorted[p]) >= Bytes(sorted[q]);
      } else if i == at {
        assert Bytes(sorted[at]) >= Bytes(sorted[q]);
      }
    }
  }

  method Insert(sorted: seq<string>, x: string) returns (t: seq<string>)
    requires Descending(sorted)
    ensures Descending(t) && multiset(t) == multiset(sorted) + multiset{x}
  {
    hide Bytes;
    var at := 0;
    while at < |sorted| && Bytes(sorted[at]) >= Bytes(x)
      invariant 0 <= at <= |sorted|
      invariant forall k | 0 <= k < at :: Bytes(sorted[k]) >= Bytes(x)
    {
      at := at + 1;
    }
    InsertKeepsOrder(sorted, at, x);
    hide Descending;
    assert sorted == sorted[..at] + sorted[at..];
    t := sorted[..at] + [x] + sorted[at..];
  }

  /** sort.Slice by descending length; the order of equally long secrets is not relied on. */
  method SortByLength(secrets: seq<string>) returns (sorted: seq<string>)
    ensures Descending(sorted) && multiset(sorted) == multiset(secrets)
  {
    hide Bytes;
    sorted := [];
    for i := 0 to |secrets|
      invariant Descending(sorted) && multiset(sorted) == multiset(secrets[..i])
    {
      hide Descending;
      assert secrets[..i + 1] == secrets[..i] + [secrets[i]];
      sorted := Insert(sorted, secrets[i]);
    }
    assert secrets[..|secrets|] == secrets;
  }

  lemma SameMembers(s: seq<string>, t: seq<string>, n: string)
    requires multiset(s) == multiset(t)
    ensures n in s <==> n in t
  {
    assert n in s <==> n in multiset(s);
    assert n in t <==> n in multiset(t);
  }

  /** A configured secret never reaches a receipt: neither as configured, nor trimmed, nor, for the
      account number, in any of its spellings, if it is long enough and no marker can take part in it. */
  method MaskForReceipt(config: Config, token: string, text: string, maxRunes: nat) returns (value: string)
    ensures forall c | c in Candidates(config, token) && Bytes(TrimSpace(c)) >= 6 && Safe(TrimSpace(c)) ::
              !Occurs(c, value)
    ensures forall n | DigitRun(n) || CredentialRun(n) :: !Occurs(n, value)
    ensures |value| <= maxRunes
  {
    var masker := NewSecretMasker(config, token);
    value := masker.MaskText(text, maxRunes);
    forall c | c in Candidates(config, token) && Bytes(TrimSpace(c)) >= MINIMUM_NEEDLE && Safe(TrimSpace(c))
      ensures !Occurs(c, value)
    {
      assert TrimSpace(c) in masker.exact;
      TrimmedOccurs(c);
      if Occurs(c, value) {
        Inside(TrimSpace(c), c, value);
      }
    }
  }
}
