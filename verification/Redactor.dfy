/** The redactor: each scan as the loop it is, and the pipeline of all of them. */
module Redactor {
  import opened Text
  import opened RedactionRules
  import opened RedactionGuarantees
  import opened EnvAssignments
  import opened EnvProtection
  import opened RedactionLoops

  /** The scans after the assignment scan, in their order. */
  const SCANS: seq<Rule> := [
    AwsKey,
    PrefixedToken("ghp_", 24),
    PrefixedToken("glpat-", 24),
    PrefixedToken("sk-", 24),
    PemBlock,
    KeyValue("token="),
    KeyValue("TOKEN="),
    KeyValue("password="),
    KeyValue("PASSWORD="),
    KeyValue("secret="),
    KeyValue("SECRET=")
  ]

  const MARKERS: seq<string> := ["token=", "TOKEN=", "password=", "PASSWORD=", "secret=", "SECRET="]

  /** The last six scans are those for the markers. */
  lemma MarkerScans(k: nat)
    requires k < 6
    ensures |SCANS| == 11 && |MARKERS| == 6
    ensures KeyValue(MARKERS[k]).Valid() && SCANS[5 + k] == KeyValue(MARKERS[k])
  {
  }

  predicate AllValid(rules: seq<Rule>) {
    forall i :: 0 <= i < |rules| ==> rules[i].Valid()
  }

  lemma ScansAreValid()
    ensures AllValid(SCANS)
    ensures PrefixedToken("ghp_", 24).Valid() && PrefixedToken("glpat-", 24).Valid() && PrefixedToken("sk-", 24).Valid()
  {
  }

  function RunScans(rules: seq<Rule>, s: string): string
    requires AllValid(rules)
    decreases |rules|
  {
    if rules == [] then s else RunScans(rules[1..], Rewrite(rules[0], s))
  }

  function RedactedText(s: string): string {
    ScansAreValid();
    RunScans(SCANS, Env(s))
  }

  // ----- what every redacted text satisfies

  lemma {:induction false} ScansKeepClean(rules: seq<Rule>, rule: Rule, s: string)
    requires AllValid(rules) && rule.Valid() && Clean(rule, s)
    ensures Clean(rule, RunScans(rules, s))
    decreases |rules|
  {
    if rules != [] {
      ScanKeepsClean(rule, rules[0], s);
      ScansKeepClean(rules[1..], rule, Rewrite(rules[0], s));
    }
  }

  lemma {:induction false} ScansClean(rules: seq<Rule>, s: string, k: nat)
    requires AllValid(rules) && k < |rules|
    ensures Clean(rules[k], RunScans(rules, s))
    decreases |rules|
  {
    var t := Rewrite(rules[0], s);
    if k == 0 {
      ScanCleans(rules[0], s);
      ScansKeepClean(rules[1..], rules[0], t);
    } else {
      ScansClean(rules[1..], t, k - 1);
    }
  }

  lemma {:induction false} ScansKeepProtected(rules: seq<Rule>, s: string)
    requires AllValid(rules) && Protected(s)
    ensures Protected(RunScans(rules, s))
    decreases |rules|
  {
    if rules != [] {
      ScanKeepsProtected(rules[0], s);
      ScansKeepProtected(rules[1..], Rewrite(rules[0], s));
    }
  }

  /** Every guarantee of every scan, the assignment scan's included. */
  predicate FullyRedacted(s: string) {
    Protected(s) && forall k :: 0 <= k < |SCANS| ==> Clean(SCANS[k], s)
  }

  /** All guarantees hold of the result at once: no later scan undoes an earlier one. */
  lemma RedactedTextIsClean(s: string)
    ensures FullyRedacted(RedactedText(s))
  {
    ScansAreValid();
    forall k | 0 <= k < |SCANS| ensures Clean(SCANS[k], RedactedText(s)) {
      ScansClean(SCANS, Env(s), k);
    }
    EnvProtects(s);
    ScansKeepProtected(SCANS, Env(s));
  }

  lemma NoKeyLeft(s: string)
    requires Clean(AwsKey, s)
    ensures forall i :: Occurs(s, AWS_PREFIX, i) && i + 20 <= |s| ==>
                          exists j :: i + 4 <= j < i + 20 && !Is(s[j], UpperOrDigit)
  {
    forall i | Occurs(s, AWS_PREFIX, i) && i + 20 <= |s|
      ensures exists j :: i + 4 <= j < i + 20 && !Is(s[j], UpperOrDigit)
    {
      OccursIsPrefix(s, AWS_PREFIX, i);
      assert CleanAt(AwsKey, s, i);
      KeyFound(s, i);
    }
  }

  lemma NoTokenLeft(prefix: string, minLength: nat, s: string)
    requires PrefixedToken(prefix, minLength).Valid() && Clean(PrefixedToken(prefix, minLength), s)
    ensures forall i :: Occurs(s, prefix, i) ==> RunEnd(s, i + |prefix|, TokenChar) - i < minLength
  {
    forall i | Occurs(s, prefix, i) ensures RunEnd(s, i + |prefix|, TokenChar) - i < minLength {
      OccursIsPrefix(s, prefix, i);
      assert CleanAt(PrefixedToken(prefix, minLength), s, i);
      TokenFound(prefix, minLength, s, i);
    }
  }

  lemma NoBlockLeft(s: string)
    requires Clean(PemBlock, s)
    ensures forall i, j :: i <= j && Occurs(s, PEM_BEGIN, i) ==> !Occurs(s, PEM_END, j)
  {
    forall i, j | i <= j && Occurs(s, PEM_BEGIN, i) ensures !Occurs(s, PEM_END, j) {
      OccursIsPrefix(s, PEM_BEGIN, i);
      assert CleanAt(PemBlock, s, i);
      if Occurs(s, PEM_END, j) {
        BlockFound(s, i);
      }
    }
  }

  lemma OnlyMaskedPairsLeft(marker: string, s: string)
    requires Clean(KeyValue(marker), s)
    ensures forall i :: Occurs(s, marker, i) ==> Masked(s[i + |marker|..])
  {
    forall i | Occurs(s, marker, i) ensures Masked(s[i + |marker|..]) {
      OccursIsPrefix(s, marker, i);
      assert CleanAt(KeyValue(marker), s, i);
    }
  }

  /** The guarantees in terms of what stands where in a redacted text. */
  lemma RedactedTextHoldsNoSecret(input: string)
    ensures var s := RedactedText(input);
            && (forall i :: Occurs(s, "AKIA", i) && i + 20 <= |s| ==>
                              exists j :: i + 4 <= j < i + 20 && !Is(s[j], UpperOrDigit))
            && (forall i :: Occurs(s, "ghp_", i) ==> RunEnd(s, i + 4, TokenChar) - i < 24)
            && (forall i :: Occurs(s, "glpat-", i) ==> RunEnd(s, i + 6, TokenChar) - i < 24)
            && (forall i :: Occurs(s, "sk-", i) ==> RunEnd(s, i + 3, TokenChar) - i < 24)
            && (forall i, j :: i <= j && Occurs(s, "-----BEGIN ", i) ==> !Occurs(s, "-----END ", j))
            && (forall k, i :: 0 <= k < |MARKERS| && Occurs(s, MARKERS[k], i) ==> Masked(s[i + |MARKERS[k]|..]))
  {
    hide RunScans, Rewrite, Hit, Masked, Clean, Rule.Valid, Protected, Find, RunEnd;
    var s := RedactedText(input);
    RedactedTextIsClean(input);
    ScansAreValid();
    assert Clean(SCANS[0], s) && Clean(SCANS[1], s) && Clean(SCANS[2], s) && Clean(SCANS[3], s) && Clean(SCANS[4], s);
    NoKeyLeft(s);
    NoTokenLeft("ghp_", 24, s);
    NoTokenLeft("glpat-", 24, s);
    NoTokenLeft("sk-", 24, s);
    NoBlockLeft(s);
    forall k | 0 <= k < |MARKERS| ensures forall i :: Occurs(s, MARKERS[k], i) ==> Masked(s[i + |MARKERS[k]|..]) {
      MarkerScans(k);
      OnlyMaskedPairsLeft(MARKERS[k], s);
    }
  }

  /** Every scan is idempotent on its own. */
  lemma ScanIdempotent(rule: Rule, s: string)
    requires rule.Valid()
    ensures Rewrite(rule, Rewrite(rule, s)) == Rewrite(rule, s)
  {
    ScanCleans(rule, s);
    CleanIsFixed(rule, Rewrite(rule, s));
  }

  lemma {:induction false} CleanForAllIsFixed(rules: seq<Rule>, s: string)
    requires AllValid(rules) && forall k :: 0 <= k < |rules| ==> Clean(rules[k], s)
    ensures RunScans(rules, s) == s
    decreases |rules|
  {
    if rules != [] {
      CleanIsFixed(rules[0], s);
      CleanForAllIsFixed(rules[1..], s);
    }
  }

  // ----- the assignment scan and the pipeline as loops

  lemma EnvAppends(done: string, line: string, rest: string)
    requires '\n' !in line
    ensures done + Env(line + "\n" + rest) == done + EnvLine(line) + "\n" + Env(rest)
  {
    hide Env, EnvLine;
    EnvSplit(line, rest);
    assert done + (EnvLine(line) + "\n" + Env(rest)) == done + EnvLine(line) + "\n" + Env(rest);
  }

  /** The line that starts at lineStart, and what is left of the text behind it. */
  lemma LineAt(text: string, lineStart: nat, lineEnd: nat)
    requires lineStart <= |text|
    requires lineEnd == if Find(text, "\n", lineStart) == NPOS then |text| else Find(text, "\n", lineStart)
    ensures lineStart <= lineEnd <= |text| && '\n' !in text[lineStart..lineEnd]
    ensures lineEnd < |text| ==> text[lineStart..] == text[lineStart..lineEnd] + "\n" + text[lineEnd + 1..]
  {
    hide Find, Occurs;
    var rest, n := text[lineStart..], lineEnd - lineStart;
    FindFrom(text, "\n", lineStart, lineStart);
    assert text[lineStart..lineEnd] == rest[..n];
    if lineEnd < |text| {
      FirstNewline(rest);
      assert rest[n + 1..] == text[lineEnd + 1..];
    } else {
      NoNewline(rest);
    }
  }

  /** The run that starts at `from` in text[..to], seen from the line that starts at lineStart. */
  method SkipInLine(text: string, lineStart: nat, from: nat, to: nat, k: CharClass) returns (end: nat)
    requires lineStart <= from <= to <= |text|
    ensures from <= end <= to && end == lineStart + RunEnd(text[lineStart..to], from - lineStart, k)
  {
    end := SkipRun(text, from, to, k);
    RunFrom(text[..to], lineStart, from, k);
    assert text[..to][lineStart..] == text[lineStart..to];
  }

  /** What one round of the loop appends for the line between lineStart and lineEnd. */
  method RedactAssignment(text: string, lineStart: nat, lineEnd: nat) returns (line: string)
    requires lineStart <= lineEnd <= |text|
    ensures line == EnvLine(text[lineStart..lineEnd])
  {
    hide IsIdentStart, MustHide, RunEnd, Is, EnvLine;
    ghost var l := text[lineStart..lineEnd];
    var keyStart := SkipInLine(text, lineStart, lineStart, lineEnd, Blank);
    var keyEnd := keyStart;
    assert keyStart < lineEnd ==> text[keyStart] == l[keyStart - lineStart];
    if keyEnd < lineEnd && IsIdentStart(text[keyEnd]) {
      keyEnd := SkipInLine(text, lineStart, keyStart + 1, lineEnd, Identifier);
    }
    assert keyEnd == lineStart + KeyEnd(l);
    var eq := SkipInLine(text, lineStart, keyEnd, lineEnd, Blank);
    assert eq < lineEnd ==> text[eq] == l[eq - lineStart];
    if keyStart < keyEnd && eq < lineEnd && text[eq] == '=' {
      var valueStart := SkipInLine(text, lineStart, eq + 1, lineEnd, Blank);
      var valueEnd := SkipInLine(text, lineStart, valueStart, lineEnd, Value);
      line := HideValue(text, lineStart, keyStart, keyEnd, valueStart, valueEnd, lineEnd);
    } else {
      line := text[lineStart..lineEnd];
      NoAssignment(line);
    }
  }

  lemma NoAssignment(line: string)
    requires !IsAssignment(line)
    ensures EnvLine(line) == line
  {
  }

  /** The decision of redact_env_assignments about an assignment whose parts are found. */
  method HideValue(text: string, lineStart: nat, keyStart: nat, keyEnd: nat,
                   valueStart: nat, valueEnd: nat, lineEnd: nat)
    returns (line: string)
    requires lineStart <= keyStart <= keyEnd <= lineEnd && lineStart <= valueStart <= valueEnd <= lineEnd <= |text|
    requires var l := text[lineStart..lineEnd];
             && keyStart == lineStart + KeyStart(l) && keyEnd == lineStart + KeyEnd(l) && IsAssignment(l)
             && valueStart == lineStart + ValueStart(l) && valueEnd == lineStart + ValueEnd(l)
    ensures line == EnvLine(text[lineStart..lineEnd])
  {
    hide KeyStart, KeyEnd, ValueStart, ValueEnd, IsAssignment, MustHide, RunEnd, Is;
    var key, value := text[keyStart..keyEnd], text[valueStart..valueEnd];
    ghost var l := text[lineStart..lineEnd];
    SliceOfLine(text, lineStart, lineEnd, KeyStart(l), KeyEnd(l));
    SliceOfLine(text, lineStart, lineEnd, ValueStart(l), ValueEnd(l));
    SliceOfLine(text, lineStart, lineEnd, 0, ValueStart(l));
    SliceOfLine(text, lineStart, lineEnd, ValueEnd(l), |l|);
    assert IsHidden(l) <==> MustHide(key, value);
    if MustHide(key, value) {
      line := text[lineStart..valueStart] + REDACTED + text[valueEnd..lineEnd];
    } else {
      line := text[lineStart..lineEnd];
    }
  }

  lemma SliceOfLine(text: string, lineStart: nat, lineEnd: nat, i: nat, j: nat)
    requires lineStart <= lineEnd <= |text| && i <= j <= lineEnd - lineStart
    ensures text[lineStart..lineEnd][i..j] == text[lineStart + i..lineStart + j]
  {
    var l := text[lineStart..lineEnd];
    assert forall k :: 0 <= k < j - i ==> l[i..j][k] == l[i + k] == text[lineStart + i + k];
  }

  /** redact_env_assignments. */
  method RedactEnvAssignments(text: string) returns (out: string)
    ensures out == Env(text)
  {
    hide Env, EnvLine, Occurs;
    out := "";
    var i := 0;
    assert text[0..] == text;
    while i < |text|
      invariant i <= |text|
      invariant out + Env(text[i..]) == Env(text)
    {
      var lineStart := i;
      var lineEnd := Find(text, "\n", i);
      if lineEnd == NPOS {
        lineEnd := |text|;
      }
      LineAt(text, lineStart, lineEnd);
      ghost var before := out;
      var line := RedactAssignment(text, lineStart, lineEnd);
      out := out + line;
      if lineEnd < |text| {
        EnvAppends(before, text[lineStart..lineEnd], text[lineEnd + 1..]);
        out := out + "\n";
        i := lineEnd + 1;
      } else {
        assert text[lineStart..] == text[lineStart..lineEnd] && text[lineEnd..] == "";
        LastLine(text[lineStart..lineEnd]);
        i := lineEnd;
      }
    }
    assert text[i..] == "";
    LastLine("");
  }

  lemma LastLine(line: string)
    requires '\n' !in line
    ensures Env(line) == EnvLine(line) && Env("") == ""
  {
    NewlineFound(line, "");
  }

  /** redact_secrets: whatever the text, what comes out satisfies every guarantee at once. */
  method RedactSecrets(input: string) returns (text: string)
    ensures text == RedactedText(input) && FullyRedacted(text)
  {
    hide RunScans, Rewrite, FullyRedacted, Rule.Valid;
    ScansAreValid();
    text := RedactEnvAssignments(input);
    ghost var s := text;
    text := RedactAwsKeys(text);
    text := RedactPrefixedTokens(text, "ghp_", 24);
    text := RedactPrefixedTokens(text, "glpat-", 24);
    text := RedactPrefixedTokens(text, "sk-", 24);
    text := RedactPemBlocks(text);
    FirstFiveScans(s);
    text := RedactMarkers(text, s, SCANS);
    RedactedTextIsClean(input);
  }

  /** The loop over the markers at the end of redact_secrets. */
  method RedactMarkers(input: string, ghost s: string, ghost scans: seq<Rule>) returns (text: string)
    requires scans == SCANS && AllValid(scans) && input == RunScans(scans[..5], s)
    ensures text == RunScans(scans, s)
  {
    hide RunScans;
    MarkerScans(0);
    text := input;
    for k := 0 to |MARKERS|
      invariant text == RunScans(scans[..5 + k], s)
    {
      MarkerScans(k);
      ScansInFront(scans, s, 5 + k);
      text := RedactKeyValues(text, MARKERS[k]);
    }
    assert scans[..11] == scans;
  }

  lemma FirstFiveScans(s: string)
    ensures AllValid(SCANS)
    ensures RunScans(SCANS[..5], s) ==
            Rewrite(PemBlock,
                    Rewrite(PrefixedToken("sk-", 24),
                            Rewrite(PrefixedToken("glpat-", 24),
                                    Rewrite(PrefixedToken("ghp_", 24), Rewrite(AwsKey, s)))))
  {
    hide Rewrite, RunScans;
    ScansAreValid();
    NoScans(s);
    assert SCANS[..0] == [];
    ScansInFront(SCANS, s, 0);
    ScansInFront(SCANS, s, 1);
    ScansInFront(SCANS, s, 2);
    ScansInFront(SCANS, s, 3);
    ScansInFront(SCANS, s, 4);
  }

  lemma NoScans(s: string)
    ensures RunScans([], s) == s
  {
  }

  lemma {:induction false} ScansInFront(rules: seq<Rule>, s: string, k: nat)
    requires AllValid(rules) && k < |rules|
    ensures RunScans(rules[..k + 1], s) == Rewrite(rules[k], RunScans(rules[..k], s))
    decreases k
  {
    if k == 0 {
      assert rules[..1] == [rules[0]];
    } else {
      ScansInFront(rules[1..], Rewrite(rules[0], s), k - 1);
      assert rules[..k + 1][1..] == rules[1..][..k] && rules[..k][1..] == rules[1..][..k - 1];
    }
  }
}
