/** Sensitive assignments stay hidden through the later scans. */
module EnvProtection {
  import opened Text
  import opened RedactionRules
  import opened RedactionGuarantees
  import opened EnvAssignments

  predicate IsSensitiveAssignment(s: string) {
    IsAssignment(s) && IsSensitive(Key(s))
  }

  /** If a sensitive assignment stands at the head of s, its value starts with "[REDACTED]". */
  predicate HeadProtected(s: string) {
    IsSensitiveAssignment(s) ==> REDACTED <= s[ValueStart(s)..]
  }

  predicate LinesProtected(s: string) {
    forall i :: 0 < i <= |s| && s[i - 1] == '\n' ==> HeadProtected(s[i..])
  }

  /** Every line that assigns to a sensitive key has a value that starts with "[REDACTED]". */
  predicate Protected(s: string) {
    HeadProtected(s) && LinesProtected(s)
  }

  lemma LinesProtectedSuffix(s: string, c: nat)
    requires LinesProtected(s) && c <= |s|
    ensures LinesProtected(s[c..])
  {
    forall i | 0 < i <= |s| - c && s[c..][i - 1] == '\n' ensures HeadProtected(s[c..][i..]) {
      assert s[c..][i..] == s[c + i..];
    }
  }

  /** Lines behind a newline-free front are the lines of the rest. */
  lemma LinesBehind(front: string, rest: string)
    requires '\n' !in front && LinesProtected(rest)
    ensures LinesProtected(front + rest)
  {
    var t := front + rest;
    forall i | 0 < i <= |t| && t[i - 1] == '\n' ensures HeadProtected(t[i..]) {
      assert t[i - 1] in front || |front| < i;
      assert t[i..] == rest[i - |front|..];
    }
  }

  lemma LinesBehindNewline(rest: string)
    requires Protected(rest)
    ensures LinesProtected("\n" + rest)
  {
    var t := "\n" + rest;
    forall i | 0 < i <= |t| && t[i - 1] == '\n' ensures HeadProtected(t[i..]) {
      assert t[i..] == rest[i - 1..];
      assert i == 1 ==> t[i..] == rest;
    }
  }

  // ----- the assignment scan protects

  lemma EnvLineProtected(line: string, back: string)
    requires '\n' !in line && AtLineEnd(back)
    ensures HeadProtected(EnvLine(line) + back)
  {
    hide EnvLine, KeyStart, KeyEnd, Equals, IsAssignment, IsSensitive, RunEnd, Is;
    var l := EnvLine(line);
    KeyInFront(l, back);
    AssignmentInFront(l, back);
    if IsSensitiveAssignment(l) {
      HiddenIfSensitive(line);
      EnvLineValue(line);
      ValueInFront(l, back, ValueStart(l), ValueEnd(l));
    }
  }

  lemma ValueInFront(line: string, back: string, v: nat, e: nat)
    requires v <= e <= |line| && line[v..e] == REDACTED
    ensures REDACTED <= (line + back)[v..]
  {
    assert (line + back)[v..] == line[v..e] + (line[e..] + back);
  }

  lemma HiddenIfSensitive(line: string)
    requires IsSensitiveAssignment(EnvLine(line))
    ensures IsHidden(line)
  {
  }

  lemma ProtectedJoin(line: string, rest: string)
    requires '\n' !in line && HeadProtected(line + ("\n" + rest)) && Protected(rest)
    ensures Protected(line + "\n" + rest)
  {
    LinesBehindNewline(rest);
    LinesBehind(line, "\n" + rest);
    assert line + "\n" + rest == line + ("\n" + rest);
  }

  lemma OneLineProtected(line: string)
    requires '\n' !in line
    ensures Protected(EnvLine(line))
  {
    EnvLineFree(line);
    EnvLineProtected(line, "");
    assert EnvLine(line) + "" == EnvLine(line);
  }

  lemma {:induction false} EnvProtects(s: string)
    ensures Protected(Env(s))
    decreases |s|
  {
    var f := Find(s, "\n", 0);
    if f == NPOS {
      NoNewline(s);
      OneLineProtected(s);
    } else {
      FirstNewline(s);
      var line, rest := EnvLine(s[..f]), Env(s[f + 1..]);
      EnvLineFree(s[..f]);
      EnvLineProtected(s[..f], "\n" + rest);
      EnvProtects(s[f + 1..]);
      ProtectedJoin(line, rest);
    }
  }

  // ----- the other scans keep it

  /** Up to its value, an assignment holds no '[' and only one '='. */
  lemma AssignmentHead(s: string)
    requires IsAssignment(s)
    ensures '[' !in s[..ValueStart(s)]
    ensures forall i :: 0 <= i < ValueStart(s) && i != Equals(s) ==> s[i] != '='
  {
    forall i | 0 <= i < ValueStart(s) && i != Equals(s) ensures s[i] != '=' && s[i] != '[' {
      assert Is(s[i], Blank) || Is(s[i], Identifier);
    }
  }

  /** Where the output has its value, the input had an assignment with the same key and its value not earlier. */
  lemma SameAssignment(s: string, t: string)
    requires IsAssignment(t) && ValueStart(t) <= |s| && s[..ValueStart(t)] == t[..ValueStart(t)]
    ensures IsAssignment(s) && Key(s) == Key(t) && Equals(s) == Equals(t)
    ensures ValueStart(t) <= ValueStart(s)
  {
    var n := ValueStart(t);
    ParseOfPrefix(t, s, n);
    assert forall i :: 0 <= i < n ==> s[i] == s[..n][i] == t[i];
    RunContains(s, Equals(s) + 1, Blank, n);
  }

  lemma {:induction false} HeadStaysProtected(scan: Rule, s: string)
    requires scan.Valid() && HeadProtected(s)
    ensures HeadProtected(Rewrite(scan, s))
  {
    var t := Rewrite(scan, s);
    if IsSensitiveAssignment(t) {
      var n := ValueStart(t);
      AssignmentHead(t);
      var p := HeadComesFromInput(scan, s, n);
      SameAssignment(s, t);
      if p == n {
        assert n < |t| ==> t[n..][0] == t[n];
        ValueStaysProtected(scan, s, n);
      } else {
        MarkerEndsHead(scan, s, n, p);
        RedactedFirst(t[n..], s[n..n], Rewrite(scan, s[p..][Cut(scan, s[p..])..]));
      }
    }
  }

  lemma RedactedFirst(t: string, empty: string, rest: string)
    requires empty == "" && t == empty + REDACTED + rest
    ensures REDACTED <= t
  {
  }

  /** The rest of the line is rewritten on its own: blanks, then a "[REDACTED]" that is copied. */
  lemma ValueStaysProtected(scan: Rule, s: string, n: nat)
    requires scan.Valid() && IsAssignment(s) && Equals(s) < n <= ValueStart(s)
    requires REDACTED <= s[ValueStart(s)..]
    requires Rewrite(scan, s[n..]) == "" || !Is(Rewrite(scan, s[n..])[0], Blank)
    ensures REDACTED <= Rewrite(scan, s[n..])
  {
    if n < ValueStart(s) {
      assert Is(s[n..][0], Blank);
      if Hit(scan, s[n..]) {
        HitStart(scan, s[n..]);
      }
      RewriteAtCopy(scan, s[n..]);
    } else {
      var y := s[n..][|REDACTED|..];
      assert s[n..] == REDACTED + y;
      RedactedIsCopied(scan, y);
    }
  }

  /** A kept marker that reaches the value ends with the assignment's own '='. */
  lemma MarkerEndsHead(scan: Rule, s: string, n: nat, p: nat)
    requires scan.Valid() && IsAssignment(s) && Equals(s) < n <= ValueStart(s)
    requires p < n && p <= |s| && Hit(scan, s[p..]) && n <= p + scan.Keep() <= |s|
    ensures n == p + scan.Keep()
  {
    assert s[n - 1] == s[p..][n - 1 - p] == scan.marker[n - 1 - p];
    assert n - 1 == Equals(s) || Is(s[n - 1], Blank);
  }

  lemma {:induction false} LinesStayProtected(scan: Rule, s: string)
    requires scan.Valid() && LinesProtected(s)
    ensures LinesProtected(Rewrite(scan, s))
    decreases |s|
  {
    if s == "" {
    } else if Hit(scan, s) {
      var c := Cut(scan, s);
      LinesProtectedSuffix(s, c);
      LinesStayProtected(scan, s[c..]);
      KeptHasNoNewline(scan, s);
      LinesBehind(s[..scan.Keep()] + REDACTED, Rewrite(scan, s[c..]));
    } else {
      LinesProtectedSuffix(s, 1);
      LinesStayProtected(scan, s[1..]);
      if s[0] == '\n' {
        assert HeadProtected(s[1..]);
        HeadStaysProtected(scan, s[1..]);
        LinesBehindNewline(Rewrite(scan, s[1..]));
      } else {
        LinesBehind([s[0]], Rewrite(scan, s[1..]));
      }
    }
  }

  lemma KeptHasNoNewline(rule: Rule, s: string)
    requires rule.Valid() && Hit(rule, s)
    ensures '\n' !in s[..rule.Keep()] + REDACTED
  {
  }

  lemma ScanKeepsProtected(scan: Rule, s: string)
    requires scan.Valid() && Protected(s)
    ensures Protected(Rewrite(scan, s))
  {
    HeadStaysProtected(scan, s);
    LinesStayProtected(scan, s);
  }
}
