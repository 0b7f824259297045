/** The pipeline as a whole is not idempotent: what it inserts can make a value long enough for the assignment scan. */
module RedactionTwice {
  import opened Text
  import opened RedactionRules
  import opened RedactionGuarantees
  import opened EnvAssignments
  import opened Redactor

  const INPUT := "a=token=b"
  const ONCE := "a=token=[REDACTED]"
  const TWICE := "a=[REDACTED]"

  /** A short text without '-' whose '='s stand where no marker can end holds nothing to redact. */
  lemma NothingToDo(rule: Rule, s: string)
    requires rule in SCANS && |s| < 20 && '-' !in s
    requires rule.KeyValue? ==> forall i :: 0 <= i <= |s| ==> !(rule.marker <= s[i..])
    ensures rule.Valid() && Rewrite(rule, s) == s
  {
    ScansAreValid();
    forall i | 0 <= i <= |s| ensures CleanAt(rule, s, i) {
      assert i < |s| ==> s[i..][0] == s[i] != '-';
    }
    CleanIsFixed(rule, s);
  }

  /** Only "token=" stands in these texts. */
  lemma OnlyOneMarker(s: string, k: nat)
    requires s == INPUT || s == ONCE
    requires k < |MARKERS| && k != 0
    ensures forall i :: 0 <= i <= |s| ==> !(MARKERS[k] <= s[i..])
  {
    var m := MARKERS[k];
    forall i | 0 <= i <= |s| ensures !(m <= s[i..]) {
      if |m| <= |s| - i {
        assert m[|m| - 1] == '=' && s[i..][|m| - 1] == s[i + |m| - 1];
        assert s[i..][0] == s[i];
      }
    }
  }

  lemma NoMarker(k: nat)
    requires k < |MARKERS|
    ensures forall i :: 0 <= i <= |TWICE| ==> !(MARKERS[k] <= TWICE[i..])
  {
    var m := MARKERS[k];
    forall i | 0 <= i <= |TWICE| ensures !(m <= TWICE[i..]) {
      if |m| <= |TWICE| - i {
        assert m[|m| - 1] == '=' && TWICE[i..][|m| - 1] == TWICE[i + |m| - 1];
      }
    }
  }

  lemma {:induction false} AllFixed(rules: seq<Rule>, s: string)
    requires AllValid(rules) && forall k :: 0 <= k < |rules| ==> Rewrite(rules[k], s) == s
    ensures RunScans(rules, s) == s
    decreases |rules|
  {
    if rules != [] {
      AllFixed(rules[1..], s);
    }
  }

  const TAIL := "token=b"

  lemma TokenInInput()
    ensures INPUT[2..] == TAIL && INPUT[..2] == "a="
    ensures var rule := KeyValue("token=");
            rule.Valid() && !Hit(rule, INPUT[0..]) && !Hit(rule, INPUT[1..]) && Hit(rule, TAIL)
  {
    assert INPUT[0..][0] == 'a' && INPUT[1..][0] == '=';
  }

  lemma TokenCut()
    ensures KeyValue("token=").Valid() && Hit(KeyValue("token="), TAIL) && Cut(KeyValue("token="), TAIL) == 7
  {
    RunEndIs(TAIL, 6, NonSpace, 7);
  }

  lemma TokenIsMasked()
    ensures KeyValue("token=").Valid() && Rewrite(KeyValue("token="), INPUT) == ONCE
  {
    hide Rewrite, Hit, Cut, Rule.Valid;
    var rule := KeyValue("token=");
    TokenInInput();
    TokenCut();
    Skip(rule, INPUT, 2);
    RewriteAtHit(rule, TAIL);
    RewriteNothing(rule);
    assert TAIL[7..] == "" && TAIL[..6] == "token=";
    assert "a=" + ("token=" + REDACTED + "") == ONCE;
  }

  lemma RewriteNothing(rule: Rule)
    requires rule.Valid()
    ensures Rewrite(rule, "") == ""
  {
  }

  /** The first assignment scan leaves the short value alone; the second hides the value that has become long. */
  lemma AssignmentScans()
    ensures Env(INPUT) == INPUT && Env(ONCE) == TWICE
  {
    hide Find, IsSensitive, ValueStart, ValueEnd, IsAssignment, Key;
    assert |INPUT| == 9 && |ONCE| == 18;
    ParsesAs(INPUT);
    ParsesAs(ONCE);
    NewlineFound(INPUT, "");
    NewlineFound(ONCE, "");
    ShortKey();
    assert INPUT[2..9] == "token=b" && ONCE[2..18] == "token=[REDACTED]" && ONCE[18..] == "" && ONCE[..2] == "a=";
  }

  lemma ShortKey()
    ensures !IsSensitive("a")
  {
  }

  lemma ParsesAs(s: string)
    requires s == INPUT || s == ONCE
    ensures IsAssignment(s) && Key(s) == "a" && ValueStart(s) == 2 && ValueEnd(s) == |s|
  {
    hide RunEnd;
    RunEndIs(s, 0, Blank, 0);
    RunEndIs(s, 1, Identifier, 1);
    RunEndIs(s, 1, Blank, 1);
    RunEndIs(s, 2, Blank, 2);
    RunEndIs(s, 2, Value, |s|);
    assert s[0..1] == "a";
  }

  /** Only the scan for "token=" has anything to do. */
  lemma OthersDoNothing(k: nat)
    requires k < |SCANS|
    ensures Rewrite(SCANS[k], TWICE) == TWICE
    ensures k != 5 ==> Rewrite(SCANS[k], INPUT) == INPUT && Rewrite(SCANS[k], ONCE) == ONCE
  {
    hide Rewrite;
    if 5 <= k {
      MarkerScans(k - 5);
      NoMarker(k - 5);
      if k != 5 {
        OnlyOneMarker(INPUT, k - 5);
        OnlyOneMarker(ONCE, k - 5);
      }
    }
    assert SCANS[k] in SCANS;
    NothingToDo(SCANS[k], TWICE);
    if k != 5 {
      NothingToDo(SCANS[k], INPUT);
      NothingToDo(SCANS[k], ONCE);
    }
  }

  /** Redacting twice is not redacting once. */
  lemma RedactingTwiceDiffers()
    ensures RedactedText(INPUT) == ONCE && RedactedText(ONCE) == TWICE
  {
    hide Rewrite, RunScans, Env, Rule.Valid;
    ScansAreValid();
    AssignmentScans();
    forall k | 0 <= k < |SCANS|
      ensures Rewrite(SCANS[k], TWICE) == TWICE
      ensures k != 5 ==> Rewrite(SCANS[k], INPUT) == INPUT && Rewrite(SCANS[k], ONCE) == ONCE
    {
      OthersDoNothing(k);
    }
    AllFixed(SCANS, TWICE);
    AllFixed(SCANS[..5], INPUT);
    TokenIsMasked();
    ScansInFront(SCANS, INPUT, 5);
    AllFixed(SCANS[6..], ONCE);
    RunRest(SCANS, INPUT, 6);
  }

  /** Running a list of scans is running its front and then its back. */
  lemma {:induction false} RunRest(rules: seq<Rule>, s: string, n: nat)
    requires AllValid(rules) && n <= |rules|
    ensures RunScans(rules, s) == RunScans(rules[n..], RunScans(rules[..n], s))
    decreases n
  {
    if n == 0 {
      assert rules[0..] == rules;
    } else {
      RunRest(rules[1..], Rewrite(rules[0], s), n - 1);
      assert rules[..n][1..] == rules[1..][..n - 1] && rules[n..] == rules[1..][n - 1..];
    }
  }
}
