/** A scan leaves its text clean, and no other scan makes a clean text unclean again. */
module RedactionGuarantees {
  import opened Text
  import opened RedactionRules

  /** Only what follows decides whether a place is clean. */
  lemma CleanBehind(rule: Rule, front: string, rest: string, i: nat)
    requires i <= |rest|
    ensures CleanAt(rule, front + rest, |front| + i) <==> CleanAt(rule, rest, i)
  {
    var s := front + rest;
    assert s[|front| + i..] == rest[i..];
    if Hit(rule, rest[i..]) && rule.KeyValue? {
      assert s[|front| + i + |rule.marker|..] == rest[i + |rule.marker|..];
    }
  }

  lemma CleanSuffix(rule: Rule, s: string, c: nat)
    requires Clean(rule, s) && c <= |s|
    ensures Clean(rule, s[c..])
  {
    hide CleanAt;
    assert s == s[..c] + s[c..];
    forall i | 0 <= i <= |s| - c ensures CleanAt(rule, s[c..], i) {
      CleanBehind(rule, s[..c], s[c..], i);
    }
  }

  // ----- a match in the output comes from a match in the input

  /** How many characters of a match decide that it is one (for a PEM block: that it begins). */
  function CoreLength(rule: Rule): nat {
    match rule
    case AwsKey => 20
    case PrefixedToken(prefix, minLength) => if |prefix| < minLength then minLength else |prefix|
    case PemBlock => |PEM_BEGIN|
    case KeyValue(marker) => |marker|
  }

  lemma CoreHasNoBracket(rule: Rule, s: string)
    requires rule.Valid() && Hit(rule, s)
    ensures CoreLength(rule) <= |s| && '[' !in s[..CoreLength(rule)]
  {
    if rule.PemBlock? {
      assert forall i :: 0 <= i < |PEM_BEGIN| ==> s[i] == PEM_BEGIN[i];
    }
  }

  /** A text with the same core matches too; a PEM block also needs an end marker. */
  lemma CoreDecides(rule: Rule, t: string, s: string)
    requires rule.Valid() && Hit(rule, t)
    requires CoreLength(rule) <= |s| && CoreLength(rule) <= |t| && s[..CoreLength(rule)] == t[..CoreLength(rule)]
    requires rule.PemBlock? ==> HasEnd(s)
    ensures Hit(rule, s)
  {
    var n := CoreLength(rule);
    assert forall i :: 0 <= i < n ==> s[i] == s[..n][i] == t[i];
    match rule
    case PrefixedToken(prefix, minLength) =>
      assert prefix == t[..n][..|prefix|] == s[..n][..|prefix|];
      assert forall i :: |prefix| <= i < n ==> Is(s[i], TokenChar);
      RunContains(s, |prefix|, TokenChar, n);
    case AwsKey => assert AWS_PREFIX == t[..n][..4] == s[..n][..4];
    case _ =>
  }

  lemma {:induction false} RunContains(s: string, from: nat, k: CharClass, e: nat)
    requires from <= e <= |s|
    requires forall i :: from <= i < e ==> Is(s[i], k)
    ensures e <= RunEnd(s, from, k)
    decreases e - from
  {
    if from < e {
      RunContains(s, from + 1, k, e);
    }
  }

  predicate HasEnd(s: string) {
    Find(s, PEM_END, 0) != NPOS
  }

  lemma HasEndAt(s: string, i: nat)
    requires i <= |s| && PEM_END <= s[i..]
    ensures HasEnd(s)
  {
    OccursIsPrefix(s, PEM_END, i);
  }

  lemma HasEndInSuffix(s: string, c: nat)
    requires c <= |s| && HasEnd(s[c..])
    ensures HasEnd(s)
  {
    var i := Find(s[c..], PEM_END, 0);
    OccursIsPrefix(s[c..], PEM_END, i);
    assert s[c..][i..] == s[c + i..];
    HasEndAt(s, c + i);
  }

  /** An end marker after a scan stood in the text before it. */
  lemma {:induction false} EndComesFromInput(rule: Rule, s: string, j: nat)
    requires rule.Valid() && j <= |Rewrite(rule, s)| && PEM_END <= Rewrite(rule, s)[j..]
    ensures HasEnd(s)
    decreases |s|
  {
    var t := Rewrite(rule, s);
    if s == "" {
    } else if Hit(rule, s) {
      var front, c := s[..rule.Keep()] + REDACTED, Cut(rule, s);
      EndIsBehind(front, Rewrite(rule, s[c..]), j) by { KeptHasNoHyphen(rule, s); }
      EndComesFromInput(rule, s[c..], j - |front|);
      HasEndInSuffix(s, c);
    } else if j == 0 {
      EndAtHead(rule, s);
    } else {
      RewriteAtCopy(rule, s);
      assert t[j..] == t[1..][j - 1..];
      EndComesFromInput(rule, s[1..], j - 1);
      HasEndInSuffix(s, 1);
    }
  }

  lemma EndAtHead(rule: Rule, s: string)
    requires rule.Valid() && PEM_END <= Rewrite(rule, s)[0..]
    ensures HasEnd(s)
  {
    hide Rewrite, Hit, Cut, HasEnd;
    assert Rewrite(rule, s)[0..] == Rewrite(rule, s) && s[0..] == s;
    var p := HeadComesFromInput(rule, s, |PEM_END|);
    HasEndAt(s, 0);
  }

  lemma EndIsBehind(front: string, rest: string, j: nat)
    requires '-' !in front && j <= |front + rest| && PEM_END <= (front + rest)[j..]
    ensures |front| <= j && (front + rest)[j..] == rest[j - |front|..]
  {
    assert (front + rest)[j..][0] == '-';
  }

  lemma KeptHasNoHyphen(rule: Rule, s: string)
    requires rule.Valid() && Hit(rule, s)
    ensures '-' !in s[..rule.Keep()] + REDACTED
  {
  }

  /** What matches at the head of the output matched at the head of the input. */
  lemma HitComesFromInput(rule: Rule, scan: Rule, s: string)
    requires rule.Valid() && scan.Valid() && Hit(rule, Rewrite(scan, s))
    ensures Hit(rule, s)
  {
    var t := Rewrite(scan, s);
    CoreHasNoBracket(rule, t);
    var p := HeadComesFromInput(scan, s, CoreLength(rule));
    if rule.PemBlock? {
      var j := Find(t, PEM_END, 0);
      OccursIsPrefix(t, PEM_END, j);
      EndComesFromInput(scan, s, j);
    }
    CoreDecides(rule, t, s);
  }

  // ----- masked values stay masked

  /** Nothing, or white space first. */
  predicate AtBreak(s: string) {
    s == "" || IsSpace(s[0])
  }

  lemma BreakIsKept(rule: Rule, s: string)
    requires rule.Valid() && AtBreak(s)
    ensures AtBreak(Rewrite(rule, s))
  {
    if s != "" && Hit(rule, s) {
      HitStart(rule, s);
      assert false;
    }
  }

  lemma MaskedSplits(s: string)
    requires Masked(s)
    ensures s == REDACTED + s[|REDACTED|..] && AtBreak(s[|REDACTED|..])
  {
  }

  lemma MaskedJoins(y: string)
    requires AtBreak(y)
    ensures Masked(REDACTED + y)
  {
  }

  /** A masked value behind a marker survives every scan. */
  lemma MaskedIsKept(rule: Rule, scan: Rule, s: string)
    requires rule.Valid() && scan.Valid() && rule.KeyValue?
    requires Hit(rule, Rewrite(scan, s)) && Hit(rule, s) && Masked(s[|rule.marker|..])
    ensures Masked(Rewrite(scan, s)[|rule.marker|..])
  {
    hide Rewrite, Masked, RunEnd;
    var t, n := Rewrite(scan, s), |rule.marker|;
    CoreHasNoBracket(rule, t);
    var p := HeadComesFromInput(scan, s, n);
    MaskedSplits(s[n..]);
    if p == n {
      var y := s[n..][|REDACTED|..];
      RedactedIsCopied(scan, y);
      BreakIsKept(scan, y);
      MaskedJoins(Rewrite(scan, y));
    } else {
      var u := s[p..];
      assert u[n - 1 - p] == s[n - 1] == '=';
      assert n == p + scan.Keep();
      BreakIsKept(scan, u[Cut(scan, u)..]);
      MaskedJoins(Rewrite(scan, u[Cut(scan, u)..]));
      assert t[n..] == REDACTED + Rewrite(scan, u[Cut(scan, u)..]);
    }
  }

  // ----- the two theorems

  lemma KeepFits(rule: Rule, s: string)
    requires rule.Valid() && Hit(rule, s)
    ensures rule.Keep() <= |s|
  {
  }

  lemma CleanRedacted(rule: Rule, rest: string)
    requires rule.Valid() && Clean(rule, rest)
    ensures Clean(rule, REDACTED + rest)
  {
    hide Hit;
    var t := REDACTED + rest;
    forall i | 0 <= i <= |t| ensures CleanAt(rule, t, i) {
      if i < |REDACTED| {
        NoHitInRedacted(rule, rest, i);
      } else {
        CleanBehind(rule, REDACTED, rest, i - |REDACTED|);
      }
    }
  }

  /** A kept marker with its masked value adds no unclean match in front of a clean rest. */
  lemma CleanJoin(rule: Rule, scan: Rule, s: string, rest: string)
    requires rule.Valid() && scan.Valid() && Hit(scan, s)
    requires Clean(rule, rest) && (scan.KeyValue? ==> AtBreak(rest))
    ensures Clean(rule, s[..scan.Keep()] + REDACTED + rest)
  {
    hide CleanAt, Hit, AtBreak;
    KeepFits(scan, s);
    var front, tail := s[..scan.Keep()], REDACTED + rest;
    assert front + tail == s[..scan.Keep()] + REDACTED + rest;
    CleanRedacted(rule, rest);
    forall i | 0 <= i <= |front + tail| ensures CleanAt(rule, front + tail, i) {
      if |front| <= i {
        CleanBehind(rule, front, tail, i - |front|);
      } else {
        CleanInMarker(rule, scan, s, rest, i);
      }
    }
  }

  lemma CleanInMarker(rule: Rule, scan: Rule, s: string, rest: string, i: nat)
    requires rule.Valid() && scan.Valid() && Hit(scan, s) && i < scan.Keep() && AtBreak(rest)
    ensures CleanAt(rule, s[..scan.Keep()] + REDACTED + rest, i)
  {
    var t := s[..scan.Keep()] + REDACTED + rest;
    if Hit(rule, t[i..]) {
      EndsWithMarker(rule, scan, s, rest, i);
      assert t[scan.Keep()..] == REDACTED + rest;
      MaskedJoins(rest);
    }
  }

  /** A match that starts inside a kept marker is a marker that ends with it. */
  lemma EndsWithMarker(rule: Rule, scan: Rule, s: string, rest: string, i: nat)
    requires rule.Valid() && scan.Valid() && Hit(scan, s) && i < scan.Keep()
    requires Hit(rule, (s[..scan.Keep()] + REDACTED + rest)[i..])
    ensures rule.KeyValue? && i + |rule.marker| == scan.Keep()
  {
    var k := scan.Keep();
    var u := (s[..k] + REDACTED + rest)[i..];
    assert u[k - 1 - i] == s[k - 1] == '=' && u[k - i] == REDACTED[0];
    assert u[0] == s[i];
    match rule
    case KeyValue(marker) => assert forall j :: 0 <= j < |marker| ==> u[j] == marker[j];
    case _ =>
  }

  lemma CutEndsAtBreak(rule: Rule, s: string)
    requires rule.Valid() && Hit(rule, s) && rule.KeyValue?
    ensures AtBreak(s[Cut(rule, s)..])
  {
  }

  /** Copying one more character in front of a clean rest leaves only a match at the head to look at. */
  lemma CleanCons(rule: Rule, t: string)
    requires t != "" && Clean(rule, t[1..]) && CleanAt(rule, t, 0)
    ensures Clean(rule, t)
  {
    hide CleanAt;
    assert t == [t[0]] + t[1..];
    forall i | 0 <= i <= |t| ensures CleanAt(rule, t, i) {
      if 0 < i {
        CleanBehind(rule, [t[0]], t[1..], i - 1);
      }
    }
  }

  lemma CleanEmpty(rule: Rule)
    requires rule.Valid()
    ensures Clean(rule, "")
  {
    NoHitAtEmpty(rule);
    assert ""[0..] == "";
  }

  /** After its scan, a rule has no match left in the text. */
  lemma {:induction false} ScanCleans(rule: Rule, s: string)
    requires rule.Valid()
    ensures Clean(rule, Rewrite(rule, s))
    decreases |s|
  {
    if s == "" {
      CleanEmpty(rule);
    } else if Hit(rule, s) {
      var rest := s[Cut(rule, s)..];
      ScanCleans(rule, rest);
      if rule.KeyValue? {
        CutEndsAtBreak(rule, s);
        BreakIsKept(rule, rest);
      }
      CleanJoin(rule, rule, s, Rewrite(rule, rest));
    } else {
      RewriteAtCopy(rule, s);
      ScanCleans(rule, s[1..]);
      assert Rewrite(rule, s)[0..] == Rewrite(rule, s);
      if Hit(rule, Rewrite(rule, s)) {
        HitComesFromInput(rule, rule, s);
      }
      CleanCons(rule, Rewrite(rule, s));
    }
  }

  /** No scan makes a text unclean for a rule it is clean for. */
  lemma {:induction false} ScanKeepsClean(rule: Rule, scan: Rule, s: string)
    requires rule.Valid() && scan.Valid() && Clean(rule, s)
    ensures Clean(rule, Rewrite(scan, s))
    decreases |s|
  {
    var t := Rewrite(scan, s);
    if s == "" {
    } else if Hit(scan, s) {
      var c := Cut(scan, s);
      CleanSuffix(rule, s, c);
      ScanKeepsClean(rule, scan, s[c..]);
      if scan.KeyValue? {
        CutEndsAtBreak(scan, s);
        BreakIsKept(scan, s[c..]);
      }
      CleanJoin(rule, scan, s, Rewrite(scan, s[c..]));
    } else {
      RewriteAtCopy(scan, s);
      CleanSuffix(rule, s, 1);
      ScanKeepsClean(rule, scan, s[1..]);
      assert t[0..] == t && s[0..] == s;
      if Hit(rule, t) {
        HitComesFromInput(rule, scan, s);
        assert CleanAt(rule, s, 0);
        MaskedIsKept(rule, scan, s);
      }
      CleanCons(rule, t);
    }
  }

  /** A match of a rule in its own clean text is a marker whose value is masked already. */
  lemma CleanHit(rule: Rule, s: string)
    requires rule.Valid() && Clean(rule, s) && Hit(rule, s)
    ensures Cut(rule, s) == rule.Keep() + |REDACTED| <= |s|
    ensures s == s[..rule.Keep()] + REDACTED + s[Cut(rule, s)..]
  {
    hide Rewrite, Find;
    assert s[0..] == s;
    KeepFits(rule, s);
    var k := rule.Keep();
    var e := k + |REDACTED|;
    assert CleanAt(rule, s, 0);
    assert s[k..e] == s[k..][..|REDACTED|] == REDACTED;
    assert forall i :: k <= i < e ==> s[i] == s[k..e][i - k];
    assert e < |s| ==> s[e] == s[k..][|REDACTED|];
    RunEndIs(s, k, NonSpace, e);
  }

  /** A clean text is left as it is, so every scan is idempotent. */
  lemma {:induction false} CleanIsFixed(rule: Rule, s: string)
    requires rule.Valid() && Clean(rule, s)
    ensures Rewrite(rule, s) == s
    decreases |s|
  {
    if s == "" {
    } else if Hit(rule, s) {
      CleanHit(rule, s);
      CleanSuffix(rule, s, Cut(rule, s));
      CleanIsFixed(rule, s[Cut(rule, s)..]);
    } else {
      CleanSuffix(rule, s, 1);
      CleanIsFixed(rule, s[1..]);
    }
  }
}
