/** What one scan of the redactor does to a text, stated as leftmost rewriting. */
module RedactionRules {
  import opened Text

  const REDACTED := "[REDACTED]"
  const AWS_PREFIX := "AKIA"
  const PEM_BEGIN := "-----BEGIN "
  const PEM_END := "-----END "

  /** One scan over the text: what it looks for. */
  datatype Rule =
    | AwsKey
    | PrefixedToken(prefix: string, minLength: nat)
    | PemBlock
    | KeyValue(marker: string)
  {
    /** A token prefix is made of token characters; a marker is a few letters followed by one '='. */
    predicate Valid() {
      match this
      case AwsKey => true
      case PrefixedToken(prefix, minLength) =>
        prefix != "" && |REDACTED| <= minLength && forall i :: 0 <= i < |prefix| ==> Is(prefix[i], TokenChar)
      case PemBlock => true
      case KeyValue(marker) =>
        2 <= |marker| < |REDACTED| && marker[|marker| - 1] == '='
        && forall i :: 0 <= i < |marker| - 1 ==> IsAlpha(marker[i])
    }

    /** How much of a match stays in front of the inserted "[REDACTED]". */
    function Keep(): nat {
      if KeyValue? then |marker| else 0
    }
  }

  /** The rule applies at the head of s. */
  predicate Hit(rule: Rule, s: string) {
    match rule
    case AwsKey => AWS_PREFIX <= s && 20 <= |s| && forall i :: 4 <= i < 20 ==> Is(s[i], UpperOrDigit)
    case PrefixedToken(prefix, minLength) => prefix <= s && minLength <= RunEnd(s, |prefix|, TokenChar)
    case PemBlock => PEM_BEGIN <= s && Find(s, PEM_END, 0) != NPOS
    case KeyValue(marker) => marker <= s
  }

  /** Where the replaced span of a match at the head of s ends. */
  function Cut(rule: Rule, s: string): (e: nat)
    requires Hit(rule, s) && rule.Valid()
    ensures 0 < e <= |s| && rule.Keep() <= e
  {
    match rule
    case AwsKey => 20
    case PrefixedToken(prefix, _) => RunEnd(s, |prefix|, TokenChar)
    case PemBlock =>
      var endMarker := Find(s, PEM_END, 0);
      var endOfLine := Find(s, "\n", endMarker);
      PemEndIsInside(s);
      if endOfLine == NPOS then |s| else endOfLine
    case KeyValue(marker) => RunEnd(s, |marker|, NonSpace)
  }

  lemma PemEndIsInside(s: string)
    requires PEM_BEGIN <= s && Find(s, PEM_END, 0) != NPOS
    ensures 0 < Find(s, PEM_END, 0)
  {
    if Find(s, PEM_END, 0) == 0 {
      assert s[0..|PEM_END|][5] == s[5] == PEM_BEGIN[5];
    }
  }

  /** Every match, leftmost first, gives way to "[REDACTED]"; everything else is copied. */
  function Rewrite(rule: Rule, s: string): string
    requires rule.Valid()
    decreases |s|
  {
    if s == "" then ""
    else if Hit(rule, s) then s[..rule.Keep()] + REDACTED + Rewrite(rule, s[Cut(rule, s)..])
    else [s[0]] + Rewrite(rule, s[1..])
  }

  /** "[REDACTED]" followed by white space or by nothing. */
  predicate Masked(s: string) {
    REDACTED <= s && (|s| == |REDACTED| || IsSpace(s[|REDACTED|]))
  }

  /** If there is a match at i, it is a marker that keeps nothing but a masked value. */
  predicate CleanAt(rule: Rule, s: string, i: nat)
    requires i <= |s|
  {
    Hit(rule, s[i..]) ==> rule.KeyValue? && Masked(s[i + |rule.marker|..])
  }

  /** What the scan is for: nothing is left that it would have to replace. */
  predicate Clean(rule: Rule, s: string) {
    forall i :: 0 <= i <= |s| ==> CleanAt(rule, s, i)
  }

  // ----- copying

  lemma NoHitAtEmpty(rule: Rule)
    requires rule.Valid()
    ensures !Hit(rule, "")
  {
  }

  /** A rule starts at a letter, a digit, an underscore or a hyphen: never at a bracket, a blank or a newline. */
  lemma HitStart(rule: Rule, s: string)
    requires rule.Valid() && Hit(rule, s)
    ensures s != "" && Is(s[0], TokenChar)
  {
    match rule
    case AwsKey => assert s[0] == AWS_PREFIX[0];
    case PrefixedToken(prefix, _) => assert s[0] == prefix[0];
    case PemBlock => assert s[0] == PEM_BEGIN[0];
    case KeyValue(marker) => assert s[0] == marker[0];
  }

  lemma RewriteAtHit(rule: Rule, s: string)
    requires rule.Valid() && Hit(rule, s)
    ensures s != "" && Rewrite(rule, s) == s[..rule.Keep()] + REDACTED + Rewrite(rule, s[Cut(rule, s)..])
  {
    NoHitAtEmpty(rule);
  }

  lemma RewriteAtCopy(rule: Rule, s: string)
    requires rule.Valid() && s != "" && !Hit(rule, s)
    ensures Rewrite(rule, s) == [s[0]] + Rewrite(rule, s[1..])
    ensures Rewrite(rule, s) != "" && Rewrite(rule, s)[0] == s[0] && Rewrite(rule, s)[1..] == Rewrite(rule, s[1..])
  {
  }

  lemma ConsAppend(c: char, a: string, b: string)
    ensures [c] + (a + b) == ([c] + a) + b
  {
  }

  /** A stretch without matches is copied. */
  lemma {:induction false} Skip(rule: Rule, s: string, n: nat)
    requires rule.Valid() && n <= |s|
    requires forall i :: 0 <= i < n ==> !Hit(rule, s[i..])
    ensures Rewrite(rule, s) == s[..n] + Rewrite(rule, s[n..])
    decreases n
  {
    hide Rewrite, Hit;
    assert s[0..] == s;
    if 0 < n {
      forall i | 0 <= i < n - 1 ensures !Hit(rule, s[1..][i..]) {
        assert s[1..][i..] == s[i + 1..];
      }
      Skip(rule, s[1..], n - 1);
      RewriteAtCopy(rule, s);
      assert s[1..][n - 1..] == s[n..];
      assert s[..n] == [s[0]] + s[1..][..n - 1];
      ConsAppend(s[0], s[1..][..n - 1], Rewrite(rule, s[n..]));
    }
  }

  /** An inserted "[REDACTED]" holds no match and starts none. */
  lemma NoHitInRedacted(rule: Rule, y: string, k: nat)
    requires rule.Valid() && k < |REDACTED|
    ensures !Hit(rule, (REDACTED + y)[k..])
  {
    var u := (REDACTED + y)[k..];
    var last := |REDACTED| - 1 - k;  // where the closing bracket stands in u
    assert forall i :: 0 <= i <= last ==> u[i] == REDACTED[k + i];
    match rule
    case AwsKey => assert |u| < 2 || u[0] != 'A' || u[1] != 'K';
    case PrefixedToken(prefix, minLength) =>
      if |prefix| <= last {
        assert !Is(u[last], TokenChar);
        assert RunEnd(u, |prefix|, TokenChar) <= last;
      } else {
        assert prefix[last] != u[last];
      }
    case PemBlock => assert u[0] != '-';
    case KeyValue(marker) =>
      if |marker| <= last {
        assert u[|marker| - 1] == REDACTED[k + |marker| - 1];
      } else {
        assert marker[last] != u[last];
      }
  }

  lemma RedactedIsCopied(rule: Rule, y: string)
    requires rule.Valid()
    ensures Rewrite(rule, REDACTED + y) == REDACTED + Rewrite(rule, y)
  {
    forall i | 0 <= i < |REDACTED| ensures !Hit(rule, (REDACTED + y)[i..]) {
      NoHitInRedacted(rule, y, i);
    }
    Skip(rule, REDACTED + y, |REDACTED|);
    assert (REDACTED + y)[|REDACTED|..] == y;
  }

  /**
   * The first n characters of the rewriting t of s were copied from s. What follows them is either
   * the rewriting of what followed them in s (p == n), or they end inside a marker at p that is kept.
   */
  ghost predicate CopiedUpTo(rule: Rule, s: string, t: string, n: nat, p: nat)
    requires rule.Valid()
  {
    && p <= n <= |s| && n <= |t|
    && s[..n] == t[..n]
    && (p == n ==> t[n..] == Rewrite(rule, s[n..]))
    && (p < n ==>
          && Hit(rule, s[p..]) && n <= p + rule.Keep() <= |s|
          && t[n..] == s[n..p + rule.Keep()] + REDACTED + Rewrite(rule, s[p..][Cut(rule, s[p..])..]))
  }

  lemma CharInPrefix(t: string, n: nat, i: nat)
    requires i < |t| && n <= |t|
    ensures i < n ==> t[i] in t[..n]
  {
    if i < n {
      assert t[..n][i] == t[i];
    }
  }

  lemma CopiedAtHit(rule: Rule, s: string, n: nat)
    requires rule.Valid() && Hit(rule, s)
    requires 0 < n <= |Rewrite(rule, s)| && '[' !in Rewrite(rule, s)[..n]
    ensures CopiedUpTo(rule, s, Rewrite(rule, s), n, 0)
  {
    hide Rewrite, Hit, Cut;
    RewriteAtHit(rule, s);
    var k, rest := rule.Keep(), Rewrite(rule, s[Cut(rule, s)..]);
    var t := s[..k] + REDACTED + rest;
    assert t[k] == '[';
    CharInPrefix(t, n, k);
    assert s[0..] == s;
    assert s[..k] == s[..n] + s[n..k];
    assert t == s[..n] + (s[n..k] + REDACTED + rest);
  }

  lemma CopiedStep(rule: Rule, s: string, t: string, n: nat, p: nat)
    requires rule.Valid() && s != "" && t != "" && s[0] == t[0]
    requires CopiedUpTo(rule, s[1..], t[1..], n, p)
    ensures CopiedUpTo(rule, s, t, n + 1, p + 1)
  {
    hide Rewrite, Hit, Cut;
    assert t[n + 1..] == t[1..][n..] && s[n + 1..] == s[1..][n..] && s[p + 1..] == s[1..][p..];
    assert s[..n + 1] == [s[0]] + s[1..][..n];
    assert t[..n + 1] == [t[0]] + t[1..][..n];
    if p < n {
      assert s[1..][n..p + rule.Keep()] == s[n + 1..p + 1 + rule.Keep()];
    }
  }

  lemma TailHasNoBracket(t: string, n: nat)
    requires 0 < n <= |t| && '[' !in t[..n]
    ensures '[' !in t[1..][..n - 1]
  {
    assert t[1..][..n - 1] == t[..n][1..];
  }

  /** A prefix of the rewritten text without '[' was copied from the same place of the original. */
  lemma {:induction false} HeadComesFromInput(rule: Rule, s: string, n: nat) returns (p: nat)
    requires rule.Valid() && n <= |Rewrite(rule, s)| && '[' !in Rewrite(rule, s)[..n]
    ensures CopiedUpTo(rule, s, Rewrite(rule, s), n, p)
    decreases n
  {
    if n == 0 {
      p := 0;
      assert s[0..] == s && Rewrite(rule, s)[0..] == Rewrite(rule, s);
    } else if Hit(rule, s) {
      CopiedAtHit(rule, s, n);
      p := 0;
    } else {
      RewriteAtCopy(rule, s);
      TailHasNoBracket(Rewrite(rule, s), n);
      p := HeadComesFromInput(rule, s[1..], n - 1);
      CopiedStep(rule, s, Rewrite(rule, s), n - 1, p);
      p := p + 1;
    }
  }
}
