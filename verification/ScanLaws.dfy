/** What each of the later scans replaces, said by characters, and in what order they run. */
module ScanLaws {
  import opened Text
  import opened RedactionRules
  import opened EnvAssignments
  import opened Redactor

  // ----- any scan

  /** A match that no other match starts in front of is replaced, but for what it keeps; the scan goes on behind it. */
  lemma MatchIsReplaced(rule: Rule, s: string, p: nat)
    requires rule.Valid() && p <= |s| && Hit(rule, s[p..])
    requires forall i :: 0 <= i < p ==> !Hit(rule, s[i..])
    ensures Rewrite(rule, s) ==
            s[..p + rule.Keep()] + REDACTED + Rewrite(rule, s[p + Cut(rule, s[p..])..])
  {
    hide Hit, Cut, Rewrite;
    Skip(rule, s, p);
    RewriteAtHit(rule, s[p..]);
    var keep, cut := rule.Keep(), Cut(rule, s[p..]);
    assert s[p..][cut..] == s[p + cut..] && s[..p] + s[p..][..keep] == s[..p + keep];
    Regrouped(s[..p], s[p..][..keep], REDACTED + Rewrite(rule, s[p + cut..]));
    Regrouped(s[p..][..keep], REDACTED, Rewrite(rule, s[p + cut..]));
    Regrouped(s[..p + keep], REDACTED, Rewrite(rule, s[p + cut..]));
  }

  lemma NothingIsReplaced(rule: Rule, s: string)
    requires rule.Valid() && forall i :: 0 <= i < |s| ==> !Hit(rule, s[i..])
    ensures Rewrite(rule, s) == s
  {
    hide Hit;
    Skip(rule, s, |s|);
    assert s[|s|..] == "" && Rewrite(rule, "") == "";
  }

  // ----- keys

  /** AKIA and sixteen upper-case letters or digits. */
  predicate IsKeyAt(s: string, i: nat) {
    && i + 20 <= |s| && s[i..i + 4] == "AKIA"
    && forall j :: i + 4 <= j < i + 20 ==> 'A' <= s[j] <= 'Z' || '0' <= s[j] <= '9'
  }

  lemma KeyIsHit(s: string, i: nat)
    requires i <= |s|
    ensures Hit(AwsKey, s[i..]) <==> IsKeyAt(s, i)
    ensures IsKeyAt(s, i) ==> Cut(AwsKey, s[i..]) == 20
  {
    var t := s[i..];
    assert AWS_PREFIX == "AKIA";
    if 20 <= |t| {
      assert t[..4] == s[i..i + 4];
      assert forall j :: 4 <= j < 20 ==> t[j] == s[i + j];
      assert forall j :: i + 4 <= j < i + 20 ==> s[j] == t[j - i];
    }
  }

  lemma KeyLaw(s: string, p: nat)
    requires IsKeyAt(s, p) && forall i :: 0 <= i < p ==> !IsKeyAt(s, i)
    ensures Rewrite(AwsKey, s) == s[..p] + "[REDACTED]" + Rewrite(AwsKey, s[p + 20..])
  {
    hide IsKeyAt, Hit, Cut, Rewrite;
    assert p <= |s| by { KeyFits(s, p); }
    forall i | 0 <= i <= p ensures Hit(AwsKey, s[i..]) <==> IsKeyAt(s, i) {
      KeyIsHit(s, i);
    }
    KeyIsHit(s, p);
    MatchIsReplaced(AwsKey, s, p);
  }

  lemma KeyFits(s: string, p: nat)
    requires IsKeyAt(s, p)
    ensures p + 20 <= |s|
  {
  }

  lemma NoKeyLaw(s: string)
    requires forall i :: 0 <= i < |s| ==> !IsKeyAt(s, i)
    ensures Rewrite(AwsKey, s) == s
  {
    hide IsKeyAt, Hit;
    forall i | 0 <= i < |s| ensures !Hit(AwsKey, s[i..]) {
      KeyIsHit(s, i);
    }
    NothingIsReplaced(AwsKey, s);
  }

  // ----- tokens

  predicate IsTokenChar(c: char) {
    'a' <= c <= 'z' || 'A' <= c <= 'Z' || '0' <= c <= '9' || c == '_' || c == '-'
  }

  /** The prefix and token characters up to e, where the token ends. */
  predicate IsTokenAt(s: string, prefix: string, minLength: nat, i: nat, e: nat) {
    && i + |prefix| <= e <= |s| && s[i..i + |prefix|] == prefix && i + minLength <= e
    && (forall j :: i + |prefix| <= j < e ==> IsTokenChar(s[j]))
    && (e < |s| ==> !IsTokenChar(s[e]))
  }

  lemma TokenIsHit(s: string, prefix: string, minLength: nat, i: nat)
    requires i <= |s| && PrefixedToken(prefix, minLength).Valid()
    ensures var rule := PrefixedToken(prefix, minLength);
            && (forall e: nat :: IsTokenAt(s, prefix, minLength, i, e) ==>
                                 Hit(rule, s[i..]) && Cut(rule, s[i..]) == e - i)
            && (Hit(rule, s[i..]) ==> IsTokenAt(s, prefix, minLength, i, i + Cut(rule, s[i..])))
  {
    var rule, t, m := PrefixedToken(prefix, minLength), s[i..], |prefix|;
    forall e: nat | IsTokenAt(s, prefix, minLength, i, e) ensures Hit(rule, t) && Cut(rule, t) == e - i {
      assert t[..m] == s[i..i + m];
      assert forall j :: m <= j < e - i ==> t[j] == s[i + j];
      RunEndIs(t, m, TokenChar, e - i);
    }
    if Hit(rule, t) {
      var e := i + Cut(rule, t);
      assert s[i..i + m] == t[..m];
      assert forall j :: i + m <= j < e ==> s[j] == t[j - i];
      assert e < |s| ==> s[e] == t[e - i];
    }
  }

  lemma TokenLaw(s: string, prefix: string, minLength: nat, p: nat, e: nat)
    requires PrefixedToken(prefix, minLength).Valid() && IsTokenAt(s, prefix, minLength, p, e)
    requires forall i: nat, e': nat :: 0 <= i < p ==> !IsTokenAt(s, prefix, minLength, i, e')
    ensures Rewrite(PrefixedToken(prefix, minLength), s) ==
            s[..p] + "[REDACTED]" + Rewrite(PrefixedToken(prefix, minLength), s[e..])
  {
    hide IsTokenAt, Hit, Cut, Rewrite;
    assert p <= e <= |s| by { TokenFits(s, prefix, minLength, p, e); }
    forall i | 0 <= i < p ensures !Hit(PrefixedToken(prefix, minLength), s[i..]) {
      TokenIsHit(s, prefix, minLength, i);
    }
    TokenIsHit(s, prefix, minLength, p);
    MatchIsReplaced(PrefixedToken(prefix, minLength), s, p);
  }

  lemma TokenFits(s: string, prefix: string, minLength: nat, p: nat, e: nat)
    requires IsTokenAt(s, prefix, minLength, p, e)
    ensures p <= e <= |s|
  {
  }

  lemma NoTokenLaw(s: string, prefix: string, minLength: nat)
    requires PrefixedToken(prefix, minLength).Valid()
    requires forall i: nat, e: nat :: 0 <= i < |s| ==> !IsTokenAt(s, prefix, minLength, i, e)
    ensures Rewrite(PrefixedToken(prefix, minLength), s) == s
  {
    hide IsTokenAt, Hit, Cut;
    forall i | 0 <= i < |s| ensures !Hit(PrefixedToken(prefix, minLength), s[i..]) {
      TokenIsHit(s, prefix, minLength, i);
    }
    NothingIsReplaced(PrefixedToken(prefix, minLength), s);
  }

  // ----- blocks

  /** A block from its begin marker to the end of the line of the first end marker behind it, which stands at q. */
  predicate IsBlockAt(s: string, i: nat, q: nat, e: nat) {
    && Occurs(s, "-----BEGIN ", i) && i < q && Occurs(s, "-----END ", q)
    && (forall j :: i <= j < q ==> !Occurs(s, "-----END ", j))
    && q <= e <= |s| && (forall j :: q <= j < e ==> s[j] != '\n') && (e < |s| ==> s[e] == '\n')
  }

  lemma BlockIsHit(s: string, i: nat)
    requires i <= |s|
    ensures forall q: nat, e: nat :: IsBlockAt(s, i, q, e) ==> Hit(PemBlock, s[i..]) && Cut(PemBlock, s[i..]) == e - i
    ensures Hit(PemBlock, s[i..]) ==> exists q: nat, e: nat :: IsBlockAt(s, i, q, e)
  {
    hide Find;
    var t := s[i..];
    assert PEM_BEGIN == "-----BEGIN " && PEM_END == "-----END ";
    forall q: nat, e: nat | IsBlockAt(s, i, q, e) ensures Hit(PemBlock, t) && Cut(PemBlock, t) == e - i {
      Shifted(s, PEM_BEGIN, i, i);
      FirstAt(s, PEM_END, i, q);
      LineEndsAt(s, i, q, e);
    }
    if Hit(PemBlock, t) {
      var q, e := i + Find(t, PEM_END, 0), i + Cut(PemBlock, t);
      PemEndIsInside(t);
      FoundIsFirst(s, PEM_END, i);
      CutIsLineEnd(s, i);
      Shifted(s, PEM_BEGIN, i, i);
      assert IsBlockAt(s, i, q, e);
    }
  }

  lemma Shifted(s: string, pattern: string, i: nat, j: nat)
    requires i <= j <= |s|
    ensures Occurs(s[i..], pattern, j - i) <==> Occurs(s, pattern, j)
    ensures i == j ==> (pattern <= s[i..] <==> Occurs(s, pattern, i))
  {
    if j + |pattern| <= |s| {
      assert s[i..][j - i..j - i + |pattern|] == s[j..j + |pattern|];
    }
  }

  lemma FirstAt(s: string, pattern: string, i: nat, q: nat)
    requires i <= q && Occurs(s, pattern, q) && forall j :: i <= j < q ==> !Occurs(s, pattern, j)
    ensures Find(s[i..], pattern, 0) == q - i
  {
    var f := Find(s[i..], pattern, 0);
    Shifted(s, pattern, i, q);
    if 0 <= f < q - i {
      Shifted(s, pattern, i, i + f);
    }
  }

  lemma FoundIsFirst(s: string, pattern: string, i: nat)
    requires i <= |s| && Find(s[i..], pattern, 0) != NPOS
    ensures var q := i + Find(s[i..], pattern, 0);
            i <= q <= |s| && Occurs(s, pattern, q) && forall j :: i <= j < q ==> !Occurs(s, pattern, j)
  {
    var q := i + Find(s[i..], pattern, 0);
    Shifted(s, pattern, i, q);
    forall j | i <= j < q ensures !Occurs(s, pattern, j) {
      Shifted(s, pattern, i, j);
    }
  }

  lemma NewlineAt(s: string, j: nat)
    ensures Occurs(s, "\n", j) <==> j < |s| && s[j] == '\n'
  {
    if j < |s| {
      assert s[j..j + 1] == [s[j]];
    }
  }

  lemma LineEndsAt(s: string, i: nat, q: nat, e: nat)
    requires i <= q <= e <= |s| && (forall j :: q <= j < e ==> s[j] != '\n') && (e < |s| ==> s[e] == '\n')
    ensures Find(s[i..], "\n", q - i) == if e < |s| then e - i else NPOS
  {
    hide Find;
    var t := s[i..];
    var f := Find(t, "\n", q - i);
    if f != NPOS {
      NewlineAt(t, f);
      assert t[f] == s[i + f];
    }
    if e < |s| {
      NewlineAt(t, e - i);
      assert t[e - i] == s[e];
    }
  }

  lemma CutIsLineEnd(s: string, i: nat)
    requires i <= |s| && Hit(PemBlock, s[i..])
    ensures var q, e := i + Find(s[i..], PEM_END, 0), i + Cut(PemBlock, s[i..]);
            q <= e <= |s| && (forall j :: q <= j < e ==> s[j] != '\n') && (e < |s| ==> s[e] == '\n')
  {
    hide Find;
    var t := s[i..];
    var q, e := Find(t, PEM_END, 0), Cut(PemBlock, t);
    forall j | i + q <= j < i + e ensures s[j] != '\n' {
      NewlineAt(t, j - i);
      assert t[j - i] == s[j];
    }
    if e < |t| {
      NewlineAt(t, e);
    }
  }

  lemma BlockLaw(s: string, p: nat, q: nat, e: nat)
    requires IsBlockAt(s, p, q, e) && forall i: nat, q': nat, e': nat :: 0 <= i < p ==> !IsBlockAt(s, i, q', e')
    ensures Rewrite(PemBlock, s) == s[..p] + "[REDACTED]" + Rewrite(PemBlock, s[e..])
  {
    hide IsBlockAt, Hit, Cut, Rewrite;
    assert p <= e <= |s| by { BlockFits(s, p, q, e); }
    forall i | 0 <= i < p ensures !Hit(PemBlock, s[i..]) {
      BlockIsHit(s, i);
    }
    BlockIsHit(s, p);
    MatchIsReplaced(PemBlock, s, p);
  }

  lemma BlockFits(s: string, p: nat, q: nat, e: nat)
    requires IsBlockAt(s, p, q, e)
    ensures p <= e <= |s|
  {
  }

  lemma NoBlockLaw(s: string)
    requires forall i: nat, q: nat, e: nat :: 0 <= i < |s| ==> !IsBlockAt(s, i, q, e)
    ensures Rewrite(PemBlock, s) == s
  {
    hide IsBlockAt, Hit, Cut;
    forall i | 0 <= i < |s| ensures !Hit(PemBlock, s[i..]) {
      BlockIsHit(s, i);
    }
    NothingIsReplaced(PemBlock, s);
  }

  // ----- pairs

  predicate IsWhiteSpace(c: char) {
    c == ' ' || c == '\t' || c == '\n' || c == '\U{000B}' || c == '\U{000C}' || c == '\r'
  }

  /** A marker and everything up to the next white space, at e. */
  predicate IsPairAt(s: string, marker: string, i: nat, e: nat) {
    && Occurs(s, marker, i) && i + |marker| <= e <= |s|
    && (forall j :: i + |marker| <= j < e ==> !IsWhiteSpace(s[j])) && (e < |s| ==> IsWhiteSpace(s[e]))
  }

  lemma PairIsHit(s: string, marker: string, i: nat)
    requires i <= |s| && KeyValue(marker).Valid()
    ensures Hit(KeyValue(marker), s[i..]) <==> Occurs(s, marker, i)
    ensures forall e: nat :: IsPairAt(s, marker, i, e) ==> Cut(KeyValue(marker), s[i..]) == e - i
  {
    var t, m := s[i..], |marker|;
    OccursIsPrefix(s, marker, i);
    forall e: nat | IsPairAt(s, marker, i, e) ensures Cut(KeyValue(marker), t) == e - i {
      assert forall j :: m <= j < e - i ==> t[j] == s[i + j];
      assert e < |s| ==> t[e - i] == s[e];
      RunEndIs(t, m, NonSpace, e - i);
    }
  }

  lemma PairLaw(s: string, marker: string, p: nat, e: nat)
    requires KeyValue(marker).Valid() && IsPairAt(s, marker, p, e)
    requires forall i :: 0 <= i < p ==> !Occurs(s, marker, i)
    ensures Rewrite(KeyValue(marker), s) ==
            s[..p + |marker|] + "[REDACTED]" + Rewrite(KeyValue(marker), s[e..])
  {
    hide Hit, Cut, Rewrite, Occurs;
    assert p <= e <= |s| && Occurs(s, marker, p);
    forall i | 0 <= i < p ensures !Hit(KeyValue(marker), s[i..]) {
      PairIsHit(s, marker, i);
    }
    PairIsHit(s, marker, p);
    MatchIsReplaced(KeyValue(marker), s, p);
  }

  lemma NoPairLaw(s: string, marker: string)
    requires KeyValue(marker).Valid() && forall i :: 0 <= i < |s| ==> !Occurs(s, marker, i)
    ensures Rewrite(KeyValue(marker), s) == s
  {
    hide Hit, Occurs;
    forall i | 0 <= i < |s| ensures !Hit(KeyValue(marker), s[i..]) {
      PairIsHit(s, marker, i);
    }
    NothingIsReplaced(KeyValue(marker), s);
  }

  // ----- the order

  /** The text after the assignment scan and after each scan that follows: keys, tokens, blocks, and the six markers. */
  lemma ScansInOrder(input: string) returns (texts: seq<string>)
    ensures SCANS == [
      AwsKey, PrefixedToken("ghp_", 24), PrefixedToken("glpat-", 24), PrefixedToken("sk-", 24), PemBlock,
      KeyValue("token="), KeyValue("TOKEN="), KeyValue("password="), KeyValue("PASSWORD="), KeyValue("secret="),
      KeyValue("SECRET=")]
    ensures |texts| == 12 && texts[0] == Env(input) && texts[11] == RedactedText(input)
    ensures forall k :: 0 <= k < 11 ==> SCANS[k].Valid() && texts[k + 1] == Rewrite(SCANS[k], texts[k])
  {
    hide Rewrite, Env, Rule.Valid;
    ScansAreValid();
    texts := AfterEach(SCANS, Env(input));
  }

  lemma {:induction false} AfterEach(rules: seq<Rule>, s: string) returns (texts: seq<string>)
    requires AllValid(rules)
    ensures |texts| == |rules| + 1 && texts[0] == s && texts[|rules|] == RunScans(rules, s)
    ensures forall k :: 0 <= k < |rules| ==> texts[k + 1] == Rewrite(rules[k], texts[k])
    decreases |rules|
  {
    hide Rewrite, Rule.Valid;
    texts := [s];
    if rules != [] {
      var rest := AfterEach(rules[1..], Rewrite(rules[0], s));
      texts := [s] + rest;
    }
  }
}
