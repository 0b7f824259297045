/** The redactor's later scans as the loops they are: a cursor moves over a text that is rewritten in place. */
module RedactionLoops {
  import opened Text
  import opened RedactionRules

  /** std::string::replace. */
  function Replace(s: string, pos: nat, count: nat, insert: string): string
    requires pos + count <= |s|
  {
    s[..pos] + insert + s[pos + count..]
  }

  /** A scan has got as far as pos: what is left to do is to rewrite the text from there. */
  ghost predicate ScannedTo(rule: Rule, input: string, text: string, pos: int)
    requires rule.Valid()
  {
    0 <= pos <= |text| && text[..pos] + Rewrite(rule, text[pos..]) == Rewrite(rule, input)
  }

  lemma ScanStarts(rule: Rule, input: string)
    requires rule.Valid()
    ensures ScannedTo(rule, input, input, 0)
  {
    assert input[..0] + Rewrite(rule, input[0..]) == Rewrite(rule, input) by { assert input[0..] == input; }
  }

  lemma ScanMoves(rule: Rule, input: string, text: string, pos: nat, next: nat)
    requires rule.Valid() && ScannedTo(rule, input, text, pos) && pos <= next <= |text|
    requires forall i :: pos <= i < next ==> !Hit(rule, text[i..])
    ensures ScannedTo(rule, input, text, next)
  {
    hide Rewrite, Hit;
    var rest := text[pos..];
    forall i | 0 <= i < next - pos ensures !Hit(rule, rest[i..]) {
      assert rest[i..] == text[pos + i..];
    }
    Skip(rule, rest, next - pos);
    assert rest[next - pos..] == text[next..];
    assert text[..next] == text[..pos] + rest[..next - pos];
    Regrouped(text[..pos], rest[..next - pos], Rewrite(rule, text[next..]));
  }

  lemma ScanEnds(rule: Rule, input: string, text: string, pos: nat)
    requires rule.Valid() && ScannedTo(rule, input, text, pos)
    requires forall i :: pos <= i < |text| ==> !Hit(rule, text[i..])
    ensures text == Rewrite(rule, input)
  {
    ScanMoves(rule, input, text, pos, |text|);
    assert text[|text|..] == "" && text[..|text|] == text;
  }

  lemma ScanReplaces(rule: Rule, input: string, text: string, pos: nat, next: string)
    requires rule.Valid() && ScannedTo(rule, input, text, pos) && Hit(rule, text[pos..])
    requires next == Replace(text, pos + rule.Keep(), Cut(rule, text[pos..]) - rule.Keep(), REDACTED)
    ensures ScannedTo(rule, input, next, pos + rule.Keep() + |REDACTED|)
    ensures pos + rule.Keep() + |REDACTED| <= |next| && |next| - (pos + rule.Keep() + |REDACTED|) < |text| - pos
  {
    hide Rewrite, Hit, Cut;
    RewriteAtHit(rule, text[pos..]);
    var rest, k := text[pos..], rule.Keep();
    var done, tail := text[..pos] + rest[..k] + REDACTED, rest[Cut(rule, rest)..];
    assert tail == text[pos + Cut(rule, rest)..];
    assert text[..pos + k] == text[..pos] + rest[..k];
    Glue(text[..pos], rest[..k], Rewrite(rule, tail));
    assert next == done + tail;
    assert next[..|done|] == done && next[|done|..] == tail;
  }

  lemma Glue(a: string, b: string, c: string)
    ensures a + (b + REDACTED + c) == a + b + REDACTED + c
  {
  }

  lemma RunFrom(s: string, pos: nat, from: nat, k: CharClass)
    requires pos <= from <= |s|
    ensures RunEnd(s, from, k) == pos + RunEnd(s[pos..], from - pos, k)
  {
    var e := RunEnd(s[pos..], from - pos, k);
    assert forall i :: 0 <= i < |s| - pos ==> s[pos..][i] == s[pos + i];
    assert forall i :: from <= i < pos + e ==> s[i] == s[pos..][i - pos];
    RunEndIs(s, from, k, pos + e);
  }

  /** What std::string::find looks for. */
  function Start(rule: Rule): string {
    match rule
    case AwsKey => AWS_PREFIX
    case PrefixedToken(prefix, _) => prefix
    case PemBlock => PEM_BEGIN
    case KeyValue(marker) => marker
  }

  /** The scan moves to the next place where a match can start; if there is none, it is done. */
  lemma ScanFinds(rule: Rule, input: string, text: string, pos: nat)
    requires rule.Valid() && ScannedTo(rule, input, text, pos)
    ensures var found := Find(text, Start(rule), pos);
            if found == NPOS then text == Rewrite(rule, input)
            else ScannedTo(rule, input, text, found) && Start(rule) <= text[found..]
  {
    var found := Find(text, Start(rule), pos);
    forall i | pos <= i < (if found == NPOS then |text| else found) ensures !Hit(rule, text[i..]) {
      OccursIsPrefix(text, Start(rule), i);
    }
    if found == NPOS {
      ScanEnds(rule, input, text, pos);
    } else {
      OccursIsPrefix(text, Start(rule), found);
      ScanMoves(rule, input, text, pos, found);
    }
  }

  // ----- AWS keys

  /** A key that starts three characters into a candidate makes the candidate a key. */
  lemma OverlappingKey(s: string)
    requires AWS_PREFIX <= s && Hit(AwsKey, s[3..])
    ensures Hit(AwsKey, s)
  {
    assert forall i :: 0 <= i < |s| - 3 ==> s[3..][i] == s[3 + i];
    assert s[4] == AWS_PREFIX[1] && s[5] == AWS_PREFIX[2] && s[6] == AWS_PREFIX[3];
    assert forall i :: 7 <= i < 20 ==> s[i] == s[3..][i - 3];
  }

  /** The four places a failed candidate is skipped by hold no key, although AKIA overlaps itself. */
  lemma AwsMayJump(s: string, d: nat)
    requires AWS_PREFIX <= s && !Hit(AwsKey, s) && d < 4
    ensures !Hit(AwsKey, s[d..])
  {
    assert s[0..] == s;
    assert forall i :: 0 <= i < 4 ==> s[i] == AWS_PREFIX[i];
    if d == 3 {
      if Hit(AwsKey, s[3..]) {
        OverlappingKey(s);
      }
    } else if 0 < d {
      assert s[d..][0] == s[d] != AWS_PREFIX[0];
    }
  }

  lemma KeyFound(text: string, pos: nat)
    requires pos <= |text| && AWS_PREFIX <= text[pos..]
    ensures Hit(AwsKey, text[pos..]) <==>
            pos + 20 <= |text| && forall i :: pos + 4 <= i < pos + 20 ==> Is(text[i], UpperOrDigit)
    ensures Hit(AwsKey, text[pos..]) ==> Cut(AwsKey, text[pos..]) == 20
  {
    var s := text[pos..];
    assert forall i :: 0 <= i < |s| ==> s[i] == text[pos + i];
    assert forall i :: pos <= i < |text| ==> text[i] == s[i - pos];
  }

  lemma AwsStep(input: string, text: string, pos: nat)
    requires ScannedTo(AwsKey, input, text, pos) && AWS_PREFIX <= text[pos..] && !Hit(AwsKey, text[pos..])
    ensures ScannedTo(AwsKey, input, text, pos + 4)
  {
    forall i | pos <= i < pos + 4 ensures !Hit(AwsKey, text[i..]) {
      AwsMayJump(text[pos..], i - pos);
      assert text[pos..][i - pos..] == text[i..];
    }
    ScanMoves(AwsKey, input, text, pos, pos + 4);
  }

  /** redact_aws_keys. */
  method RedactAwsKeys(input: string) returns (text: string)
    ensures text == Rewrite(AwsKey, input)
  {
    hide Rewrite, Hit, Cut, ScannedTo, Occurs, Find, RunEnd, Is;
    text := input;
    var pos := 0;
    ScanStarts(AwsKey, input);
    while true
      invariant 0 <= pos <= |text| && ScannedTo(AwsKey, input, text, pos)
      decreases |text| - pos
    {
      ScanFinds(AwsKey, input, text, pos);
      var found := Find(text, AWS_PREFIX, pos);
      if found == NPOS {
        return;
      }
      pos := found;
      KeyFound(text, pos);
      if pos + 20 <= |text| {
        var ok := true;
        var i := 4;
        while i < 20
          invariant 4 <= i <= 20 && ok
          invariant forall j :: pos + 4 <= j < pos + i ==> Is(text[j], UpperOrDigit)
        {
          if !Is(text[pos + i], UpperOrDigit) {
            ok := false;
            break;
          }
          i := i + 1;
        }
        if ok {
          ghost var before := text;
          text := Replace(text, pos, 20, REDACTED);
          ScanReplaces(AwsKey, input, before, pos, text);
          pos := pos + |REDACTED|;
          continue;
        }
      }
      AwsStep(input, text, pos);
      pos := pos + 4;
    }
  }

  // ----- prefixed tokens

  /** A run of token characters that is too short is too short for every later prefix in it. */
  lemma PrefixMayJump(prefix: string, minLength: nat, s: string, d: nat)
    requires PrefixedToken(prefix, minLength).Valid() && prefix <= s && d < |prefix|
    requires RunEnd(s, |prefix|, TokenChar) < minLength
    ensures !Hit(PrefixedToken(prefix, minLength), s[d..])
  {
    var n := |prefix|;
    if prefix <= s[d..] {
      RunFrom(s, d, d + n, TokenChar);
      assert forall i :: d <= i < d + n ==> s[i] == s[d..][i - d] == prefix[i - d];
      RunReaches(s, n, d + n, TokenChar);
    }
  }

  /** Starting later in the same run ends at the same place. */
  lemma {:induction false} RunReaches(s: string, from: nat, later: nat, k: CharClass)
    requires from <= later <= |s| && forall i :: from <= i < later ==> Is(s[i], k)
    ensures RunEnd(s, from, k) == RunEnd(s, later, k)
    decreases later - from
  {
    if from < later {
      RunReaches(s, from + 1, later, k);
    }
  }

  lemma PrefixStep(prefix: string, minLength: nat, input: string, text: string, pos: nat)
    requires var rule := PrefixedToken(prefix, minLength);
             rule.Valid() && ScannedTo(rule, input, text, pos) && prefix <= text[pos..] && !Hit(rule, text[pos..])
    ensures ScannedTo(PrefixedToken(prefix, minLength), input, text, pos + |prefix|)
  {
    var rule := PrefixedToken(prefix, minLength);
    forall i | pos <= i < pos + |prefix| ensures !Hit(rule, text[i..]) {
      PrefixMayJump(prefix, minLength, text[pos..], i - pos);
      assert text[pos..][i - pos..] == text[i..];
    }
    ScanMoves(rule, input, text, pos, pos + |prefix|);
  }

  lemma TokenFound(prefix: string, minLength: nat, text: string, pos: nat)
    requires var rule := PrefixedToken(prefix, minLength);
             rule.Valid() && pos <= |text| && prefix <= text[pos..]
    ensures var rule := PrefixedToken(prefix, minLength);
            var end := RunEnd(text, pos + |prefix|, TokenChar);
            && (Hit(rule, text[pos..]) <==> minLength <= end - pos)
            && (Hit(rule, text[pos..]) ==> Cut(rule, text[pos..]) == end - pos)
  {
    RunFrom(text, pos, pos + |prefix|, TokenChar);
  }

  /** redact_prefixed_tokens. */
  method RedactPrefixedTokens(input: string, prefix: string, minLength: nat) returns (text: string)
    requires PrefixedToken(prefix, minLength).Valid()
    ensures text == Rewrite(PrefixedToken(prefix, minLength), input)
  {
    hide Rewrite, Hit, Cut, ScannedTo, Occurs, Find, RunEnd, Is;
    ghost var rule := PrefixedToken(prefix, minLength);
    text := input;
    var pos := 0;
    ScanStarts(rule, input);
    while true
      invariant 0 <= pos <= |text| && ScannedTo(rule, input, text, pos)
      decreases |text| - pos
    {
      ScanFinds(rule, input, text, pos);
      var found := Find(text, prefix, pos);
      if found == NPOS {
        return;
      }
      pos := found;
      var end := SkipRun(text, pos + |prefix|, |text|, TokenChar);
      TokenFound(prefix, minLength, text, pos);
      if minLength <= end - pos {
        ghost var before := text;
        text := Replace(text, pos, end - pos, REDACTED);
        ScanReplaces(rule, input, before, pos, text);
        pos := pos + |REDACTED|;
      } else {
        PrefixStep(prefix, minLength, input, text, pos);
        pos := pos + |prefix|;
      }
    }
  }

  /** The index loops of the scans: move on while the characters before `to` are of class k. */
  method SkipRun(text: string, from: nat, to: nat, k: CharClass) returns (end: nat)
    requires from <= to <= |text|
    ensures from <= end <= to
    ensures end == RunEnd(text[..to], from, k)
    ensures to == |text| ==> end == RunEnd(text, from, k)
  {
    end := from;
    while end < to && Is(text[end], k)
      invariant from <= end <= to
      invariant forall i :: from <= i < end ==> Is(text[i], k)
    {
      end := end + 1;
    }
    RunEndIs(text[..to], from, k, end);
    assert to == |text| ==> text[..to] == text;
  }

  // ----- PEM blocks

  /** Without an end marker ahead there is no block ahead. */
  lemma NoBlockAhead(text: string, pos: nat)
    requires pos <= |text| && Find(text, PEM_END, pos) == NPOS
    ensures forall i :: pos <= i < |text| ==> !Hit(PemBlock, text[i..])
  {
    forall i | pos <= i < |text| ensures !Hit(PemBlock, text[i..]) {
      FindFrom(text, PEM_END, i, i);
    }
  }

  lemma BlockFound(text: string, pos: nat)
    requires pos <= |text| && PEM_BEGIN <= text[pos..] && Find(text, PEM_END, pos) != NPOS
    ensures Hit(PemBlock, text[pos..])
    ensures var endOfLine := Find(text, "\n", Find(text, PEM_END, pos));
            pos + Cut(PemBlock, text[pos..]) == if endOfLine == NPOS then |text| else endOfLine
  {
    FindFrom(text, PEM_END, pos, pos);
    FindFrom(text, "\n", pos, Find(text, PEM_END, pos));
  }

  /** redact_pem_blocks. */
  method RedactPemBlocks(input: string) returns (text: string)
    ensures text == Rewrite(PemBlock, input)
  {
    hide Rewrite, Hit, Cut, ScannedTo, Occurs, Find, RunEnd, Is;
    text := input;
    var pos := 0;
    ScanStarts(PemBlock, input);
    while true
      invariant 0 <= pos <= |text| && ScannedTo(PemBlock, input, text, pos)
      decreases |text| - pos
    {
      ScanFinds(PemBlock, input, text, pos);
      var found := Find(text, PEM_BEGIN, pos);
      if found == NPOS {
        return;
      }
      pos := found;
      var endMarker := Find(text, PEM_END, pos);
      if endMarker == NPOS {
        NoBlockAhead(text, pos);
        ScanEnds(PemBlock, input, text, pos);
        return;
      }
      var endOfLine := Find(text, "\n", endMarker);
      var eraseEnd := if endOfLine == NPOS then |text| else endOfLine;
      BlockFound(text, pos);
      ghost var before := text;
      text := Replace(text, pos, eraseEnd - pos, REDACTED);
      ScanReplaces(PemBlock, input, before, pos, text);
      pos := pos + |REDACTED|;
    }
  }

  // ----- key=value pairs in free text

  lemma PairFound(marker: string, text: string, pos: nat)
    requires KeyValue(marker).Valid() && pos <= |text| && marker <= text[pos..]
    ensures Hit(KeyValue(marker), text[pos..])
    ensures pos + Cut(KeyValue(marker), text[pos..]) == RunEnd(text, pos + |marker|, NonSpace)
  {
    RunFrom(text, pos, pos + |marker|, NonSpace);
  }

  /** The loop over one marker in redact_secrets. */
  method RedactKeyValues(input: string, marker: string) returns (text: string)
    requires KeyValue(marker).Valid()
    ensures text == Rewrite(KeyValue(marker), input)
  {
    hide Rewrite, Hit, Cut, ScannedTo, Occurs, Find, RunEnd, Is;
    ghost var rule := KeyValue(marker);
    text := input;
    var pos := 0;
    ScanStarts(rule, input);
    while true
      invariant 0 <= pos <= |text| && ScannedTo(rule, input, text, pos)
      decreases |text| - pos
    {
      ScanFinds(rule, input, text, pos);
      var found := Find(text, marker, pos);
      if found == NPOS {
        return;
      }
      var valueStart := found + |marker|;
      var valueEnd := SkipRun(text, valueStart, |text|, NonSpace);
      PairFound(marker, text, found);
      ghost var before := text;
      text := Replace(text, valueStart, valueEnd - valueStart, REDACTED);
      ScanReplaces(rule, input, before, found, text);
      pos := valueStart + |REDACTED|;
    }
  }
}
