/** What the redactor does, said by characters: the shape of what it looks for and what stands there afterwards. */
module RedactionLaws {
  import opened Text
  import opened RedactionRules
  import opened EnvAssignments
  import opened Redactor
  import opened RedactionSecrecy
  import opened RedactionTwice

  // ----- characters

  predicate IsLetter(c: char) { 'a' <= c <= 'z' || 'A' <= c <= 'Z' }

  predicate IsBlanks(s: string) {
    forall i :: 0 <= i < |s| ==> s[i] == ' ' || s[i] == '\t'
  }

  /** An identifier. */
  predicate IsKey(s: string) {
    && s != "" && (IsLetter(s[0]) || s[0] == '_')
    && forall i :: 0 <= i < |s| ==> IsLetter(s[i]) || '0' <= s[i] <= '9' || s[i] == '_'
  }

  predicate IsWord(s: string) {
    forall i :: 0 <= i < |s| ==> s[i] != ' ' && s[i] != '\t' && s[i] != '#' && s[i] != '\n'
  }

  predicate Contains(s: string, part: string) {
    exists i :: 0 <= i <= |s| && Occurs(s, part, i)
  }

  /** It starts with this word, whatever the case of its letters. */
  predicate StartsLike(s: string, upper: string, lower: string)
    requires |upper| == |lower|
  {
    |upper| <= |s| && forall i :: 0 <= i < |upper| ==> s[i] == upper[i] || s[i] == lower[i]
  }

  /** A key that speaks of keys, tokens, secrets or passwords. */
  predicate NamesSecret(key: string) {
    || Contains(key, "KEY") || Contains(key, "TOKEN") || Contains(key, "SECRET")
    || StartsLike(key, "API", "api") || StartsLike(key, "TOKEN", "token") || StartsLike(key, "SECRET", "secret")
    || StartsLike(key, "PASSWORD", "password") || StartsLike(key, "PASSWD", "passwd")
  }

  // ----- the shape of an assignment

  /** Blanks, a key, blanks, '=', blanks, a value, and what follows it on the line. */
  datatype Parts = Parts(indent: string, key: string, gap: string, blanks: string, value: string, tail: string)

  predicate IsHeadOf(s: string, indent: string, key: string, gap: string, blanks: string, rest: string) {
    && s == indent + key + gap + "=" + blanks + rest
    && IsBlanks(indent) && IsKey(key) && IsBlanks(gap) && IsBlanks(blanks)
    && (rest != "" ==> rest[0] != ' ' && rest[0] != '\t')
  }

  predicate HasShape(line: string, p: Parts) {
    && IsHeadOf(line, p.indent, p.key, p.gap, p.blanks, p.value + p.tail)
    && IsWord(p.value)
    && (p.tail != "" ==> p.tail[0] == ' ' || p.tail[0] == '\t' || p.tail[0] == '#')
  }

  /** The parts are found where they stand. */
  lemma HeadIsRead(s: string, indent: string, key: string, gap: string, blanks: string, rest: string)
    requires IsHeadOf(s, indent, key, gap, blanks, rest)
    ensures IsAssignment(s) && Key(s) == key && ValueStart(s) == |s| - |rest| && s[ValueStart(s)..] == rest
  {
    hide RunEnd, IsHeadOf, Is;
    var k, e, g, v := |indent|, |indent| + |key|, |indent| + |key| + |gap|, |indent| + |key| + |gap| + 1 + |blanks|;
    HeadStands(s, indent, key, gap, blanks, rest);
    RunEndIs(s, 0, Blank, k);
    RunEndIs(s, k + 1, Identifier, e);
    RunEndIs(s, e, Blank, g);
    RunEndIs(s, g + 1, Blank, v);
  }

  lemma HeadStands(s: string, indent: string, key: string, gap: string, blanks: string, rest: string)
    requires IsHeadOf(s, indent, key, gap, blanks, rest)
    ensures var k, e, g := |indent|, |indent| + |key|, |indent| + |key| + |gap|;
            var v := g + 1 + |blanks|;
            && k < e <= g < v <= |s| && v == |s| - |rest|
            && s[k..e] == key && s[v..] == rest && s[g] == '='
            && (forall i :: 0 <= i < k || e <= i < g || g < i < v ==> Is(s[i], Blank))
            && !Is(s[k], Blank) && IsIdentStart(s[k])
            && (forall i :: k < i < e ==> Is(s[i], Identifier)) && !Is(s[e], Identifier)
            && !Is(s[g], Blank) && (v < |s| ==> !Is(s[v], Blank))
  {
    var k, e, g, v := |indent|, |indent| + |key|, |indent| + |key| + |gap|, |s| - |rest|;
    forall i | 0 <= i < v
      ensures s[i] == if i < k then indent[i] else if i < e then key[i - k] else if i < g then gap[i - e]
                      else if i == g then '=' else blanks[i - g - 1]
    {
    }
    assert v < |s| ==> s[v] == rest[0];
    assert s[k] == key[0];
  }

  lemma PartsAreRead(line: string, p: Parts)
    requires HasShape(line, p) && '\n' !in line
    ensures IsAssignment(line) && Key(line) == p.key && ValueOf(line) == p.value
    ensures line[..ValueStart(line)] == p.indent + p.key + p.gap + "=" + p.blanks && line[ValueEnd(line)..] == p.tail
  {
    hide IsAssignment, Key, ValueStart, RunEnd, IsHeadOf;
    HeadIsRead(line, p.indent, p.key, p.gap, p.blanks, p.value + p.tail);
    assert line == p.indent + p.key + p.gap + "=" + p.blanks + (p.value + p.tail) by { HeadEquation(line, p); }
    var v := ValueStart(line);
    assert forall i :: 0 <= i < |p.value| ==> line[v + i] == p.value[i];
    assert p.tail != "" ==> line[v + |p.value|] == p.tail[0];
    RunEndIs(line, v, Value, v + |p.value|);
  }

  lemma HeadEquation(line: string, p: Parts)
    requires HasShape(line, p)
    ensures line == p.indent + p.key + p.gap + "=" + p.blanks + (p.value + p.tail)
  {
  }

  /** The keys whose values are always hidden. */
  lemma SecretNames(key: string)
    ensures IsSensitive(key) <==> NamesSecret(key)
  {
    hide Find, StartsWithIgnoringCase, StartsLike, Contains;
    assert SENSITIVE_STARTS == ["API", "TOKEN", "SECRET", "PASSWORD", "PASSWD"];
    assert SENSITIVE_PARTS == ["KEY", "TOKEN", "SECRET"];
    FoundIsContained(key, SENSITIVE_PARTS[0]);
    FoundIsContained(key, SENSITIVE_PARTS[1]);
    FoundIsContained(key, SENSITIVE_PARTS[2]);
    StartsAlike(key, SENSITIVE_STARTS[0], "api");
    StartsAlike(key, SENSITIVE_STARTS[1], "token");
    StartsAlike(key, SENSITIVE_STARTS[2], "secret");
    StartsAlike(key, SENSITIVE_STARTS[3], "password");
    StartsAlike(key, SENSITIVE_STARTS[4], "passwd");
  }

  lemma FoundIsContained(s: string, part: string)
    ensures Find(s, part, 0) != NPOS <==> Contains(s, part)
  {
    hide Find;
    if Contains(s, part) {
      var i :| 0 <= i <= |s| && Occurs(s, part, i);
    }
  }

  predicate AreCases(upper: string, lower: string) {
    |upper| == |lower| && forall i :: 0 <= i < |upper| ==>
        IsUpper(upper[i]) && lower[i] == (upper[i] as int + 32) as char
  }

  lemma StartsAlike(s: string, upper: string, lower: string)
    requires AreCases(upper, lower)
    ensures StartsWithIgnoringCase(s, upper) <==> StartsLike(s, upper, lower)
  {
    if |upper| <= |s| {
      forall i | 0 <= i < |upper|
        ensures ToLower(s[i]) == ToLower(upper[i]) <==> s[i] == upper[i] || s[i] == lower[i]
      {
        var c := s[i];
        assert IsUpper(c) ==> (c as int + 32 == upper[i] as int + 32 <==> c == upper[i]);
      }
    }
  }

  // ----- the assignment scan

  predicate IsFlag(value: string) { value == "true" || value == "false" || value == "1" || value == "0" }

  /** An assignment loses its value exactly if its key names a secret, or the value is long and no flag. */
  lemma AssignmentLaw(line: string, p: Parts)
    requires HasShape(line, p) && '\n' !in line
    ensures EnvLine(line) ==
            if NamesSecret(p.key) || (8 <= |p.value| && !IsFlag(p.value))
            then p.indent + p.key + p.gap + "=" + p.blanks + "[REDACTED]" + p.tail
            else line
  {
    hide HasShape, IsAssignment, Key, ValueStart, ValueEnd, ValueOf, IsSensitive, NamesSecret;
    PartsAreRead(line, p);
    SecretNames(p.key);
  }

  /** A line of no such shape is kept. */
  lemma OtherLinesAreKept(line: string)
    requires '\n' !in line && forall p :: !HasShape(line, p)
    ensures EnvLine(line) == line
  {
    if IsAssignment(line) {
      ShapeOfAssignment(line);
    }
  }

  lemma RunIsBlanks(s: string, from: nat)
    requires from <= |s|
    ensures IsBlanks(s[from..RunEnd(s, from, Blank)])
  {
  }

  lemma RunIsKey(s: string)
    requires KeyStart(s) < KeyEnd(s)
    ensures IsKey(Key(s))
  {
    var k, key := KeyStart(s), Key(s);
    forall i | 0 <= i < |key| ensures IsLetter(key[i]) || '0' <= key[i] <= '9' || key[i] == '_' {
      assert key[i] == s[k + i];
    }
  }

  lemma KeyIsSlice(s: string)
    ensures Key(s) == s[KeyStart(s)..KeyEnd(s)]
  {
  }

  lemma RunIsWord(s: string, from: nat)
    requires from <= |s|
    ensures IsWord(s[from..RunEnd(s, from, Value)])
  {
  }

  lemma ShapeOfAssignment(line: string)
    requires IsAssignment(line) && '\n' !in line
    ensures exists p :: HasShape(line, p)
  {
    hide RunEnd, IsBlanks, IsKey, IsWord, IsIdentStart, Key;
    var k, e, g, v, w := KeyStart(line), KeyEnd(line), Equals(line), ValueStart(line), ValueEnd(line);
    var p := Parts(line[..k], line[k..e], line[e..g], line[g + 1..v], line[v..w], line[w..]);
    RunIsBlanks(line, 0);
    assert Key(line) == line[k..e] by { KeyIsSlice(line); }
    RunIsKey(line);
    RunIsBlanks(line, e);
    RunIsBlanks(line, g + 1);
    RunIsWord(line, v);
    assert p.indent == line[0..k];
    assert p.value + p.tail == line[v..];
    CutInSix(line, k, e, g, v);
    assert w < |line| ==> p.tail[0] == line[w] && line[w] in line;
    assert v < |line| ==> line[v..][0] == line[v];
    assert HasShape(line, p);
  }

  lemma CutInSix(s: string, k: nat, e: nat, g: nat, v: nat)
    requires k <= e <= g < v <= |s| && s[g] == '='
    ensures s == s[..k] + s[k..e] + s[e..g] + "=" + s[g + 1..v] + s[v..]
  {
    assert s[g..g + 1] == "=";
    assert s[..e] == s[..k] + s[k..e];
    assert s[..g] == s[..e] + s[e..g];
    assert s[..g + 1] == s[..g] + "=";
    assert s[..v] == s[..g + 1] + s[g + 1..v];
  }

  /** The scan of a text is the scan of its lines. */
  lemma {:induction false} LinesOnTheirOwn(lines: seq<string>, scanned: seq<string>)
    requires AreLines(lines) && |scanned| == |lines|
    requires forall i :: 0 <= i < |lines| ==> scanned[i] == EnvLine(lines[i])
    ensures Env(Joined(lines)) == Joined(scanned)
    decreases |lines|
  {
    hide Env, EnvLine;
    EnvOfLine(lines[0]);
    if |lines| != 1 {
      LinesOnTheirOwn(lines[1..], scanned[1..]);
      EnvDistributes(lines[0], Joined(lines[1..]));
    }
  }

  /**
   * Wherever a line of a redacted text assigns to a key that names a secret, "[REDACTED]" stands where the value
   * starts.
   */
  lemma SecretsAreMasked(input: string, i: nat, indent: string, key: string, gap: string, blanks: string, rest: string)
    requires i <= |RedactedText(input)| && (i == 0 || RedactedText(input)[i - 1] == '\n')
    requires IsHeadOf(RedactedText(input)[i..], indent, key, gap, blanks, rest) && NamesSecret(key)
    ensures "[REDACTED]" <= rest
  {
    hide RedactedText, IsAssignment, Key, ValueStart, IsHeadOf, IsSensitive, NamesSecret, Clean;
    var text := RedactedText(input);
    RedactedTextIsClean(input);
    HeadIsRead(text[i..], indent, key, gap, blanks, rest);
    SecretNames(key);
    assert text[0..] == text;
  }

  const MY_KEY := "MY_KEY=abc123"
  const MASKED := "MY_KEY=[REDACTED]"

  /** A short value is hidden if only the key names a secret. */
  lemma ShortSecretIsHidden()
    ensures RedactedText(MY_KEY) == MASKED
  {
    hide Env, Rewrite, RunScans, Rule.Valid;
    MyKeyIsMasked();
    ScansAreValid();
    forall k | 0 <= k < |SCANS| ensures Rewrite(SCANS[k], MASKED) == MASKED {
      NothingElseToDo(k);
    }
    AllFixed(SCANS, MASKED);
  }

  lemma MyKeyIsMasked()
    ensures Env(MY_KEY) == MASKED
  {
    hide Env, EnvLine, HasShape, NamesSecret;
    var p := Parts("", "MY_KEY", "", "", "abc123", "");
    assert HasShape(MY_KEY, p) by { ShapeOfMyKey(); }
    assert '\n' !in MY_KEY;
    AssignmentLaw(MY_KEY, p);
    MyKeyNamesSecret();
    EnvOfLine(MY_KEY);
    MaskedParts();
  }

  lemma MyKeyNamesSecret()
    ensures NamesSecret("MY_KEY")
  {
    assert Occurs("MY_KEY", "KEY", 3);
  }

  lemma MaskedParts()
    ensures "" + "MY_KEY" + "" + "=" + "" + "[REDACTED]" + "" == MASKED
  {
    assert "" + "MY_KEY" + "" + "=" + "" == "MY_KEY=";
    assert "MY_KEY=" + "[REDACTED]" == MASKED;
    assert MASKED + "" == MASKED;
  }

  lemma NothingElseToDo(k: nat)
    requires k < |SCANS|
    ensures Rewrite(SCANS[k], MASKED) == MASKED
  {
    hide Rewrite;
    if 5 <= k {
      MarkerScans(k - 5);
      NoMarkerInMasked(k - 5);
    }
    assert SCANS[k] in SCANS;
    NothingToDo(SCANS[k], MASKED);
  }

  lemma ShapeOfMyKey()
    ensures HasShape(MY_KEY, Parts("", "MY_KEY", "", "", "abc123", ""))
  {
    assert "" + "MY_KEY" + "" + "=" + "" + ("abc123" + "") == MY_KEY;
  }

  lemma NoMarkerInMasked(k: nat)
    requires k < |MARKERS|
    ensures forall i :: 0 <= i <= |MASKED| ==> !(MARKERS[k] <= MASKED[i..])
  {
    var marker := MARKERS[k];
    forall i | 0 <= i <= |MASKED| ensures !(marker <= MASKED[i..]) {
      if |marker| <= |MASKED| - i {
        assert marker[|marker| - 1] == '=' && MASKED[i..][|marker| - 1] == MASKED[i + |marker| - 1];
        assert MASKED[i..][|marker| - 2] == MASKED[i + |marker| - 2];
      }
    }
  }
}
