/** The redactor's first scan: KEY=value lines, one line at a time. */
module EnvAssignments {
  import opened Text
  import opened RedactionRules

  // ----- reading the line at the head of a text

  predicate IsIdentStart(c: char) { IsAlpha(c) || c == '_' }

  function KeyStart(s: string): nat { RunEnd(s, 0, Blank) }

  function KeyEnd(s: string): (e: nat)
    ensures KeyStart(s) <= e <= |s|
  {
    var k := KeyStart(s);
    if k < |s| && IsIdentStart(s[k]) then RunEnd(s, k + 1, Identifier) else k
  }

  function Key(s: string): string { s[KeyStart(s)..KeyEnd(s)] }

  function Equals(s: string): nat { RunEnd(s, KeyEnd(s), Blank) }

  predicate IsAssignment(s: string) {
    KeyStart(s) < KeyEnd(s) && Equals(s) < |s| && s[Equals(s)] == '='
  }

  function ValueStart(s: string): nat
    requires IsAssignment(s)
  {
    RunEnd(s, Equals(s) + 1, Blank)
  }

  function ValueEnd(s: string): nat
    requires IsAssignment(s)
  {
    RunEnd(s, ValueStart(s), Value)
  }

  function ValueOf(s: string): string
    requires IsAssignment(s)
  {
    s[ValueStart(s)..ValueEnd(s)]
  }

  // ----- which values are hidden

  function ToLower(c: char): char {
    if IsUpper(c) then (c as int + 32) as char else c
  }

  predicate StartsWithIgnoringCase(s: string, prefix: string) {
    |prefix| <= |s| && forall i :: 0 <= i < |prefix| ==> ToLower(s[i]) == ToLower(prefix[i])
  }

  const SENSITIVE_STARTS := ["API", "TOKEN", "SECRET", "PASSWORD", "PASSWD"]
  const SENSITIVE_PARTS := ["KEY", "TOKEN", "SECRET"]

  predicate IsSensitive(key: string) {
    || (exists i :: 0 <= i < |SENSITIVE_STARTS| && StartsWithIgnoringCase(key, SENSITIVE_STARTS[i]))
    || (exists i :: 0 <= i < |SENSITIVE_PARTS| && Find(key, SENSITIVE_PARTS[i], 0) != NPOS)
  }

  predicate LooksSimple(value: string) {
    value == "true" || value == "false" || value == "1" || value == "0"
  }

  /** Values of sensitive keys, and long values that are no simple flag. */
  predicate MustHide(key: string, value: string) {
    IsSensitive(key) || (!LooksSimple(value) && 8 <= |value|)
  }

  predicate IsHidden(s: string) {
    IsAssignment(s) && MustHide(Key(s), ValueOf(s))
  }

  function EnvLine(line: string): string {
    if IsHidden(line) then line[..ValueStart(line)] + REDACTED + line[ValueEnd(line)..] else line
  }

  /** Every line on its own; newlines stay. */
  function Env(s: string): string
    decreases |s|
  {
    var newline := Find(s, "\n", 0);
    if newline == NPOS then EnvLine(s) else EnvLine(s[..newline]) + "\n" + Env(s[newline + 1..])
  }

  // ----- a line parses the same whatever follows it

  /** The line ends here: end of text or a newline. */
  predicate AtLineEnd(s: string) { s == "" || s[0] == '\n' }

  predicate StopsAtNewline(k: CharClass) { !Is('\n', k) }

  lemma RunInFront(front: string, back: string, from: nat, k: CharClass)
    requires from <= |front| && AtLineEnd(back) && StopsAtNewline(k)
    ensures RunEnd(front + back, from, k) == RunEnd(front, from, k)
  {
    var e := RunEnd(front, from, k);
    var s := front + back;
    assert forall i :: from <= i < e ==> s[i] == front[i];
    RunEndIs(s, from, k, e);
  }

  lemma SliceInFront(front: string, back: string, i: nat, j: nat)
    requires i <= j <= |front|
    ensures (front + back)[i..j] == front[i..j]
  {
  }

  lemma KeyInFront(line: string, back: string)
    requires AtLineEnd(back)
    ensures KeyStart(line + back) == KeyStart(line) && KeyEnd(line + back) == KeyEnd(line)
    ensures Key(line + back) == Key(line)
  {
    RunInFront(line, back, 0, Blank);
    var k := KeyStart(line);
    if k < |line| {
      assert (line + back)[k] == line[k];
      RunInFront(line, back, k + 1, Identifier);
    }
    SliceInFront(line, back, KeyStart(line), KeyEnd(line));
  }

  lemma AssignmentInFront(line: string, back: string)
    requires AtLineEnd(back)
    ensures KeyEnd(line + back) == KeyEnd(line) && Equals(line + back) == Equals(line)
    ensures IsAssignment(line + back) <==> IsAssignment(line)
    ensures IsAssignment(line) ==> ValueStart(line + back) == ValueStart(line)
  {
    KeyInFront(line, back);
    RunInFront(line, back, KeyEnd(line), Blank);
    var e := Equals(line);
    if e < |line| {
      assert (line + back)[e] == line[e];
      RunInFront(line, back, e + 1, Blank);
    }
  }

  // ----- the same prefix up to the value parses the same

  lemma RunOfPrefix(s: string, t: string, n: nat, from: nat, k: CharClass)
    requires n <= |s| && n <= |t| && s[..n] == t[..n]
    requires from <= |s| && RunEnd(s, from, k) < n
    ensures RunEnd(t, from, k) == RunEnd(s, from, k)
  {
    var e := RunEnd(s, from, k);
    assert forall i :: 0 <= i < n ==> s[i] == s[..n][i] == t[i];
    RunEndIs(t, from, k, e);
  }

  lemma KeyOfPrefix(s: string, t: string, n: nat)
    requires KeyStart(s) < KeyEnd(s) < n <= |s| && n <= |t| && s[..n] == t[..n]
    ensures KeyStart(t) == KeyStart(s) && KeyEnd(t) == KeyEnd(s) && Key(t) == Key(s)
  {
    var k, e := KeyStart(s), KeyEnd(s);
    RunOfPrefix(s, t, n, 0, Blank);
    assert t[k] == t[..n][k] == s[..n][k] == s[k];
    RunOfPrefix(s, t, n, k + 1, Identifier);
    SliceOfPrefix(s, n, k, e);
    SliceOfPrefix(t, n, k, e);
  }

  lemma SliceOfPrefix(s: string, n: nat, i: nat, j: nat)
    requires i <= j <= n <= |s|
    ensures s[..n][i..j] == s[i..j]
  {
  }

  lemma ParseOfPrefix(s: string, t: string, n: nat)
    requires IsAssignment(s) && Equals(s) < n <= |s| && n <= |t| && s[..n] == t[..n]
    ensures IsAssignment(t) && KeyStart(t) == KeyStart(s) && KeyEnd(t) == KeyEnd(s) && Equals(t) == Equals(s)
    ensures Key(t) == Key(s)
  {
    KeyOfPrefix(s, t, n);
    RunOfPrefix(s, t, n, KeyEnd(s), Blank);
    assert t[Equals(s)] == t[..n][Equals(s)] == s[..n][Equals(s)];
  }

  // ----- one line

  lemma HiddenHead(line: string)
    requires IsHidden(line)
    ensures IsAssignment(EnvLine(line))
    ensures Key(EnvLine(line)) == Key(line) && ValueStart(EnvLine(line)) == ValueStart(line)
  {
    var t, v := EnvLine(line), ValueStart(line);
    assert t[..v] == line[..v];
    ParseOfPrefix(line, t, v);
    assert forall i :: 0 <= i < v ==> t[i] == t[..v][i] == line[..v][i];
    assert t[v] == REDACTED[0];
    RunEndIs(t, Equals(t) + 1, Blank, v);
  }

  /** "[REDACTED]" between a head and what ends a value is a whole value. */
  lemma RedactedIsValue(head: string, back: string)
    requires back == "" || !Is(back[0], Value)
    ensures RunEnd(head + REDACTED + back, |head|, Value) == |head| + |REDACTED|
  {
    var t := head + REDACTED + back;
    assert forall i :: |head| <= i < |head| + |REDACTED| ==> t[i] == REDACTED[i - |head|];
    RunEndIs(t, |head|, Value, |head| + |REDACTED|);
  }

  /** Hiding a value leaves the key alone and makes the value exactly "[REDACTED]". */
  lemma EnvLineValue(line: string)
    requires IsHidden(line)
    ensures IsAssignment(EnvLine(line))
    ensures Key(EnvLine(line)) == Key(line) && ValueStart(EnvLine(line)) == ValueStart(line)
    ensures ValueOf(EnvLine(line)) == REDACTED
    ensures EnvLine(line)[ValueEnd(EnvLine(line))..] == line[ValueEnd(line)..]
  {
    HiddenHead(line);
    RedactedIsValue(line[..ValueStart(line)], line[ValueEnd(line)..]);
  }

  lemma RedactedValueIsFixed(line: string)
    requires IsAssignment(line) && ValueOf(line) == REDACTED
    ensures EnvLine(line) == line
  {
    assert line == line[..ValueStart(line)] + ValueOf(line) + line[ValueEnd(line)..];
  }

  lemma EnvLineIdempotent(line: string)
    ensures EnvLine(EnvLine(line)) == EnvLine(line)
  {
    if IsHidden(line) {
      EnvLineValue(line);
      RedactedValueIsFixed(EnvLine(line));
    }
  }

  lemma CountAround(a: string, b: string, c: string, s: string)
    requires s == a + b + c && '\n' !in b
    ensures multiset(s)['\n'] == multiset(a)['\n'] + multiset(c)['\n']
  {
  }

  /** Hiding a value adds and removes no newline. */
  lemma EnvLineNewlines(line: string)
    ensures multiset(EnvLine(line))['\n'] == multiset(line)['\n']
  {
    hide RunEnd, IsSensitive, LooksSimple, IsAssignment, Key, ValueStart;
    if IsHidden(line) {
      var v, e := ValueStart(line), ValueEnd(line);
      assert '\n' !in line[v..e];
      CountAround(line[..v], line[v..e], line[e..], line);
      CountAround(line[..v], REDACTED, line[e..], EnvLine(line));
    }
  }

  // ----- the whole text

  /** The first line and the rest. */
  lemma EnvSplit(line: string, rest: string)
    requires '\n' !in line
    ensures Env(line + "\n" + rest) == EnvLine(line) + "\n" + Env(rest)
  {
    var s := line + "\n" + rest;
    NewlineFound(line, rest);
    assert s[..|line|] == line && s[|line| + 1..] == rest;
  }

  lemma Regroup(a: string, b: string, c: string)
    ensures (a + "\n" + b) + "\n" + c == a + "\n" + (b + "\n" + c)
  {
  }

  /** The scan works line by line: it distributes over a newline. */
  lemma {:induction false} EnvDistributes(a: string, b: string)
    ensures Env(a + "\n" + b) == Env(a) + "\n" + Env(b)
    decreases |a|
  {
    var f := Find(a, "\n", 0);
    if f == NPOS {
      NoNewline(a);
      EnvSplit(a, b);
    } else {
      FirstNewline(a);
      var line, rest := a[..f], a[f + 1..];
      Regroup(line, rest, b);
      EnvSplit(line, rest + "\n" + b);
      EnvSplit(line, rest);
      EnvDistributes(rest, b);
      Regroup(EnvLine(line), Env(rest), Env(b));
    }
  }

  lemma {:induction false} EnvKeepsNewlines(s: string)
    ensures multiset(Env(s))['\n'] == multiset(s)['\n']
    decreases |s|
  {
    var f := Find(s, "\n", 0);
    if f == NPOS {
      EnvLineNewlines(s);
    } else {
      FirstNewline(s);
      EnvLineNewlines(s[..f]);
      EnvKeepsNewlines(s[f + 1..]);
      assert multiset(s) == multiset(s[..f]) + multiset("\n") + multiset(s[f + 1..]);
    }
  }

  lemma {:induction false} EnvIdempotent(s: string)
    ensures Env(Env(s)) == Env(s)
    decreases |s|
  {
    var f := Find(s, "\n", 0);
    if f == NPOS {
      NoNewline(s);
      EnvLineFree(s);
      EnvLineIdempotent(s);
    } else {
      FirstNewline(s);
      EnvLineFree(s[..f]);
      EnvIdempotent(s[f + 1..]);
      EnvDistributes(EnvLine(s[..f]), Env(s[f + 1..]));
      EnvLineIdempotent(s[..f]);
    }
  }

  /** A line stays one line, and a text of one line is that line. */
  lemma EnvLineFree(line: string)
    requires '\n' !in line
    ensures '\n' !in EnvLine(line)
    ensures Env(EnvLine(line)) == EnvLine(EnvLine(line))
  {
    EnvLineNewlines(line);
    NewlineFound(EnvLine(line), "");
  }
}
