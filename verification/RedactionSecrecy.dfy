/** What is hidden does not matter: texts that differ only in hidden values are redacted to the same text. */
module RedactionSecrecy {
  import opened Text
  import opened RedactionRules
  import opened EnvAssignments
  import opened Redactor

  // ----- texts as lines

  /** Lines with newlines between them. */
  function Joined(lines: seq<string>): string
    requires lines != []
  {
    if |lines| == 1 then lines[0] else lines[0] + "\n" + Joined(lines[1..])
  }

  predicate AreLines(lines: seq<string>) {
    lines != [] && forall i :: 0 <= i < |lines| ==> '\n' !in lines[i]
  }

  /** The same line, or two assignments that are hidden and differ in nothing but their values. */
  predicate SameButHidden(a: string, b: string) {
    || a == b
    || (IsHidden(a) && IsHidden(b) && a[..ValueStart(a)] == b[..ValueStart(b)] && a[ValueEnd(a)..] == b[ValueEnd(b)..])
  }

  lemma EnvOfLine(line: string)
    requires '\n' !in line
    ensures Env(line) == EnvLine(line)
  {
    NewlineFound(line, "");
  }

  lemma {:induction false} HiddenValuesDoNotMatter(a: seq<string>, b: seq<string>)
    requires AreLines(a) && AreLines(b) && |a| == |b|
    requires forall i :: 0 <= i < |a| ==> SameButHidden(a[i], b[i])
    ensures Env(Joined(a)) == Env(Joined(b))
    decreases |a|
  {
    hide Env, SameButHidden, IsHidden, ValueStart, ValueEnd;
    SameLine(a[0], b[0]);
    EnvOfLine(a[0]);
    EnvOfLine(b[0]);
    if |a| != 1 {
      HiddenValuesDoNotMatter(a[1..], b[1..]);
      EnvDistributes(a[0], Joined(a[1..]));
      EnvDistributes(b[0], Joined(b[1..]));
    }
  }

  lemma SameLine(a: string, b: string)
    requires SameButHidden(a, b)
    ensures EnvLine(a) == EnvLine(b)
  {
    hide IsHidden, ValueStart, ValueEnd;
  }

  /** Texts that line by line differ only in hidden values are redacted to the same text. */
  lemma RedactionHidesValues(a: seq<string>, b: seq<string>)
    requires AreLines(a) && AreLines(b) && |a| == |b|
    requires forall i :: 0 <= i < |a| ==> SameButHidden(a[i], b[i])
    ensures RedactedText(Joined(a)) == RedactedText(Joined(b))
  {
    hide Env, RunScans;
    HiddenValuesDoNotMatter(a, b);
  }

  // ----- sensitive keys

  /** Everything up to the value of an assignment to a sensitive key. */
  predicate IsSensitiveHead(head: string) {
    IsAssignment(head) && ValueStart(head) == |head| && IsSensitive(Key(head)) && '\n' !in head
  }

  predicate IsValue(v: string) {
    forall i :: 0 <= i < |v| ==> Is(v[i], Value)
  }

  /** What may follow a value on its line. */
  predicate IsTail(tail: string) {
    (tail != "" ==> !Is(tail[0], Value)) && '\n' !in tail
  }

  /** The value of a sensitive assignment is hidden whatever it is. */
  lemma SensitiveValueIsHidden(head: string, v: string, tail: string)
    requires IsSensitiveHead(head) && IsValue(v) && IsTail(tail) && (v == "" ==> tail == "" || !Is(tail[0], Blank))
    ensures var line := head + v + tail;
            && '\n' !in line && IsHidden(line)
            && ValueStart(line) == |head| && line[..|head|] == head
            && ValueEnd(line) == |head + v| && line[ValueEnd(line)..] == tail
  {
    hide Key, RunEnd, IsSensitive;
    var line := head + v + tail;
    assert line[..|head|] == head && head[..|head|] == head;
    ParseOfPrefix(head, line, |head|);
    ValueStands(head, v, tail);
    NoNewlineIn(v);
  }

  lemma NoNewlineIn(v: string)
    requires IsValue(v)
    ensures '\n' !in v
  {
    assert forall i :: 0 <= i < |v| ==> v[i] != '\n';
  }

  lemma ValueStands(head: string, v: string, tail: string)
    requires IsSensitiveHead(head) && IsValue(v) && IsTail(tail) && (v == "" ==> tail == "" || !Is(tail[0], Blank))
    requires IsAssignment(head + v + tail) && Equals(head + v + tail) == Equals(head)
    ensures ValueStart(head + v + tail) == |head| && ValueEnd(head + v + tail) == |head + v|
  {
    hide IsAssignment, Equals, IsSensitive, Key, RunEnd;
    var line, from := head + v + tail, Equals(head) + 1;
    assert forall i :: from <= i < |head| ==> line[i] == head[i];
    assert forall i :: |head| <= i < |head + v| ==> line[i] == v[i - |head|];
    assert |head + v| < |line| ==> line[|head + v|] == tail[0];
    assert RunEnd(head, from, Blank) == |head|;
    RunEndIs(line, from, Blank, |head|);
    RunEndIs(line, |head|, Value, |head + v|);
  }

  /** No part of a sensitive value can be told from the redacted text: with any other value it is the same. */
  lemma SecretsDoNotMatter(lines: seq<string>, k: nat, head: string, v: string, w: string, tail: string)
    requires AreLines(lines) && k < |lines|
    requires IsSensitiveHead(head) && IsTail(tail) && IsValue(v) && IsValue(w)
    requires v == "" || w == "" ==> tail == "" || !Is(tail[0], Blank)
    ensures RedactedText(Joined(lines[k := head + v + tail])) == RedactedText(Joined(lines[k := head + w + tail]))
  {
    hide IsSensitiveHead, IsTail, IsValue, IsHidden, ValueStart, ValueEnd, RedactedText, Joined;
    SensitiveValueIsHidden(head, v, tail);
    SensitiveValueIsHidden(head, w, tail);
    RedactionHidesValues(lines[k := head + v + tail], lines[k := head + w + tail]);
  }

  // ----- the later scans

  /** What a scan replaces does not matter either: the same place with another match gives the same text. */
  lemma ScanForgetsMatch(rule: Rule, front: string, s: string, t: string)
    requires rule.Valid() && Hit(rule, s) && Hit(rule, t)
    requires forall i :: 0 <= i < |front| ==> !Hit(rule, (front + s)[i..]) && !Hit(rule, (front + t)[i..])
    requires s[..rule.Keep()] == t[..rule.Keep()] && s[Cut(rule, s)..] == t[Cut(rule, t)..]
    ensures Rewrite(rule, front + s) == Rewrite(rule, front + t)
  {
    hide Hit, Cut, Rewrite;
    Skip(rule, front + s, |front|);
    Skip(rule, front + t, |front|);
    RewriteAtHit(rule, s);
    RewriteAtHit(rule, t);
    assert (front + s)[|front|..] == s && (front + t)[|front|..] == t;
    assert (front + s)[..|front|] == front && (front + t)[..|front|] == front;
  }
}
