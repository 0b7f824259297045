/** Exactly when redacting a redacted text changes nothing. */
module RedactionStability {
  import opened Text
  import opened RedactionRules
  import opened RedactionGuarantees
  import opened EnvAssignments
  import opened Redactor

  // ----- the assignment scan as a list of edits

  /** Keep a character, or put "[REDACTED]" in the place of a text. */
  datatype Edit = Keep(c: char) | Mask(text: string)

  function Before(e: Edit): string { if e.Keep? then [e.c] else e.text }

  function After(e: Edit): string { if e.Keep? then [e.c] else REDACTED }

  function In(es: seq<Edit>): string {
    if es == [] then "" else Before(es[0]) + In(es[1..])
  }

  function Out(es: seq<Edit>): string {
    if es == [] then "" else After(es[0]) + Out(es[1..])
  }

  function KeepAll(s: string): seq<Edit> {
    if s == "" then [] else [Keep(s[0])] + KeepAll(s[1..])
  }

  function LineEdits(line: string): seq<Edit> {
    if IsHidden(line) then
      KeepAll(line[..ValueStart(line)]) + [Mask(ValueOf(line))] + KeepAll(line[ValueEnd(line)..])
    else KeepAll(line)
  }

  function Edits(s: string): seq<Edit>
    decreases |s|
  {
    var n := Find(s, "\n", 0);
    if n == NPOS then LineEdits(s) else LineEdits(s[..n]) + [Keep('\n')] + Edits(s[n + 1..])
  }

  /** What ends a value. */
  predicate EndsValue(c: char) { !Is(c, Value) }

  predicate OpensValue(c: char) { c == '=' || Is(c, Blank) }

  /** A masked text is a value: no '#', a '=' or blank in front of it, and what ends a value behind it. */
  predicate ValueAt(es: seq<Edit>, k: nat)
    requires k < |es|
  {
    es[k].Mask? ==>
      && (forall i :: 0 <= i < |es[k].text| ==> Is(es[k].text[i], Value))
      && 0 < k && es[k - 1].Keep? && OpensValue(es[k - 1].c)
      && (k + 1 < |es| ==> es[k + 1].Keep? && EndsValue(es[k + 1].c))
  }

  predicate MasksValues(es: seq<Edit>) {
    forall k :: 0 <= k < |es| ==> ValueAt(es, k)
  }

  lemma {:induction false} EditsConcat(a: seq<Edit>, b: seq<Edit>)
    ensures In(a + b) == In(a) + In(b) && Out(a + b) == Out(a) + Out(b)
    decreases |a|
  {
    hide Before, After;
    if a == [] {
      assert a + b == b;
    } else {
      assert (a + b)[1..] == a[1..] + b;
      EditsConcat(a[1..], b);
      Regrouped(Before(a[0]), In(a[1..]), In(b));
      Regrouped(After(a[0]), Out(a[1..]), Out(b));
    }
  }

  lemma OneMask(text: string)
    ensures In([Mask(text)]) == text && Out([Mask(text)]) == REDACTED
  {
    assert [Mask(text)][1..] == [];
  }

  lemma {:induction false} KeepAllKeeps(s: string)
    ensures In(KeepAll(s)) == s && Out(KeepAll(s)) == s && |KeepAll(s)| == |s|
    ensures forall k :: 0 <= k < |s| ==> KeepAll(s)[k] == Keep(s[k])
    decreases |s|
  {
    if s != "" {
      KeepAllKeeps(s[1..]);
      assert s == [s[0]] + s[1..];
    }
  }

  lemma LineSplits(line: string)
    ensures IsAssignment(line) ==>
              && 0 < ValueStart(line) <= ValueEnd(line) <= |line|
              && line == line[..ValueStart(line)] + ValueOf(line) + line[ValueEnd(line)..]
    ensures forall es: seq<Edit> :: (forall k :: 0 <= k < |es| ==> es[k].Keep?) ==> MasksValues(es)
  {
  }

  lemma LineEditsRight(line: string)
    ensures In(LineEdits(line)) == line && Out(LineEdits(line)) == EnvLine(line)
    ensures MasksValues(LineEdits(line))
    ensures LineEdits(line) != [] ==> LineEdits(line)[0].Keep?
  {
    hide In, Out, KeepAll, MasksValues, MustHide, RunEnd;
    LineSplits(line);
    if IsHidden(line) {
      var v, e := ValueStart(line), ValueEnd(line);
      var front, mask, back := KeepAll(line[..v]), [Mask(ValueOf(line))], KeepAll(line[e..]);
      KeepAllKeeps(line[..v]);
      KeepAllKeeps(line[e..]);
      EditsConcat(front, mask);
      EditsConcat(front + mask, back);
      OneMask(ValueOf(line));
      MaskedLine(line, front, back);
    } else {
      KeepAllKeeps(line);
    }
  }

  lemma MaskedLine(line: string, front: seq<Edit>, back: seq<Edit>)
    requires IsHidden(line)
    requires |front| == ValueStart(line) && forall k :: 0 <= k < |front| ==> front[k] == Keep(line[k])
    requires |back| == |line| - ValueEnd(line)
    requires forall k :: 0 <= k < |back| ==> back[k] == Keep(line[ValueEnd(line) + k])
    ensures MasksValues(front + [Mask(ValueOf(line))] + back)
    ensures front != [] && front[0].Keep?
  {
    var es, v := front + [Mask(ValueOf(line))] + back, ValueStart(line);
    assert OpensValue(line[v - 1]);
    forall k | 0 <= k < |es| ensures ValueAt(es, k) {
      if k == v {
        assert es[k] == Mask(ValueOf(line)) && es[k - 1] == Keep(line[v - 1]);
        assert forall i :: 0 <= i < |ValueOf(line)| ==> ValueOf(line)[i] == line[v + i];
        assert k + 1 < |es| ==> es[k + 1] == back[0];
      } else if k < v {
        assert es[k] == front[k];
      } else {
        assert es[k] == back[k - v - 1];
      }
    }
  }

  /** Two lists of edits with a kept newline between them. */
  lemma MasksJoin(a: seq<Edit>, b: seq<Edit>)
    requires MasksValues(a) && MasksValues(b) && (b != [] ==> b[0].Keep?)
    ensures MasksValues(a + [Keep('\n')] + b)
  {
    hide OpensValue;
    var es := a + [Keep('\n')] + b;
    forall k | 0 <= k < |es| ensures ValueAt(es, k) {
      if k < |a| {
        assert ValueAt(a, k) && es[k] == a[k];
        assert 0 < k ==> es[k - 1] == a[k - 1];
        assert k + 1 < |a| ==> es[k + 1] == a[k + 1];
        assert es[|a|] == Keep('\n');
      } else if |a| < k {
        var j := k - |a| - 1;
        assert ValueAt(b, j) && es[k] == b[j];
        assert 0 < j ==> es[k - 1] == b[j - 1];
        assert j + 1 < |b| ==> es[k + 1] == b[j + 1];
      }
    }
  }

  lemma OneKeep(c: char)
    ensures In([Keep(c)]) == [c] && Out([Keep(c)]) == [c]
  {
    assert [Keep(c)][1..] == [];
  }

  lemma EditsSplit(s: string)
    ensures var n := Find(s, "\n", 0);
            if n == NPOS then '\n' !in s && Edits(s) == LineEdits(s)
            else
              && '\n' !in s[..n] && s == s[..n] + "\n" + s[n + 1..]
              && Edits(s) == LineEdits(s[..n]) + [Keep('\n')] + Edits(s[n + 1..])
  {
    hide LineEdits;
    if Find(s, "\n", 0) == NPOS {
      NoNewline(s);
    } else {
      FirstNewline(s);
    }
  }

  lemma {:induction false} EditsRight(s: string)
    ensures In(Edits(s)) == s && Out(Edits(s)) == Env(s)
    ensures MasksValues(Edits(s))
    ensures Edits(s) != [] ==> Edits(s)[0].Keep?
    decreases |s|
  {
    hide LineEdits, EnvLine, MasksValues, In, Out, Edits, Env, Find;
    EditsSplit(s);
    var n := Find(s, "\n", 0);
    if n == NPOS {
      LineEditsRight(s);
      LastLine(s);
    } else {
      var line, rest := s[..n], s[n + 1..];
      LineEditsRight(line);
      EditsRight(rest);
      EnvSplit(line, rest);
      OneKeep('\n');
      MasksJoin(LineEdits(line), Edits(rest));
      EditsConcat(LineEdits(line), [Keep('\n')]);
      EditsConcat(LineEdits(line) + [Keep('\n')], Edits(rest));
    }
  }

  // ----- edits complete no match

  /** The first n characters of the output, if no bracket is among them, are kept characters of the input. */
  lemma {:induction false} HeadIsKept(es: seq<Edit>, n: nat)
    requires n <= |Out(es)| && '[' !in Out(es)[..n]
    ensures n <= |es| && n <= |In(es)| && In(es)[..n] == Out(es)[..n]
    ensures Out(es)[n..] == Out(es[n..]) && In(es)[n..] == In(es[n..])
    decreases n
  {
    hide In;
    if n == 0 {
      assert es[0..] == es;
    } else {
      CharInPrefix(Out(es), n, 0);
      FirstEdit(es);
      assert es[0].Keep?;
      var t, s := Out(es), In(es);
      assert t[1..] == Out(es[1..]) && s[1..] == In(es[1..]);
      TailHasNoBracket(t, n);
      HeadIsKept(es[1..], n - 1);
      assert es[1..][n - 1..] == es[n..];
      assert t[n..] == t[1..][n - 1..] && s[n..] == s[1..][n - 1..];
      assert t[..n] == [t[0]] + t[1..][..n - 1] && s[..n] == [s[0]] + s[1..][..n - 1];
    }
  }

  lemma FirstEdit(es: seq<Edit>)
    requires es != []
    ensures Out(es) == After(es[0]) + Out(es[1..])
    ensures In(es) == Before(es[0]) + In(es[1..]) && In(es)[|Before(es[0])|..] == In(es[1..])
  {
  }

  lemma EndAtFirst(es: seq<Edit>)
    requires PEM_END <= Out(es)[0..]
    ensures HasEnd(In(es))
  {
    hide In, Out, HasEnd;
    assert Out(es)[0..] == Out(es) && In(es)[0..] == In(es);
    HeadIsKept(es, |PEM_END|);
    HasEndAt(In(es), 0);
  }

  /** An end marker in the output stands in the input. */
  lemma {:induction false} EndIsKept(es: seq<Edit>, j: nat)
    requires j <= |Out(es)| && PEM_END <= Out(es)[j..]
    ensures HasEnd(In(es))
    decreases |es|
  {
    hide HasEnd, In;
    if es != [] {
      FirstEdit(es);
      var rest, skip := es[1..], |Before(es[0])|;
      if es[0].Mask? {
        EndIsBehind(REDACTED, Out(rest), j);
        EndIsKept(rest, j - |REDACTED|);
        HasEndInSuffix(In(es), skip);
      } else if j == 0 {
        EndAtFirst(es);
      } else {
        assert Out(es)[j..] == Out(rest)[j - 1..];
        EndIsKept(rest, j - 1);
        HasEndInSuffix(In(es), skip);
      }
    }
  }

  lemma HitIsKept(rule: Rule, es: seq<Edit>)
    requires rule.Valid() && Hit(rule, Out(es))
    ensures Hit(rule, In(es))
  {
    hide Hit, HasEnd;
    CoreHasNoBracket(rule, Out(es));
    HeadIsKept(es, CoreLength(rule));
    if rule.PemBlock? {
      EndStands(Out(es));
      var j := Find(Out(es), PEM_END, 0);
      OccursIsPrefix(Out(es), PEM_END, j);
      EndIsKept(es, j);
    }
    CoreDecides(rule, Out(es), In(es));
  }

  lemma EndStands(s: string)
    requires Hit(PemBlock, s)
    ensures Find(s, PEM_END, 0) != NPOS
  {
  }

  /** "[REDACTED]" followed by white space, by '#', or by nothing. */
  predicate NearlyMasked(s: string) {
    REDACTED <= s && (|s| == |REDACTED| || IsSpace(s[|REDACTED|]) || s[|REDACTED|] == '#')
  }

  predicate NearlyCleanAt(rule: Rule, s: string, i: nat)
    requires i <= |s|
  {
    Hit(rule, s[i..]) ==> rule.KeyValue? && NearlyMasked(s[i + |rule.marker|..])
  }

  predicate NearlyClean(rule: Rule, s: string) {
    forall i :: 0 <= i <= |s| ==> NearlyCleanAt(rule, s, i)
  }

  /** Kept characters are the same before and after. */
  lemma KeptFront(all: seq<Edit>, n: nat, p: string)
    requires n + |p| <= |all| && forall i :: 0 <= i < |p| ==> all[n + i] == Keep(p[i])
    ensures In(all[n..]) == p + In(all[n + |p|..]) && Out(all[n..]) == p + Out(all[n + |p|..])
  {
    hide In, Out, KeepAll;
    KeepAllKeeps(p);
    assert all[n..] == KeepAll(p) + all[n + |p|..];
    EditsConcat(KeepAll(p), all[n + |p|..]);
  }

  lemma FirstIsKept(all: seq<Edit>, i: nat)
    requires i <= |all| && In(all[i..]) != ""
    requires i < |all| ==> all[i].Keep?
    ensures i < |all| && all[i] == Keep(In(all[i..])[0])
  {
  }

  /** A text in the input without a place where a value could start is kept character by character. */
  lemma {:induction false} PrefixIsKept(all: seq<Edit>, n: nat, p: string)
    requires MasksValues(all) && n < |all| && all[n].Keep? && p <= In(all[n..])
    requires forall i :: 0 <= i < |p| ==> !OpensValue(p[i])
    ensures n + |p| <= |all| && forall i :: 0 <= i < |p| ==> all[n + i] == Keep(p[i])
    decreases |p|
  {
    hide In, OpensValue;
    if p != "" {
      var k := |p| - 1;
      var i, front := n + k, p[..k];
      PrefixIsKept(all, n, front);
      KeptFront(all, n, front);
      assert In(all[n..])[k] == p[k] == In(all[i..])[0];
      if i < |all| {
        assert ValueAt(all, i);
        assert 0 < k ==> all[i - 1] == Keep(front[k - 1]);
      }
      FirstIsKept(all, i);
    }
  }

  /** Behind a kept marker whose value was masked, the edits leave "[REDACTED]" and what ends a value. */
  lemma MaskedSurvives(all: seq<Edit>, n: nat)
    requires 0 < n <= |all| && MasksValues(all) && Masked(In(all[n..]))
    ensures NearlyMasked(Out(all[n..]))
  {
    hide In, Out, OpensValue;
    InNeedsEdits(all, n);
    assert ValueAt(all, n);
    if all[n].Mask? {
      MaskFirst(all, n);
    } else {
      RedactedOpensNothing();
      PrefixIsKept(all, n, REDACTED);
      KeptFront(all, n, REDACTED);
      BreakAfter(all, n + |REDACTED|);
    }
  }

  lemma RedactedOpensNothing()
    ensures forall i :: 0 <= i < |REDACTED| ==> !OpensValue(REDACTED[i])
  {
  }

  /** White space that follows a kept "[REDACTED]" is kept as well. */
  lemma BreakAfter(all: seq<Edit>, i: nat)
    requires 0 < i <= |all| && MasksValues(all) && all[i - 1] == Keep(REDACTED[|REDACTED| - 1])
    requires AtBreak(In(all[i..]))
    ensures AtBreak(Out(all[i..]))
  {
    if i < |all| {
      assert ValueAt(all, i);
      FirstIsKept(all, i);
      assert all[i..][0] == all[i];
    }
  }

  lemma InNeedsEdits(all: seq<Edit>, i: nat)
    requires i <= |all|
    ensures In(all[i..]) != "" ==> i < |all|
  {
  }

  lemma MaskFirst(all: seq<Edit>, n: nat)
    requires n < |all| && ValueAt(all, n) && all[n].Mask?
    ensures NearlyMasked(Out(all[n..]))
  {
    var es := all[n..];
    assert es[1..] == all[n + 1..];
    assert Out(es) == REDACTED + Out(es[1..]);
    if n + 1 < |all| {
      assert es[1..][0] == all[n + 1];
      assert Out(es[1..])[0] == all[n + 1].c;
    }
  }

  /** Seen from any edit on, a text that was clean is nearly clean after the edits. */
  lemma {:induction false} EditsKeepNearlyClean(rule: Rule, all: seq<Edit>, n: nat)
    requires rule.Valid() && n <= |all| && MasksValues(all) && Clean(rule, In(all[n..]))
    ensures NearlyClean(rule, Out(all[n..]))
    decreases |all| - n
  {
    hide Hit, MasksValues, NearlyMasked, Masked;
    var es := all[n..];
    var t := Out(es);
    if es == [] {
      CleanEmpty(rule);
      NearlyCleanEmpty(rule);
    } else {
      var rest := all[n + 1..];
      assert es[1..] == rest;
      var w, skip := if es[0].Keep? then 1 else |REDACTED|, if es[0].Keep? then 1 else |es[0].text|;
      assert In(es)[skip..] == In(rest) && t[w..] == Out(rest);
      CleanSuffix(rule, In(es), skip);
      EditsKeepNearlyClean(rule, all, n + 1);
      forall i | 0 <= i <= |t| ensures NearlyCleanAt(rule, t, i) {
        if w <= i {
          NearlyCleanBehind(rule, t, w, i);
        } else if es[0].Mask? {
          assert t == REDACTED + Out(rest);
          NoHitInRedacted(rule, Out(rest), i);
        } else {
          HeadIsNearlyClean(rule, all, n);
        }
      }
    }
  }

  lemma NearlyCleanEmpty(rule: Rule)
    requires rule.Valid()
    ensures NearlyClean(rule, "")
  {
    NoHitAtEmpty(rule);
    assert ""[0..] == "";
  }

  lemma NearlyCleanBehind(rule: Rule, t: string, w: nat, i: nat)
    requires w <= i <= |t| && NearlyClean(rule, t[w..])
    ensures NearlyCleanAt(rule, t, i)
  {
    assert NearlyCleanAt(rule, t[w..], i - w);
    assert t[w..][i - w..] == t[i..];
    if Hit(rule, t[i..]) && rule.KeyValue? {
      assert t[w..][i - w + |rule.marker|..] == t[i + |rule.marker|..];
    }
  }

  lemma HeadIsNearlyClean(rule: Rule, all: seq<Edit>, n: nat)
    requires rule.Valid() && n <= |all| && MasksValues(all) && Clean(rule, In(all[n..]))
    ensures NearlyCleanAt(rule, Out(all[n..]), 0)
  {
    hide MasksValues, NearlyMasked, Masked, In, Out, Find;
    var es := all[n..];
    assert Out(es)[0..] == Out(es) && In(es)[0..] == In(es);
    if Hit(rule, Out(es)) {
      HitIsKept(rule, es);
      assert CleanAt(rule, In(es), 0);
      var m := |rule.marker|;
      CoreHasNoBracket(rule, Out(es));
      HeadIsKept(es, m);
      assert es[m..] == all[n + m..];
      MaskedSurvives(all, n + m);
    }
  }

  // ----- counting '#'

  function Hashes(s: string): nat { multiset(s)['#'] }

  lemma HashesConcat(a: string, b: string)
    ensures Hashes(a + b) == Hashes(a) + Hashes(b)
  {
  }

  lemma NoHashes(s: string)
    requires '#' !in s
    ensures Hashes(s) == 0
  {
  }

  lemma {:induction false} EditsKeepHashes(all: seq<Edit>, n: nat)
    requires n <= |all| && MasksValues(all)
    ensures Hashes(Out(all[n..])) == Hashes(In(all[n..]))
    decreases |all| - n
  {
    hide Hashes;
    if n < |all| {
      var es := all[n..];
      assert es[1..] == all[n + 1..];
      EditsKeepHashes(all, n + 1);
      assert ValueAt(all, n);
      if es[0].Keep? {
        HashesConcat([es[0].c], Out(es[1..]));
        HashesConcat([es[0].c], In(es[1..]));
      } else {
        NoHashes(es[0].text);
        NoHashes(REDACTED);
        HashesConcat(REDACTED, Out(es[1..]));
        HashesConcat(es[0].text, In(es[1..]));
      }
    }
  }

  lemma HitHashes(rule: Rule, s: string)
    requires rule.Valid() && Hit(rule, s)
    ensures var k, c := rule.Keep(), Cut(rule, s);
            && k <= c
            && Hashes(s) == Hashes(s[..k]) + Hashes(s[k..c]) + Hashes(s[c..])
            && Hashes(Rewrite(rule, s)) == Hashes(s[..k]) + Hashes(Rewrite(rule, s[c..]))
  {
    hide Hashes, Rewrite, Hit;
    var k, c := rule.Keep(), Cut(rule, s);
    RewriteAtHit(rule, s);
    assert s == s[..k] + s[k..c] + s[c..];
    HashesConcat(s[..k] + s[k..c], s[c..]);
    HashesConcat(s[..k], s[k..c]);
    HashesConcat(s[..k] + REDACTED, Rewrite(rule, s[c..]));
    HashesConcat(s[..k], REDACTED);
    NoHashes(REDACTED);
  }

  lemma CopyHashes(rule: Rule, s: string)
    requires rule.Valid() && s != "" && !Hit(rule, s)
    ensures Hashes(s) == Hashes([s[0]]) + Hashes(s[1..])
    ensures Hashes(Rewrite(rule, s)) == Hashes([s[0]]) + Hashes(Rewrite(rule, s[1..]))
  {
    hide Hashes, Rewrite, Hit;
    RewriteAtCopy(rule, s);
    assert s == [s[0]] + s[1..];
    HashesConcat([s[0]], s[1..]);
    HashesConcat([s[0]], Rewrite(rule, s[1..]));
  }

  /** No scan adds a '#'. */
  lemma {:induction false} ScanAddsNoHash(rule: Rule, s: string)
    requires rule.Valid()
    ensures Hashes(Rewrite(rule, s)) <= Hashes(s)
    decreases |s|
  {
    hide Hashes, Hit, Cut;
    if s != "" {
      if Hit(rule, s) {
        HitHashes(rule, s);
        ScanAddsNoHash(rule, s[Cut(rule, s)..]);
      } else {
        CopyHashes(rule, s);
        ScanAddsNoHash(rule, s[1..]);
      }
    }
  }

  /** A marker does not start inside another occurrence of itself. */
  lemma MarkersDoNotOverlap(rule: Rule, s: string, i: nat)
    requires rule.Valid() && rule.KeyValue? && i <= |s| && Hit(rule, s) && Hit(rule, s[i..])
    ensures i == 0 || |rule.marker| <= i
  {
  }

  /** A marker at i, its "[REDACTED]" and the '#' behind it are one run without white space. */
  lemma MarkerRun(rule: Rule, s: string, i: nat)
    requires rule.Valid() && rule.KeyValue? && i <= |s| && Hit(rule, s[i..])
    requires NearlyMasked(s[i + |rule.marker|..]) && !Masked(s[i + |rule.marker|..])
    ensures var h := i + |rule.marker| + |REDACTED|;
            h < |s| && s[h] == '#' && forall j :: i <= j <= h ==> Is(s[j], NonSpace)
  {
    var m, q := |rule.marker|, i + |rule.marker|;
    var h := q + |REDACTED|;
    assert s[q..][|REDACTED|] == s[h];
    forall j | i <= j <= h ensures Is(s[j], NonSpace) {
      if j < q {
        assert s[j] == s[i..][j - i] == rule.marker[j - i];
      } else if j < h {
        assert s[j] == s[q..][j - q] == REDACTED[j - q];
      }
    }
  }

  /** A marker at i whose "[REDACTED]" is followed by '#' lies with that '#' in any run it meets. */
  lemma RunTakesHash(rule: Rule, s: string, i: nat)
    requires rule.Valid() && rule.KeyValue? && Hit(rule, s)
    requires i < Cut(rule, s) && Hit(rule, s[i..])
    requires NearlyMasked(s[i + |rule.marker|..]) && !Masked(s[i + |rule.marker|..])
    ensures '#' in s[rule.Keep()..Cut(rule, s)]
  {
    hide Masked, NearlyMasked, Is, Find;
    var m, h := |rule.marker|, i + |rule.marker| + |REDACTED|;
    MarkersDoNotOverlap(rule, s, i);
    MarkerRun(rule, s, i);
    RunGoesOn(s, m, i, h + 1);
    assert s[h] == s[m..Cut(rule, s)][h - m];
  }

  lemma RunGoesOn(s: string, m: nat, i: nat, e: nat)
    requires m <= |s| && i < RunEnd(s, m, NonSpace) && e <= |s| && (i == 0 || m <= i)
    requires forall j :: i <= j < e ==> Is(s[j], NonSpace)
    ensures e <= RunEnd(s, m, NonSpace)
  {
    if m < e {
      assert forall j :: m <= j < e ==> Is(s[j], NonSpace);
      RunContains(s, m, NonSpace, e);
    }
  }

  /** Scanning a nearly clean text that is not clean takes a '#' away. */
  lemma {:induction false} UncleanLosesHash(rule: Rule, s: string, i: nat)
    requires rule.Valid() && rule.KeyValue? && i + |rule.marker| <= |s|
    requires Hit(rule, s[i..]) && NearlyMasked(s[i + |rule.marker|..]) && !Masked(s[i + |rule.marker|..])
    ensures Hashes(Rewrite(rule, s)) < Hashes(s)
    decreases |s|
  {
    hide Hashes, Cut, NearlyMasked, Masked, Rewrite, Hit;
    var m := |rule.marker|;
    NoHitAtEmpty(rule);
    assert s[0..] == s;
    if Hit(rule, s) {
      var c := Cut(rule, s);
      HitHashes(rule, s);
      if i < c {
        RunTakesHash(rule, s, i);
        HashInside(s[rule.Keep()..c]);
        ScanAddsNoHash(rule, s[c..]);
      } else {
        SuffixOfSuffix(s, c, i);
        SuffixOfSuffix(s, c, i + m);
        UncleanLosesHash(rule, s[c..], i - c);
      }
    } else {
      CopyHashes(rule, s);
      SuffixOfSuffix(s, 1, i);
      SuffixOfSuffix(s, 1, i + m);
      UncleanLosesHash(rule, s[1..], i - 1);
    }
  }

  lemma SuffixOfSuffix(s: string, c: nat, i: nat)
    requires c <= i <= |s|
    ensures s[c..][i - c..] == s[i..]
  {
  }

  lemma HashInside(s: string)
    requires '#' in s
    ensures 0 < Hashes(s)
  {
  }

  // ----- the theorem

  lemma {:induction false} ScansAddNoHash(rules: seq<Rule>, s: string)
    requires AllValid(rules)
    ensures Hashes(RunScans(rules, s)) <= Hashes(s)
    decreases |rules|
  {
    hide Hashes, Rewrite;
    if rules != [] {
      ScanAddsNoHash(rules[0], s);
      ScansAddNoHash(rules[1..], Rewrite(rules[0], s));
    }
  }

  /** On a text that is nearly clean for all of them, the scans do nothing or lose a '#'. */
  lemma {:induction false} NothingOrLess(rules: seq<Rule>, s: string)
    requires AllValid(rules) && forall k :: 0 <= k < |rules| ==> NearlyClean(rules[k], s)
    ensures RunScans(rules, s) == s || Hashes(RunScans(rules, s)) < Hashes(s)
    decreases |rules|
  {
    hide Hashes, Rewrite, NearlyMasked, Masked, Hit;
    if rules != [] {
      var rule := rules[0];
      if Clean(rule, s) {
        CleanIsFixed(rule, s);
        NothingOrLess(rules[1..], s);
      } else {
        var i :| 0 <= i <= |s| && !CleanAt(rule, s, i);
        assert NearlyCleanAt(rule, s, i);
        KeepFits(rule, s[i..]);
        UncleanLosesHash(rule, s, i);
        ScansAddNoHash(rules[1..], Rewrite(rule, s));
      }
    }
  }

  lemma EnvKeepsHashes(s: string)
    ensures Hashes(Env(s)) == Hashes(s)
  {
    hide Env, Hashes, In, Out;
    EditsRight(s);
    assert Edits(s)[0..] == Edits(s);
    EditsKeepHashes(Edits(s), 0);
  }

  /** On a fully redacted text the scans leave alone what the assignment scan has made of it, or lose a '#'. */
  lemma EnvOrLess(s: string)
    requires FullyRedacted(s)
    ensures RedactedText(s) == Env(s) || Hashes(RedactedText(s)) < Hashes(s)
  {
    hide RunScans, Clean, Env, Hashes, NearlyClean, In, Out;
    ScansAreValid();
    EditsRight(s);
    var es := Edits(s);
    assert es[0..] == es;
    EnvKeepsHashes(s);
    forall k | 0 <= k < |SCANS| ensures NearlyClean(SCANS[k], Env(s)) {
      EditsKeepNearlyClean(SCANS[k], es, 0);
    }
    NothingOrLess(SCANS, Env(s));
  }

  /** Redacting a fully redacted text changes nothing exactly when its assignment scan changes nothing. */
  lemma StableWhenEnvIs(s: string)
    requires FullyRedacted(s)
    ensures RedactedText(s) == s <==> Env(s) == s
  {
    hide RunScans, Clean, Env, Hashes;
    ScansAreValid();
    if Env(s) == s {
      CleanForAllIsFixed(SCANS, s);
    }
    EnvOrLess(s);
  }

  /** Every value the assignment scan would hide is "[REDACTED]" already. */
  predicate AssignmentsSettled(s: string)
    decreases |s|
  {
    var n := Find(s, "\n", 0);
    if n == NPOS then LineSettled(s) else LineSettled(s[..n]) && AssignmentsSettled(s[n + 1..])
  }

  predicate LineSettled(line: string) {
    IsHidden(line) ==> ValueOf(line) == REDACTED
  }

  lemma LineSettledExactly(line: string)
    ensures EnvLine(line) == line <==> LineSettled(line)
  {
    if IsHidden(line) {
      EnvLineValue(line);
      if ValueOf(line) == REDACTED {
        RedactedValueIsFixed(line);
      }
    }
  }

  lemma {:induction false} SettledExactly(s: string)
    ensures Env(s) == s <==> AssignmentsSettled(s)
    decreases |s|
  {
    hide EnvLine, LineSettled;
    var n := Find(s, "\n", 0);
    if n == NPOS {
      LineSettledExactly(s);
    } else {
      FirstNewline(s);
      var line, rest := s[..n], s[n + 1..];
      LineSettledExactly(line);
      SettledExactly(rest);
      EnvLineFree(line);
      SameLines(EnvLine(line), Env(rest), line, rest);
    }
  }

  lemma SameLines(a: string, b: string, c: string, d: string)
    requires '\n' !in a && '\n' !in c
    ensures a + "\n" + b == c + "\n" + d <==> a == c && b == d
  {
    var s, t := a + "\n" + b, c + "\n" + d;
    if s == t {
      NewlineFound(a, b);
      NewlineFound(c, d);
      assert s[..|a|] == a && t[..|a|] == c && s[|a| + 1..] == b && t[|a| + 1..] == d;
    }
  }

  /** A second redaction changes nothing exactly when the first has left no assignment that now needs hiding. */
  lemma SecondRedactionChangesNothing(input: string)
    ensures RedactedText(RedactedText(input)) == RedactedText(input) <==> AssignmentsSettled(RedactedText(input))
  {
    RedactedTextIsClean(input);
    StableWhenEnvIs(RedactedText(input));
    SettledExactly(RedactedText(input));
  }

  // ----- redacting again and again

  function RedactTimes(n: nat, s: string): string {
    if n == 0 then s else RedactTimes(n - 1, RedactedText(s))
  }

  predicate IsStable(s: string) { RedactedText(s) == s }

  lemma {:induction false} StableForGood(n: nat, s: string)
    requires IsStable(s)
    ensures RedactTimes(n, s) == s
  {
    hide RedactedText;
    if 0 < n {
      StableForGood(n - 1, s);
    }
  }

  /** One more redaction of a redacted text makes it stable, or takes a '#' away. */
  lemma StableOrLess(s: string)
    requires FullyRedacted(s)
    ensures IsStable(RedactedText(s)) || Hashes(RedactedText(s)) < Hashes(s)
  {
    hide RunScans, Env, Hashes, FullyRedacted;
    EnvOrLess(s);
    EnvIdempotent(s);
  }

  lemma {:induction false} RedactedConverges(n: nat, s: string)
    requires FullyRedacted(s) && Hashes(s) < n
    ensures IsStable(RedactTimes(n, s))
  {
    hide RedactedText, Hashes, FullyRedacted;
    StableOrLess(s);
    RedactedTextIsClean(s);
    if IsStable(RedactedText(s)) {
      StableForGood(n - 1, RedactedText(s));
    } else {
      RedactedConverges(n - 1, RedactedText(s));
    }
  }

  lemma RedactingAddsNoHash(s: string)
    ensures Hashes(RedactedText(s)) <= Hashes(s)
  {
    hide RunScans, Env, Hashes;
    ScansAreValid();
    EnvKeepsHashes(s);
    ScansAddNoHash(SCANS, Env(s));
  }

  /** Redacting again and again comes to an end: from two rounds more than there are '#'s on, nothing changes. */
  lemma RedactionConverges(input: string, n: nat)
    requires Hashes(input) + 2 <= n
    ensures IsStable(RedactTimes(n, input))
    ensures RedactTimes(n, input) == RedactTimes(Hashes(input) + 2, input)
  {
    hide RedactedText, Hashes, FullyRedacted, IsStable;
    var once := RedactedText(input);
    RedactedTextIsClean(input);
    RedactingAddsNoHash(input);
    RedactedConverges(n - 1, once);
    RedactedConverges(Hashes(input) + 1, once);
    TimesAdd(n - 2 - Hashes(input), Hashes(input) + 2, input);
    StableForGood(n - 2 - Hashes(input), RedactTimes(Hashes(input) + 2, input));
  }

  lemma {:induction false} TimesAdd(m: nat, n: nat, s: string)
    ensures RedactTimes(m + n, s) == RedactTimes(m, RedactTimes(n, s))
    decreases n
  {
    hide RedactedText;
    if 0 < n {
      TimesAdd(m, n - 1, RedactedText(s));
    }
  }
}
