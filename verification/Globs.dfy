/** Globs are compiled to regular expression text; what that text means is what the glob means. */
module Globs {
  import opened Wrappers
  import opened Text

  // ----- globs

  /** `*` stands for any run and `?` for any one of the characters that are wild; every other character for itself. */
  predicate GlobMatches(glob: string, s: string, wild: char -> bool)
    decreases |glob|
  {
    if glob == "" then s == ""
    else if glob[0] == '*' then
      exists k :: 0 <= k <= |s| && AllWild(s[..k], wild) && GlobMatches(glob[1..], s[k..], wild)
    else if glob[0] == '?' then s != "" && wild(s[0]) && GlobMatches(glob[1..], s[1..], wild)
    else s != "" && s[0] == glob[0] && GlobMatches(glob[1..], s[1..], wild)
  }

  predicate AllWild(s: string, wild: char -> bool) {
    forall i :: 0 <= i < |s| ==> wild(s[i])
  }

  /** Every character is wild: what a glob is meant to say. */
  const ANYTHING: char -> bool := c => true

  predicate IsLineTerminator(c: char) {
    c == '\n' || c == '\r' || c == '\U{2028}' || c == '\U{2029}'
  }

  const WITHIN_LINE: char -> bool := c => !IsLineTerminator(c)

  predicate SingleLine(s: string) { AllWild(s, WITHIN_LINE) }

  // ----- regular expressions (ECMA-262, 3rd edition, section 15.10)

  datatype Atom = AnyChar | Literal(c: char)

  datatype Term = One(atom: Atom) | Many(atom: Atom)

  /** What is no PatternCharacter. */
  predicate IsPatternSyntax(c: char) {
    || c == '^' || c == '$' || c == '\\' || c == '.' || c == '*' || c == '+' || c == '?' || c == '(' || c == ')'
    || c == '[' || c == ']' || c == '{' || c == '}' || c == '|'
  }

  /** Escaped, these stand for themselves: syntax characters, and whatever cannot be part of an identifier. */
  predicate IsIdentityEscape(c: char) {
    IsPatternSyntax(c) || !('a' <= c <= 'z' || 'A' <= c <= 'Z' || '0' <= c <= '9' || c == '_')
  }

  /** The atom at the head of a pattern and how long it is; groups, classes and assertions are not read here. */
  function ReadAtom(pattern: string): Option<(Atom, nat)>
    requires pattern != ""
  {
    if pattern[0] == '.' then Some((AnyChar, 1))
    else if pattern[0] == '\\' then
      if 2 <= |pattern| && IsIdentityEscape(pattern[1]) then Some((Literal(pattern[1]), 2)) else None
    else if IsPatternSyntax(pattern[0]) then None
    else Some((Literal(pattern[0]), 1))
  }

  /** A pattern as a sequence of terms: each an atom, or an atom with the quantifier `*`. */
  function ReadPattern(pattern: string): Option<seq<Term>>
    decreases |pattern|
  {
    if pattern == "" then Some([])
    else
      match ReadAtom(pattern)
      case None => None
      case Some((atom, n)) =>
        AtomFits(pattern);
        var starred := n < |pattern| && pattern[n] == '*';
        var rest := ReadPattern(pattern[if starred then n + 1 else n..]);
        if rest.None? then None else Some([if starred then Many(atom) else One(atom)] + rest.value)
  }

  lemma AtomFits(pattern: string)
    requires pattern != "" && ReadAtom(pattern).Some?
    ensures 0 < ReadAtom(pattern).value.1 <= |pattern|
  {
  }

  /** The dot stands for anything but a line terminator. */
  predicate Accepts(atom: Atom, c: char) {
    match atom
    case AnyChar => !IsLineTerminator(c)
    case Literal(d) => c == d
  }

  /** regex_match: some way of choosing how often each starred atom repeats consumes the whole text. */
  predicate RegexMatches(terms: seq<Term>, s: string)
    decreases |terms|, |s|
  {
    if terms == [] then s == ""
    else
      match terms[0]
      case One(atom) => s != "" && Accepts(atom, s[0]) && RegexMatches(terms[1..], s[1..])
      case Many(atom) =>
        || RegexMatches(terms[1..], s)
        || (s != "" && Accepts(atom, s[0]) && RegexMatches(terms, s[1..]))
  }

  // ----- the translators

  /** The table of characters that both translators escape. */
  predicate IsSyntax(c: char) {
    c in "+.()[]{}^$|\\"
  }

  /** What a glob character becomes, given which characters are escaped. */
  function Translate(c: char, escaped: bool): string {
    if c == '*' then ".*" else if c == '?' then "." else if escaped then ['\\', c] else [c]
  }

  /** The translator of the rules loader: strchr also finds the terminating NUL of its table. */
  function RulesPattern(glob: string): string {
    if glob == "" then "" else Translate(glob[0], IsSyntax(glob[0]) || glob[0] == '\0') + RulesPattern(glob[1..])
  }

  /** The translator of the file tools. */
  function FilePattern(glob: string): string {
    if glob == "" then "" else Translate(glob[0], IsSyntax(glob[0])) + FilePattern(glob[1..])
  }

  /** The terms a glob stands for. */
  function Terms(glob: string): seq<Term> {
    if glob == "" then []
    else
      [if glob[0] == '*' then Many(AnyChar) else if glob[0] == '?' then One(AnyChar) else One(Literal(glob[0]))]
      + Terms(glob[1..])
  }

  /** No translated text starts with a quantifier. */
  lemma PatternsStartWithAtom(glob: string)
    ensures RulesPattern(glob) != "" ==> RulesPattern(glob)[0] != '*'
    ensures FilePattern(glob) != "" ==> FilePattern(glob)[0] != '*'
  {
    hide Translate, IsSyntax;
    if glob != "" {
      TranslationStarts(glob[0], IsSyntax(glob[0]) || glob[0] == '\0');
      TranslationStarts(glob[0], IsSyntax(glob[0]));
    }
  }

  lemma TranslationStarts(c: char, escaped: bool)
    ensures Translate(c, escaped) != "" && Translate(c, escaped)[0] != '*'
  {
  }

  lemma ReadTranslated(c: char, escaped: bool, rest: string)
    requires IsSyntax(c) ==> escaped
    requires escaped ==> IsSyntax(c) || c == '\0'
    requires rest != "" ==> rest[0] != '*'
    ensures ReadPattern(Translate(c, escaped) + rest) ==
            if ReadPattern(rest).None? then None
            else Some([if c == '*' then Many(AnyChar) else if c == '?' then One(AnyChar) else One(Literal(c))] +
                      ReadPattern(rest).value)
  {
    var pattern := Translate(c, escaped) + rest;
    assert pattern[|Translate(c, escaped)|..] == rest;
    if c == '*' {
      assert pattern[0] == '.' && pattern[1] == '*';
    } else if c == '?' {
      assert pattern[0] == '.';
    } else if escaped {
      assert pattern[0] == '\\' && pattern[1] == c;
    } else {
      assert pattern[0] == c;
    }
  }

  /** Read as a regular expression, the emitted text is the terms of the glob. */
  lemma {:induction false} PatternsAreRead(glob: string)
    ensures ReadPattern(RulesPattern(glob)) == Some(Terms(glob))
    ensures ReadPattern(FilePattern(glob)) == Some(Terms(glob))
    decreases |glob|
  {
    hide ReadPattern, IsSyntax, Translate;
    if glob == "" {
      EmptyPattern();
    } else {
      PatternsAreRead(glob[1..]);
      PatternsStartWithAtom(glob[1..]);
      ReadTranslated(glob[0], IsSyntax(glob[0]) || glob[0] == '\0', RulesPattern(glob[1..]));
      ReadTranslated(glob[0], IsSyntax(glob[0]), FilePattern(glob[1..]));
    }
  }

  lemma EmptyPattern()
    ensures ReadPattern("") == Some([])
  {
  }

  /** The two translators emit the same text exactly for globs without NUL. */
  lemma {:induction false} TranslatorsAgree(glob: string)
    ensures |FilePattern(glob)| <= |RulesPattern(glob)|
    ensures RulesPattern(glob) == FilePattern(glob) <==> '\0' !in glob
    decreases |glob|
  {
    if glob != "" {
      var rest := glob[1..];
      TranslatorsAgree(rest);
      assert glob == [glob[0]] + rest;
      var head := Translate(glob[0], IsSyntax(glob[0]));
      if glob[0] != '\0' {
        assert RulesPattern(glob) == FilePattern(glob) ==> RulesPattern(rest) == FilePattern(rest) by {
          assert RulesPattern(glob)[|head|..] == RulesPattern(rest);
          assert FilePattern(glob)[|head|..] == FilePattern(rest);
        }
      } else {
        assert |RulesPattern(glob)| == 2 + |RulesPattern(rest)| && |FilePattern(glob)| == 1 + |FilePattern(rest)|;
      }
    }
  }

  // ----- meaning

  /** A starred dot matches any run within a line, whatever follows. */
  lemma {:induction false} DotStar(rest: seq<Term>, s: string)
    ensures RegexMatches([Many(AnyChar)] + rest, s) <==>
            exists k :: 0 <= k <= |s| && AllWild(s[..k], WITHIN_LINE) && RegexMatches(rest, s[k..])
    decreases |s|
  {
    var terms := [Many(AnyChar)] + rest;
    assert terms[1..] == rest;
    assert s[..0] == "" && s[0..] == s;
    if s != "" {
      DotStar(rest, s[1..]);
      if s != "" && Accepts(AnyChar, s[0]) && RegexMatches(terms, s[1..]) {
        var k :| 0 <= k <= |s| - 1 && AllWild(s[1..][..k], WITHIN_LINE) && RegexMatches(rest, s[1..][k..]);
        RunShifts(s, k);
      }
      if k :| 0 < k <= |s| && AllWild(s[..k], WITHIN_LINE) && RegexMatches(rest, s[k..]) {
        assert s[..k][0] == s[0];
        RunShifts(s, k - 1);
      }
    }
  }

  lemma RunShifts(s: string, k: nat)
    requires k < |s|
    ensures s[1..][k..] == s[k + 1..] && s[..k + 1] == [s[0]] + s[1..][..k]
    ensures AllWild(s[..k + 1], WITHIN_LINE) <==> !IsLineTerminator(s[0]) && AllWild(s[1..][..k], WITHIN_LINE)
  {
    var run := s[..k + 1];
    assert run == [s[0]] + s[1..][..k];
    assert forall i :: 0 < i <= k ==> run[i] == s[1..][..k][i - 1];
    assert forall i :: 0 <= i < k ==> s[1..][..k][i] == run[i + 1];
  }

  /** For every text, the terms of a glob match it exactly when the glob does with wildcards that stay within a line. */
  lemma {:induction false} TermsMeanGlob(glob: string, s: string)
    ensures RegexMatches(Terms(glob), s) <==> GlobMatches(glob, s, WITHIN_LINE)
    decreases |glob|
  {
    if glob != "" {
      assert Terms(glob)[1..] == Terms(glob[1..]);
      if glob[0] == '*' {
        assert Terms(glob) == [Many(AnyChar)] + Terms(glob[1..]);
        DotStar(Terms(glob[1..]), s);
        forall k | 0 <= k <= |s|
          ensures RegexMatches(Terms(glob[1..]), s[k..]) <==> GlobMatches(glob[1..], s[k..], WITHIN_LINE)
        {
          TermsMeanGlob(glob[1..], s[k..]);
        }
      } else if s != "" {
        TermsMeanGlob(glob[1..], s[1..]);
      }
    }
  }

  /** On one line it makes no difference whether the wildcards may match line terminators. */
  lemma {:induction false} OneLineGlob(glob: string, s: string)
    ensures GlobMatches(glob, s, WITHIN_LINE) ==> GlobMatches(glob, s, ANYTHING)
    ensures SingleLine(s) ==> (GlobMatches(glob, s, ANYTHING) <==> GlobMatches(glob, s, WITHIN_LINE))
    decreases |glob|
  {
    if glob != "" {
      if glob[0] == '*' {
        forall k | 0 <= k <= |s|
          ensures GlobMatches(glob[1..], s[k..], WITHIN_LINE) ==> GlobMatches(glob[1..], s[k..], ANYTHING)
          ensures SingleLine(s) ==> AllWild(s[..k], WITHIN_LINE)
          ensures SingleLine(s) ==>
                  (GlobMatches(glob[1..], s[k..], ANYTHING) <==> GlobMatches(glob[1..], s[k..], WITHIN_LINE))
        {
          OneLineGlob(glob[1..], s[k..]);
          assert SingleLine(s) ==> SingleLine(s[k..]);
        }
      } else if s != "" {
        OneLineGlob(glob[1..], s[1..]);
        assert SingleLine(s) ==> SingleLine(s[1..]);
      }
    }
  }

  /** What the emitted text matches, read as a regular expression. */
  predicate PatternMatches(pattern: string, s: string) {
    ReadPattern(pattern).Some? && RegexMatches(ReadPattern(pattern).value, s)
  }

  /** Compiling a glob preserves its meaning on every text without line terminators, by either translator. */
  lemma CompilationPreservesMeaning(glob: string, s: string)
    ensures PatternMatches(RulesPattern(glob), s) <==> GlobMatches(glob, s, WITHIN_LINE)
    ensures PatternMatches(FilePattern(glob), s) <==> GlobMatches(glob, s, WITHIN_LINE)
    ensures SingleLine(s) ==> (PatternMatches(RulesPattern(glob), s) <==> GlobMatches(glob, s, ANYTHING))
    ensures SingleLine(s) ==> (PatternMatches(FilePattern(glob), s) <==> GlobMatches(glob, s, ANYTHING))
  {
    PatternsAreRead(glob);
    TermsMeanGlob(glob, s);
    OneLineGlob(glob, s);
  }

  lemma StarMatches(s: string, wild: char -> bool)
    ensures GlobMatches("*", s, wild) <==> AllWild(s, wild)
  {
    hide AllWild;
    forall t: string ensures GlobMatches("", t, wild) <==> t == "" {
    }
    assert "*"[1..] == "" && s[..|s|] == s;
    assert forall k :: 0 <= k <= |s| && s[k..] == "" ==> k == |s|;
  }

  /** The texts on which every compiled glob says exactly what the glob is meant to say are those on one line. */
  lemma PlainMeaningExactly(s: string)
    ensures (forall glob :: PatternMatches(RulesPattern(glob), s) <==> GlobMatches(glob, s, ANYTHING)) <==>
            SingleLine(s)
    ensures (forall glob :: PatternMatches(FilePattern(glob), s) <==> GlobMatches(glob, s, ANYTHING)) <==> SingleLine(s)
  {
    hide PatternMatches, GlobMatches, RulesPattern, FilePattern;
    forall glob
      ensures PatternMatches(RulesPattern(glob), s) <==> GlobMatches(glob, s, WITHIN_LINE)
      ensures PatternMatches(FilePattern(glob), s) <==> GlobMatches(glob, s, WITHIN_LINE)
      ensures SingleLine(s) ==> (GlobMatches(glob, s, WITHIN_LINE) <==> GlobMatches(glob, s, ANYTHING))
    {
      CompilationPreservesMeaning(glob, s);
    }
    StarMatches(s, WITHIN_LINE);
    StarMatches(s, ANYTHING);
  }

  /** Across a line terminator the compiled glob is stricter than the glob. */
  lemma DotStopsAtNewline()
    ensures GlobMatches("?", "\n", ANYTHING) && !PatternMatches(RulesPattern("?"), "\n")
  {
    CompilationPreservesMeaning("?", "\n");
  }

  /** The four line terminators: what no wildcard matches. */
  lemma WildcardsStopAt(c: char)
    ensures PatternMatches(RulesPattern("?"), [c]) <==> c != '\n' && c != '\r' && c != '\U{2028}' && c != '\U{2029}'
  {
    hide PatternMatches, RulesPattern;
    CompilationPreservesMeaning("?", [c]);
    assert "?"[1..] == "" && [c][1..] == "";
  }

  // ----- what globs say

  predicate IsPlain(glob: string) { '*' !in glob && '?' !in glob }

  /** Without wildcards a glob matches itself, behind its own text. */
  lemma {:induction false} PlainGlob(glob: string, rest: string, s: string, wild: char -> bool)
    requires IsPlain(glob)
    ensures GlobMatches(glob + rest, s, wild) <==> glob <= s && GlobMatches(rest, s[|glob|..], wild)
    decreases |glob|
  {
    if glob == "" {
      assert glob + rest == rest;
    } else {
      assert (glob + rest)[1..] == glob[1..] + rest;
      if s != "" {
        PlainGlob(glob[1..], rest, s[1..], wild);
        assert glob == [glob[0]] + glob[1..] && s == [s[0]] + s[1..];
        assert glob <= s ==> s[1..][|glob| - 1..] == s[|glob|..];
      }
    }
  }

  lemma EndOfPlain(glob: string, s: string, wild: char -> bool)
    requires IsPlain(glob)
    ensures GlobMatches(glob, s, wild) <==> s == glob
  {
    PlainGlob(glob, "", s, wild);
    assert glob + "" == glob;
    if glob <= s {
      assert s[|glob|..] == "" <==> |s| == |glob|;
    }
  }

  lemma StarInFrontOf(back: string, s: string)
    requires IsPlain(back)
    ensures GlobMatches("*" + back, s, ANYTHING) <==> |back| <= |s| && s[|s| - |back|..] == back
  {
    assert ("*" + back)[1..] == back;
    forall k | 0 <= k <= |s| ensures GlobMatches(back, s[k..], ANYTHING) <==> s[k..] == back {
      EndOfPlain(back, s[k..], ANYTHING);
    }
    forall k | 0 <= k <= |s| ensures AllWild(s[..k], ANYTHING) {
    }
    assert forall k :: 0 <= k <= |s| && s[k..] == back ==> k == |s| - |back|;
  }

  /** A star between two plain texts: the texts that start with the one and end with the other. */
  lemma StarBetween(front: string, back: string, s: string)
    requires IsPlain(front) && IsPlain(back)
    ensures GlobMatches(front + ("*" + back), s, ANYTHING) <==>
            front <= s && |front| + |back| <= |s| && s[|s| - |back|..] == back
  {
    hide GlobMatches, IsPlain;
    PlainGlob(front, "*" + back, s, ANYTHING);
    if front <= s {
      StarInFrontOf(back, s[|front|..]);
      if |front| + |back| <= |s| {
        assert s[|front|..][|s| - |front| - |back|..] == s[|s| - |back|..];
      }
    }
  }

  /** A question mark between two plain texts stands for exactly one character. */
  lemma MarkBetween(front: string, back: string, s: string)
    requires IsPlain(front) && IsPlain(back)
    ensures GlobMatches(front + ("?" + back), s, ANYTHING) <==>
            front <= s && |s| == |front| + 1 + |back| && s[|front| + 1..] == back
  {
    PlainGlob(front, "?" + back, s, ANYTHING);
    if front <= s && |front| < |s| {
      var t := s[|front|..];
      assert ("?" + back)[1..] == back;
      EndOfPlain(back, t[1..], ANYTHING);
      assert t[1..] == s[|front| + 1..];
    }
  }

  // ----- file names

  /** The part behind the last slash. */
  function BaseName(path: string): string
    decreases |path|
  {
    if path == "" then ""
    else if path[|path| - 1] == '/' then ""
    else BaseName(path[..|path| - 1]) + [path[|path| - 1]]
  }

  lemma {:induction false} BaseNameIsSuffix(path: string)
    ensures |BaseName(path)| <= |path| && BaseName(path) == path[|path| - |BaseName(path)|..]
    ensures '/' !in BaseName(path)
    ensures |BaseName(path)| == |path| || path[|path| - |BaseName(path)| - 1] == '/'
    decreases |path|
  {
    if path != "" && path[|path| - 1] != '/' {
      var n := |path| - 1;
      var front := path[..n];
      BaseNameIsSuffix(front);
      var b := BaseName(front);
      var k := n - |b|;
      assert b == path[k..n];
      assert path[k..] == path[k..n] + [path[n]];
      assert k == 0 || path[k - 1] == front[k - 1];
    }
  }

  /** The part up to and with the last slash. */
  function DirName(path: string): (dir: string)
    ensures dir + BaseName(path) == path
  {
    BaseNameIsSuffix(path);
    path[..|path| - |BaseName(path)|]
  }

  function Terminators(s: string): nat {
    if s == "" then 0 else (if IsLineTerminator(s[0]) then 1 else 0) + Terminators(s[1..])
  }

  lemma {:induction false} TerminatorsConcat(a: string, b: string)
    ensures Terminators(a + b) == Terminators(a) + Terminators(b)
    ensures Terminators(a) == 0 <==> SingleLine(a)
    decreases |a|
  {
    if a == "" {
      assert a + b == b;
    } else {
      assert (a + b)[1..] == a[1..] + b;
      TerminatorsConcat(a[1..], b);
      assert a == [a[0]] + a[1..];
    }
  }

  /** Wildcards match no line terminator, so a glob determines how many there are. */
  lemma {:induction false} GlobCountsTerminators(glob: string, s: string)
    requires GlobMatches(glob, s, WITHIN_LINE)
    ensures Terminators(s) == Terminators(glob)
    decreases |glob|
  {
    if glob != "" {
      if glob[0] == '*' {
        var k :| 0 <= k <= |s| && AllWild(s[..k], WITHIN_LINE) && GlobMatches(glob[1..], s[k..], WITHIN_LINE);
        GlobCountsTerminators(glob[1..], s[k..]);
        TerminatorsConcat(s[..k], s[k..]);
        assert s[..k] + s[k..] == s;
      } else {
        GlobCountsTerminators(glob[1..], s[1..]);
      }
    }
  }

  /**
   * A file name that a glob with a leading star matches: the whole path matches too exactly when its directory is
   * on one line.
   */
  lemma StarNeedsNoRetry(glob: string, path: string)
    requires glob != "" && glob[0] == '*' && GlobMatches(glob, BaseName(path), WITHIN_LINE)
    ensures GlobMatches(glob, path, WITHIN_LINE) <==> SingleLine(DirName(path))
  {
    hide BaseName, DirName, GlobMatches, Terminators, AllWild;
    var dir, name := DirName(path), BaseName(path);
    TerminatorsConcat(dir, name);
    GlobCountsTerminators(glob, name);
    if SingleLine(dir) {
      StarInFront(glob, dir, name);
    } else if GlobMatches(glob, path, WITHIN_LINE) {
      GlobCountsTerminators(glob, path);
    }
  }

  /** A leading star matches a line put in front as well. */
  lemma StarInFront(glob: string, dir: string, name: string)
    requires glob != "" && glob[0] == '*' && GlobMatches(glob, name, WITHIN_LINE) && SingleLine(dir)
    ensures GlobMatches(glob, dir + name, WITHIN_LINE)
  {
    var path := dir + name;
    var k :| 0 <= k <= |name| && AllWild(name[..k], WITHIN_LINE) && GlobMatches(glob[1..], name[k..], WITHIN_LINE);
    assert path[|dir| + k..] == name[k..];
    assert path[..|dir| + k] == dir + name[..k];
  }

  // ----- as they run

  /** One round of the translation loops. */
  lemma PatternStep(done: string, glob: string, i: nat)
    requires i < |glob|
    ensures done + RulesPattern(glob[i..]) ==
            (done + Translate(glob[i], IsSyntax(glob[i]) || glob[i] == '\0')) + RulesPattern(glob[i + 1..])
    ensures done + FilePattern(glob[i..]) == (done + Translate(glob[i], IsSyntax(glob[i]))) + FilePattern(glob[i + 1..])
  {
    hide Translate, IsSyntax;
    var c, rest := glob[i], glob[i + 1..];
    assert glob[i..][0] == c && glob[i..][1..] == rest;
    Regrouped(done, Translate(c, IsSyntax(c) || c == '\0'), RulesPattern(rest));
    Regrouped(done, Translate(c, IsSyntax(c)), FilePattern(rest));
  }

  lemma EndOfGlob(done: string, glob: string)
    ensures glob[0..] == glob && done + RulesPattern(glob[|glob|..]) == done
    ensures done + FilePattern(glob[|glob|..]) == done
  {
    assert glob[|glob|..] == "";
  }

  /** to_regex in RulesLoader::glob_matches */
  method RulesToRegex(glob: string) returns (pattern: string)
    ensures pattern == RulesPattern(glob)
  {
    hide RulesPattern, IsSyntax;
    pattern := "";
    EndOfGlob(pattern, glob);
    for i := 0 to |glob|
      invariant pattern + RulesPattern(glob[i..]) == RulesPattern(glob)
    {
      var c := glob[i];
      PatternStep(pattern, glob, i);
      ghost var before := pattern;
      if c == '*' {
        pattern := pattern + ".*";
      } else if c == '?' {
        pattern := pattern + ".";
      } else {
        if IsSyntax(c) || c == '\0' {
          pattern := pattern + "\\";
        }
        pattern := pattern + [c];
        Regrouped(before, "\\", [c]);
      }
      assert pattern == before + Translate(c, IsSyntax(c) || c == '\0');
    }
    EndOfGlob(pattern, glob);
  }

  /** RulesLoader::glob_matches: the whole path, and then the file name alone. */
  method RulesGlobMatches(pattern: string, path: string) returns (matches: bool)
    ensures matches <==> GlobMatches(pattern, path, WITHIN_LINE) || GlobMatches(pattern, BaseName(path), WITHIN_LINE)
    ensures SingleLine(path) ==>
              (matches <==> GlobMatches(pattern, path, ANYTHING) || GlobMatches(pattern, BaseName(path), ANYTHING))
  {
    CompilationPreservesMeaning(pattern, path);
    CompilationPreservesMeaning(pattern, BaseName(path));
    BaseNameIsSuffix(path);
    assert SingleLine(path) ==> SingleLine(BaseName(path));
    var fullPattern := RulesToRegex(pattern);
    if PatternMatches(fullPattern, path) {
      return true;
    }
    var namePattern := RulesToRegex(pattern);
    return PatternMatches(namePattern, BaseName(path));
  }

  /** glob_match of the file tools */
  method FileGlobMatch(pattern: string, text: string) returns (matches: bool)
    ensures matches <==> GlobMatches(pattern, text, WITHIN_LINE)
    ensures SingleLine(text) ==> (matches <==> GlobMatches(pattern, text, ANYTHING))
  {
    hide FilePattern, IsSyntax, PatternMatches, GlobMatches;
    var regexPattern := "";
    EndOfGlob(regexPattern, pattern);
    for i := 0 to |pattern|
      invariant regexPattern + FilePattern(pattern[i..]) == FilePattern(pattern)
    {
      var c := pattern[i];
      PatternStep(regexPattern, pattern, i);
      ghost var before := regexPattern;
      if c == '*' {
        regexPattern := regexPattern + ".*";
      } else if c == '?' {
        regexPattern := regexPattern + ".";
      } else if IsSyntax(c) {
        regexPattern := regexPattern + "\\";
        regexPattern := regexPattern + [c];
        Regrouped(before, "\\", [c]);
      } else {
        regexPattern := regexPattern + [c];
      }
      assert regexPattern == before + Translate(c, IsSyntax(c));
    }
    EndOfGlob(regexPattern, pattern);
    CompilationPreservesMeaning(pattern, text);
    matches := PatternMatches(regexPattern, text);
  }
}
