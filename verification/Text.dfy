/** Strings as the program sees them: std::string::find and the character classes of the C locale. */
module Text {

  /** std::string::npos. */
  const NPOS := -1

  /** The pattern stands in s at position i. */
  predicate Occurs(s: string, pattern: string, i: int) {
    0 <= i && i + |pattern| <= |s| && s[i..i + |pattern|] == pattern
  }

  /** std::string::find: the first position at or after `from` where the pattern stands. */
  function Find(s: string, pattern: string, from: nat): (r: int)
    ensures r == NPOS ==> forall i :: from <= i ==> !Occurs(s, pattern, i)
    ensures r != NPOS ==>
              && from <= r <= |s| - |pattern|
              && Occurs(s, pattern, r)
              && forall i :: from <= i < r ==> !Occurs(s, pattern, i)
    decreases |s| - from
  {
    if from + |pattern| > |s| then NPOS
    else if s[from..from + |pattern|] == pattern then from
    else Find(s, pattern, from + 1)
  }

  datatype CharClass =
    | Only(c: char)
    | Blank          // space or tab
    | Identifier     // letters, digits, underscore
    | Value          // anything that does not end an assignment's value
    | UpperOrDigit
    | TokenChar      // letters, digits, underscore, hyphen
    | NonSpace

  predicate IsUpper(c: char) { 'A' <= c <= 'Z' }
  predicate IsLower(c: char) { 'a' <= c <= 'z' }
  predicate IsDigit(c: char) { '0' <= c <= '9' }
  predicate IsAlpha(c: char) { IsUpper(c) || IsLower(c) }
  predicate IsAlnum(c: char) { IsAlpha(c) || IsDigit(c) }

  /** std::isspace: space, tab, newline, vertical tab, form feed, carriage return. */
  predicate IsSpace(c: char) {
    c == ' ' || c == '\t' || c == '\n' || c == '\U{000B}' || c == '\U{000C}' || c == '\r'
  }

  predicate Is(c: char, k: CharClass) {
    match k
    case Only(d) => c == d
    case Blank => c == ' ' || c == '\t'
    case Identifier => IsAlnum(c) || c == '_'
    case Value => c != ' ' && c != '\t' && c != '#' && c != '\n'
    case UpperOrDigit => IsUpper(c) || IsDigit(c)
    case TokenChar => IsAlnum(c) || c == '_' || c == '-'
    case NonSpace => !IsSpace(c)
  }

  /** The end of the run of characters of class k that starts at `from`. */
  function RunEnd(s: string, from: nat, k: CharClass): (e: nat)
    requires from <= |s|
    ensures from <= e <= |s|
    ensures forall i :: from <= i < e ==> Is(s[i], k)
    ensures e < |s| ==> !Is(s[e], k)
    decreases |s| - from
  {
    if from < |s| && Is(s[from], k) then RunEnd(s, from + 1, k) else from
  }

  /** A run end is determined by what it promises. */
  lemma {:induction false} RunEndIs(s: string, from: nat, k: CharClass, e: nat)
    requires from <= e <= |s|
    requires forall i :: from <= i < e ==> Is(s[i], k)
    requires e == |s| || !Is(s[e], k)
    ensures RunEnd(s, from, k) == e
    decreases e - from
  {
    if from < e {
      RunEndIs(s, from + 1, k, e);
    }
  }

  /** An occurrence at i is a prefix of the suffix at i. */
  lemma OccursIsPrefix(s: string, pattern: string, i: nat)
    requires i <= |s|
    ensures Occurs(s, pattern, i) <==> pattern <= s[i..]
  {
    if i + |pattern| <= |s| {
      assert s[i..][..|pattern|] == s[i..i + |pattern|];
    }
  }

  /** Searching from a position is searching a suffix. */
  lemma FindFrom(s: string, pattern: string, pos: nat, from: nat)
    requires pos <= from <= |s|
    ensures Find(s, pattern, from) ==
            if Find(s[pos..], pattern, from - pos) == NPOS then NPOS else pos + Find(s[pos..], pattern, from - pos)
    decreases |s| - from
  {
    if from + |pattern| <= |s| {
      assert s[from..from + |pattern|] == s[pos..][from - pos..from - pos + |pattern|];
      if from < |s| {
        FindFrom(s, pattern, pos, from + 1);
      }
    }
  }

  // ----- the first newline

  lemma NewlineFound(a: string, b: string)
    requires '\n' !in a
    ensures Find(a + "\n" + b, "\n", 0) == |a|
    ensures Find(a, "\n", 0) == NPOS
  {
    var s := a + "\n" + b;
    assert Occurs(s, "\n", |a|);
    forall i | 0 <= i < |a| ensures !Occurs(s, "\n", i) && !Occurs(a, "\n", i) {
      assert s[i..i + 1] == [a[i]] == a[i..i + 1];
    }
  }

  lemma FirstNewline(s: string)
    requires Find(s, "\n", 0) != NPOS
    ensures '\n' !in s[..Find(s, "\n", 0)]
    ensures s == s[..Find(s, "\n", 0)] + "\n" + s[Find(s, "\n", 0) + 1..]
  {
    var f := Find(s, "\n", 0);
    forall i | 0 <= i < f ensures s[..f][i] != '\n' {
      assert !Occurs(s, "\n", i);
      assert s[i..i + 1] == [s[i]];
    }
  }

  lemma NoNewline(s: string)
    requires Find(s, "\n", 0) == NPOS
    ensures '\n' !in s
  {
    forall i | 0 <= i < |s| ensures s[i] != '\n' {
      assert !Occurs(s, "\n", i);
      assert s[i..i + 1] == [s[i]];
    }
  }

  // ----- concatenation

  lemma Regrouped<T>(a: seq<T>, b: seq<T>, c: seq<T>)
    ensures (a + b) + c == a + (b + c)
  {
  }

  lemma EmptyAround<T>(s: seq<T>)
    ensures [] + s == s && s + [] == s
  {
  }
}
