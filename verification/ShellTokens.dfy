/** How a shell command is cut into tokens before it is classified. */
module ShellTokens {
  import opened Text

  /** The local variables of the tokenizer loop. */
  datatype Scanner = Scanner(tokens: seq<string>, current: string, inSingle: bool, inDouble: bool)

  const START := Scanner([], "", false, false)

  predicate IsSeparator(c: char) {
    c == '|' || c == ';' || c == '&' || c == '\n'
  }

  /** The tokens so far, the current one included if there is one. */
  function Flushed(t: Scanner): seq<string> {
    if t.current == "" then t.tokens else t.tokens + [t.current]
  }

  predicate IsUnquoted(t: Scanner) { !t.inSingle && !t.inDouble }

  function Step(t: Scanner, c: char): Scanner {
    if c == '\'' && !t.inDouble then t.(inSingle := !t.inSingle)
    else if c == '"' && !t.inSingle then t.(inDouble := !t.inDouble)
    else if IsUnquoted(t) && IsSeparator(c) then t.(tokens := Flushed(t) + [[c]], current := "")
    else if IsUnquoted(t) && IsSpace(c) then t.(tokens := Flushed(t), current := "")
    else t.(current := t.current + [c])
  }

  function Scan(t: Scanner, s: string): Scanner
    decreases |s|
  {
    if s == "" then t else Scan(Step(t, s[0]), s[1..])
  }

  function Tokens(command: string): seq<string> {
    Flushed(Scan(START, command))
  }

  /** tokenize_for_classification */
  method Tokenize(command: string) returns (tokens: seq<string>)
    ensures tokens == Tokens(command)
  {
    tokens := [];
    var current := "";
    var inSingle, inDouble := false, false;
    assert command[0..] == command;
    for i := 0 to |command|
      invariant Scan(Scanner(tokens, current, inSingle, inDouble), command[i..]) == Scan(START, command)
    {
      var c := command[i];
      assert command[i..][0] == c && command[i..][1..] == command[i + 1..];
      if c == '\'' && !inDouble {
        inSingle := !inSingle;
        continue;
      }
      if c == '"' && !inSingle {
        inDouble := !inDouble;
        continue;
      }
      if !inSingle && !inDouble && (c == '|' || c == ';' || c == '&' || c == '\n') {
        if current != "" {
          tokens := tokens + [current];
          current := "";
        }
        tokens := tokens + [[c]];
        continue;
      }
      if !inSingle && !inDouble && IsSpace(c) {
        if current != "" {
          tokens := tokens + [current];
          current := "";
        }
        continue;
      }
      current := current + [c];
    }
    if current != "" {
      tokens := tokens + [current];
    }
  }

  // ----- no empty token

  predicate NoneEmpty(tokens: seq<string>) {
    forall i :: 0 <= i < |tokens| ==> tokens[i] != ""
  }

  lemma {:induction false} ScanYieldsNoEmpty(t: Scanner, s: string)
    requires NoneEmpty(t.tokens)
    ensures NoneEmpty(Scan(t, s).tokens) && NoneEmpty(Flushed(Scan(t, s)))
    decreases |s|
  {
    if s != "" {
      ScanYieldsNoEmpty(Step(t, s[0]), s[1..]);
    }
  }

  /** No token is empty. */
  lemma TokensAreNotEmpty(command: string)
    ensures NoneEmpty(Tokens(command))
  {
    ScanYieldsNoEmpty(START, command);
  }

  // ----- what the tokens hold

  function Joined(tokens: seq<string>): string {
    if tokens == [] then "" else tokens[0] + Joined(tokens[1..])
  }

  /** The command without its active quotes and its unquoted spaces. */
  function Kept(s: string, inSingle: bool, inDouble: bool): string
    decreases |s|
  {
    if s == "" then ""
    else if s[0] == '\'' && !inDouble then Kept(s[1..], !inSingle, inDouble)
    else if s[0] == '"' && !inSingle then Kept(s[1..], inSingle, !inDouble)
    else if !inSingle && !inDouble && IsSpace(s[0]) && !IsSeparator(s[0]) then Kept(s[1..], inSingle, inDouble)
    else [s[0]] + Kept(s[1..], inSingle, inDouble)
  }

  lemma {:induction false} JoinedAppend(tokens: seq<string>, last: string)
    ensures Joined(tokens + [last]) == Joined(tokens) + last
    decreases |tokens|
  {
    if tokens == [] {
      assert [] + [last] == [last] && [last][1..] == [];
    } else {
      assert (tokens + [last])[1..] == tokens[1..] + [last];
      JoinedAppend(tokens[1..], last);
    }
  }

  /** All characters taken so far, in order. */
  function Taken(t: Scanner): string {
    Joined(t.tokens) + t.current
  }

  lemma FlushTakes(t: Scanner)
    ensures Joined(Flushed(t)) == Taken(t)
  {
    JoinedAppend(t.tokens, t.current);
  }

  lemma StepTakes(t: Scanner, c: char)
    ensures Taken(Step(t, c)) == Taken(t) +
            (if (c == '\'' && !t.inDouble) || (c == '"' && !t.inSingle)
                || (IsUnquoted(t) && IsSpace(c) && !IsSeparator(c)) then ""
             else [c])
  {
    FlushTakes(t);
    JoinedAppend(Flushed(t), [c]);
  }

  lemma {:induction false} ScanTakes(t: Scanner, s: string)
    ensures Taken(Scan(t, s)) == Taken(t) + Kept(s, t.inSingle, t.inDouble)
    decreases |s|
  {
    hide Taken, IsSeparator, IsSpace;
    if s == "" {
      EmptyAround(Taken(t));
    } else {
      StepTakes(t, s[0]);
      ScanTakes(Step(t, s[0]), s[1..]);
      Regrouped(Taken(t), [s[0]], Kept(s[1..], t.inSingle, t.inDouble));
      EmptyAround(Taken(t));
      Regrouped(Taken(t), "", Kept(s[1..], t.inSingle, t.inDouble));
    }
  }

  /**
   * Put together, the tokens are the command without active quotes and unquoted spaces: nothing else is lost or
   * moved.
   */
  lemma TokensHoldCommand(command: string)
    ensures Joined(Tokens(command)) == Kept(command, false, false)
  {
    ScanTakes(START, command);
    FlushTakes(Scan(START, command));
    assert Joined([]) + "" == "";
  }

  // ----- composition

  lemma {:induction false} ScanConcat(t: Scanner, a: string, b: string)
    ensures Scan(t, a + b) == Scan(Scan(t, a), b)
    decreases |a|
  {
    hide Step;
    if a == "" {
      assert a + b == b;
    } else {
      assert (a + b)[1..] == a[1..] + b;
      ScanConcat(Step(t, a[0]), a[1..], b);
    }
  }

  /** What has been tokenized does not influence what comes. */
  lemma {:induction false} ScanBehind(done: seq<string>, t: Scanner, s: string)
    ensures Scan(t.(tokens := done + t.tokens), s) == Scan(t, s).(tokens := done + Scan(t, s).tokens)
    decreases |s|
  {
    if s != "" {
      var later := t.(tokens := done + t.tokens);
      StepBehind(done, t, s[0]);
      ScanBehind(done, Step(t, s[0]), s[1..]);
    }
  }

  lemma StepBehind(done: seq<string>, t: Scanner, c: char)
    ensures Step(t.(tokens := done + t.tokens), c) == Step(t, c).(tokens := done + Step(t, c).tokens)
  {
    var later := t.(tokens := done + t.tokens);
    assert Flushed(later) == done + Flushed(t);
    assert Flushed(later) + [[c]] == done + (Flushed(t) + [[c]]);
  }

  lemma TokensBehind(done: seq<string>, s: string)
    ensures Flushed(Scan(START.(tokens := done), s)) == done + Tokens(s)
  {
    ScanBehind(done, START, s);
    assert done + [] == done;
  }

  /** At an unquoted separator or space a command falls into parts that are tokenized on their own. */
  lemma TokensCompose(a: string, c: char, b: string)
    requires IsUnquoted(Scan(START, a)) && (IsSeparator(c) || IsSpace(c))
    ensures Tokens(a + [c] + b) == Tokens(a) + (if IsSeparator(c) then [[c]] else []) + Tokens(b)
  {
    hide Flushed, Scan;
    ScanConcat(START, a + [c], b);
    ScanConcat(START, a, [c]);
    ScanOne(Scan(START, a), c);
    TokensBehind(Flushed(Scan(START, a)) + (if IsSeparator(c) then [[c]] else []), b);
  }

  lemma ScanOne(t: Scanner, c: char)
    requires IsUnquoted(t) && (IsSeparator(c) || IsSpace(c))
    ensures Scan(t, [c]) == START.(tokens := Flushed(t) + (if IsSeparator(c) then [[c]] else []))
  {
    assert [c][1..] == "";
  }

  // ----- words with and without quotes

  /** A part of a word as it is typed. */
  datatype Piece = Plain(text: string) | Single(text: string) | Double(text: string)

  predicate IsTyped(p: Piece) {
    match p
    case Plain(text) =>
      forall c :: c in text ==>
          c !in "'\"|;&" && c != ' ' && c != '\t' && c != '\n' && c != '\U{000B}' && c != '\U{000C}'
                                && c != '\r'
    case Single(text) => '\'' !in text
    case Double(text) => '"' !in text
  }

  function Typed(p: Piece): string {
    match p
    case Plain(text) => text
    case Single(text) => "'" + text + "'"
    case Double(text) => "\"" + text + "\""
  }

  function TypedWord(word: seq<Piece>): string {
    if word == [] then "" else Typed(word[0]) + TypedWord(word[1..])
  }

  function Meant(word: seq<Piece>): string {
    if word == [] then "" else word[0].text + Meant(word[1..])
  }

  /** What ends a word: one of these is a token of its own, the other only a gap. */
  predicate IsTokenOfItsOwn(c: char) { c == '|' || c == ';' || c == '&' || c == '\n' }

  predicate IsGap(c: char) { c == ' ' || c == '\t' || c == '\U{000B}' || c == '\U{000C}' || c == '\r' }

  /** Words, each with what ends it. */
  function TypedCommand(words: seq<(seq<Piece>, char)>): string {
    if words == [] then "" else TypedWord(words[0].0) + [words[0].1] + TypedCommand(words[1..])
  }

  function MeantTokens(words: seq<(seq<Piece>, char)>): seq<string> {
    if words == [] then []
    else
      (if Meant(words[0].0) == "" then [] else [Meant(words[0].0)])
      + (if IsTokenOfItsOwn(words[0].1) then [[words[0].1]] else [])
      + MeantTokens(words[1..])
  }

  predicate IsTypedCommand(words: seq<(seq<Piece>, char)>) {
    forall i :: 0 <= i < |words| ==>
      && (IsTokenOfItsOwn(words[i].1) || IsGap(words[i].1))
      && forall j :: 0 <= j < |words[i].0| ==> IsTyped(words[i].0[j])
  }

  lemma {:induction false} ScanInside(t: Scanner, text: string)
    requires || (t.inSingle && !t.inDouble && '\'' !in text) || (t.inDouble && !t.inSingle && '"' !in text)
             || (IsUnquoted(t) && IsTyped(Plain(text)))
    ensures Scan(t, text) == t.(current := t.current + text)
    decreases |text|
  {
    if text == "" {
      assert t.current + text == t.current;
    } else {
      assert text[0] in text && forall c :: c in text[1..] ==> c in text;
      ScanInside(Step(t, text[0]), text[1..]);
      assert t.current + text == t.current + [text[0]] + text[1..];
    }
  }

  lemma ScanPiece(t: Scanner, p: Piece)
    requires IsUnquoted(t) && IsTyped(p)
    ensures Scan(t, Typed(p)) == t.(current := t.current + p.text)
  {
    match p
    case Plain(text) => ScanInside(t, text);
    case Single(text) =>
      ScanConcat(t, "'" + text, "'");
      ScanConcat(t, "'", text);
      assert Scan(t, "'") == t.(inSingle := true) by { assert "'"[1..] == ""; }
      ScanInside(t.(inSingle := true), text);
      assert "'"[1..] == "";
    case Double(text) =>
      ScanConcat(t, "\"" + text, "\"");
      ScanConcat(t, "\"", text);
      assert Scan(t, "\"") == t.(inDouble := true) by { assert "\""[1..] == ""; }
      ScanInside(t.(inDouble := true), text);
      assert "\""[1..] == "";
  }

  lemma {:induction false} ScanWord(t: Scanner, word: seq<Piece>)
    requires IsUnquoted(t) && forall j :: 0 <= j < |word| ==> IsTyped(word[j])
    ensures Scan(t, TypedWord(word)) == t.(current := t.current + Meant(word))
    decreases |word|
  {
    hide Scan, Typed, IsTyped;
    if word == [] {
      ScanNothing(t);
      assert t.current + "" == t.current;
    } else {
      ScanConcat(t, Typed(word[0]), TypedWord(word[1..]));
      ScanPiece(t, word[0]);
      ScanWord(t.(current := t.current + word[0].text), word[1..]);
      Regrouped(t.current, word[0].text, Meant(word[1..]));
    }
  }

  lemma ScanNothing(t: Scanner)
    ensures Scan(t, "") == t
  {
  }

  lemma EndsAreEnds(c: char)
    ensures IsTokenOfItsOwn(c) <==> IsSeparator(c)
    ensures IsGap(c) ==> IsSpace(c) && !IsSeparator(c)
  {
  }

  /**
   * Quotes of either kind, plain text and what ends a word: the tokens are the words without their quotes, and
   * separators.
   */
  lemma {:induction false} TokensOfTyped(words: seq<(seq<Piece>, char)>)
    requires IsTypedCommand(words)
    ensures Tokens(TypedCommand(words)) == MeantTokens(words)
    decreases |words|
  {
    hide Scan, TypedWord, Meant, IsTyped, IsSeparator, IsSpace, IsTokenOfItsOwn, IsGap;
    if words == [] {
      ScanNothing(START);
    } else {
      var word, c := words[0].0, words[0].1;
      EndsAreEnds(c);
      ScanWord(START, word);
      EmptyAround(Meant(word));
      EmptyAround<string>([Meant(word)]);
      TokensOfTyped(words[1..]);
      TokensCompose(TypedWord(word), c, TypedCommand(words[1..]));
    }
  }

  // ----- quoting

  function Quote(word: string): string { "'" + word + "'" }

  /** The words, each in single quotes, with spaces between them. */
  function QuoteAll(words: seq<string>): string {
    if words == [] then ""
    else if |words| == 1 then Quote(words[0])
    else Quote(words[0]) + " " + QuoteAll(words[1..])
  }

  predicate Quotable(words: seq<string>) {
    forall i :: 0 <= i < |words| ==> '\'' !in words[i]
  }

  function WithoutEmpty(words: seq<string>): seq<string> {
    if words == [] then [] else (if words[0] == "" then [] else [words[0]]) + WithoutEmpty(words[1..])
  }

  lemma {:induction false} ScanInQuotes(t: Scanner, word: string)
    requires t.inSingle && !t.inDouble && '\'' !in word
    ensures Scan(t, word) == t.(current := t.current + word)
    decreases |word|
  {
    if word != "" {
      ScanInQuotes(Step(t, word[0]), word[1..]);
      assert t.current + word == t.current + [word[0]] + word[1..];
    }
  }

  lemma ScanQuoted(word: string)
    requires '\'' !in word
    ensures Scan(START, Quote(word)) == START.(current := word)
    ensures Tokens(Quote(word)) == if word == "" then [] else [word]
  {
    var inside := START.(inSingle := true);
    ScanConcat(START, "'" + word, "'");
    ScanConcat(START, "'", word);
    assert Scan(START, "'") == inside by { assert "'"[1..] == ""; }
    ScanInQuotes(inside, word);
    assert "" + word == word;
    assert "'"[1..] == "";
  }

  /** Tokenizing undoes quoting, but for empty words. */
  lemma {:induction false} TokensOfQuoted(words: seq<string>)
    requires Quotable(words)
    ensures Tokens(QuoteAll(words)) == WithoutEmpty(words)
    decreases |words|
  {
    hide Tokens, Quote, Scan;
    if words == [] {
      NoTokens();
    } else {
      ScanQuoted(words[0]);
      if |words| == 1 {
        assert words[1..] == [];
      } else {
        TokensOfQuoted(words[1..]);
        TokensCompose(Quote(words[0]), ' ', QuoteAll(words[1..]));
      }
    }
  }

  lemma NoTokens()
    ensures Tokens("") == []
  {
  }

  lemma {:induction false} WithoutEmptyShortens(words: seq<string>)
    ensures |WithoutEmpty(words)| <= |words|
    ensures WithoutEmpty(words) == words <==> NoneEmpty(words)
    decreases |words|
  {
    if words != [] {
      WithoutEmptyShortens(words[1..]);
      assert words == [words[0]] + words[1..];
      assert NoneEmpty(words) <==> words[0] != "" && NoneEmpty(words[1..]);
    }
  }

  /** Words without single quotes come back from their quoted form exactly when none of them is empty. */
  lemma QuotingRoundTrip(words: seq<string>)
    requires Quotable(words)
    ensures Tokens(QuoteAll(words)) == words <==> NoneEmpty(words)
  {
    TokensOfQuoted(words);
    WithoutEmptyShortens(words);
  }
}
