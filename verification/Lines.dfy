/** Texts as lines: what is terminated by a newline, and what is left behind the last one. */
module Lines {
  import opened Text

  /** The lines that are terminated by a newline, without it. */
  function Complete(s: string): seq<string>
    decreases |s|
  {
    var n := Find(s, "\n", 0);
    if n == NPOS then [] else [s[..n]] + Complete(s[n + 1..])
  }

  /** What stands behind the last newline. */
  function Leftover(s: string): string
    decreases |s|
  {
    var n := Find(s, "\n", 0);
    if n == NPOS then s else Leftover(s[n + 1..])
  }

  /** The lines std::getline yields: a text that ends without newline has one more, unless nothing is left. */
  function GetLines(s: string): seq<string> {
    Complete(s) + if Leftover(s) == "" then [] else [Leftover(s)]
  }

  /** Lines, each with a newline behind it. */
  function Terminate(lines: seq<string>): string {
    if lines == [] then "" else lines[0] + "\n" + Terminate(lines[1..])
  }

  predicate OneLine(s: string) { '\n' !in s }

  predicate AllOneLine(lines: seq<string>) {
    forall i :: 0 <= i < |lines| ==> OneLine(lines[i])
  }

  /** A carriage return at the end of a line is dropped. */
  function DropCr(line: string): string {
    if line != "" && line[|line| - 1] == '\r' then line[..|line| - 1] else line
  }

  lemma SplitFirst(line: string, rest: string)
    requires OneLine(line)
    ensures Complete(line + "\n" + rest) == [line] + Complete(rest)
    ensures Leftover(line + "\n" + rest) == Leftover(rest)
  {
    var s := line + "\n" + rest;
    NewlineFound(line, rest);
    assert s[..|line|] == line && s[|line| + 1..] == rest;
  }

  lemma NoSplit(s: string)
    requires OneLine(s)
    ensures Complete(s) == [] && Leftover(s) == s
  {
    NewlineFound(s, "");
  }

  /** Splitting may stop and go on with what was left. */
  lemma {:induction false} SplitGoesOn(a: string, b: string)
    ensures Complete(a + b) == Complete(a) + Complete(Leftover(a) + b)
    ensures Leftover(a + b) == Leftover(Leftover(a) + b)
    decreases |a|
  {
    hide Complete, Leftover, Find;
    var n := Find(a, "\n", 0);
    if n == NPOS {
      NoNewline(a);
      NoSplit(a);
    } else {
      FirstNewline(a);
      var line, rest := a[..n], a[n + 1..];
      SplitFirst(line, rest);
      SplitFirst(line, rest + b);
      Behind(line, rest, b);
      SplitGoesOn(rest, b);
      Regrouped([line], Complete(rest), Complete(Leftover(rest) + b));
    }
  }

  lemma Behind(line: string, rest: string, b: string)
    ensures (line + "\n" + rest) + b == line + "\n" + (rest + b)
  {
  }

  /** Terminated lines are split into the same lines. */
  lemma {:induction false} SplitTerminated(lines: seq<string>)
    requires AllOneLine(lines)
    ensures Complete(Terminate(lines)) == lines && Leftover(Terminate(lines)) == ""
    decreases |lines|
  {
    hide Complete, Leftover, Find;
    if lines == [] {
      NoSplit("");
    } else {
      SplitTerminated(lines[1..]);
      SplitFirst(lines[0], Terminate(lines[1..]));
    }
  }

  lemma GetTerminated(lines: seq<string>)
    requires AllOneLine(lines)
    ensures GetLines(Terminate(lines)) == lines
  {
    SplitTerminated(lines);
  }

  /** A last line without a newline is read as well, unless nothing stands there. */
  lemma {:induction false} GetUnterminated(lines: seq<string>, last: string)
    requires AllOneLine(lines) && OneLine(last) && last != ""
    ensures GetLines(Terminate(lines) + last) == lines + [last]
    decreases |lines|
  {
    hide Complete, Leftover, Find;
    if lines == [] {
      NoSplit(last);
      assert "" + last == last;
    } else {
      var rest := Terminate(lines[1..]) + last;
      GetUnterminated(lines[1..], last);
      SplitFirst(lines[0], rest);
      assert Terminate(lines) + last == lines[0] + "\n" + rest;
      Regrouped([lines[0]], Complete(rest), if Leftover(rest) == "" then [] else [Leftover(rest)]);
      assert lines + [last] == [lines[0]] + (lines[1..] + [last]);
    }
  }

  /** What std::getline does in a loop: the next line, and the text behind it. */
  lemma NextLine(s: string)
    requires s != ""
    ensures var n := Find(s, "\n", 0);
            GetLines(s) == if n == NPOS then [s] else [s[..n]] + GetLines(s[n + 1..])
  {
    var n := Find(s, "\n", 0);
    if n != NPOS {
      var rest := s[n + 1..];
      Regrouped([s[..n]], Complete(rest), if Leftover(rest) == "" then [] else [Leftover(rest)]);
    }
  }
}
