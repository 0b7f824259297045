/** The patch engine on texts: reading a unified diff, applying it, replacing a piece of text. */
module PatchText {
  import opened Text
  import opened Lines

  // ----- reading a diff

  datatype DiffState = DiffState(inHunk: bool, oldChunk: string, newChunk: string)

  const NO_DIFF := DiffState(false, "", "")

  /** One line of the diff, its carriage return dropped. */
  function ReadDiffLine(st: DiffState, rawLine: string): DiffState {
    var line := DropCr(rawLine);
    if "@@" <= line then st.(inHunk := true)
    else if !st.inHunk || line == "" then st
    else
      var payload := line[1..] + "\n";
      if line[0] == ' ' then st.(oldChunk := st.oldChunk + payload, newChunk := st.newChunk + payload)
      else if line[0] == '-' then st.(oldChunk := st.oldChunk + payload)
      else if line[0] == '+' then st.(newChunk := st.newChunk + payload)
      else st
  }

  function ReadDiffLines(st: DiffState, lines: seq<string>): DiffState
    decreases |lines|
  {
    if lines == [] then st else ReadDiffLines(ReadDiffLine(st, lines[0]), lines[1..])
  }

  function ReadDiff(text: string): DiffState {
    ReadDiffLines(NO_DIFF, GetLines(text))
  }

  /** The line loop of apply_unified_diff. */
  method ParseDiff(diffText: string) returns (oldChunk: string, newChunk: string)
    ensures oldChunk == ReadDiff(diffText).oldChunk && newChunk == ReadDiff(diffText).newChunk
  {
    hide GetLines, Find;
    var inHunk := false;
    oldChunk, newChunk := "", "";
    var rest := diffText;
    NoLines();
    while rest != ""
      invariant ReadDiffLines(DiffState(inHunk, oldChunk, newChunk), GetLines(rest)) == ReadDiff(diffText)
      decreases |rest|
    {
      DiffStep(DiffState(inHunk, oldChunk, newChunk), rest);
      var n := Find(rest, "\n", 0);
      var line := if n == NPOS then rest else rest[..n];
      rest := if n == NPOS then "" else rest[n + 1..];
      line := DropCr(line);
      if "@@" <= line {
        inHunk := true;
        continue;
      }
      if !inHunk || line == "" {
        continue;
      }
      var prefix, payload := line[0], line[1..];
      if prefix == ' ' {
        oldChunk := oldChunk + (payload + "\n");
        newChunk := newChunk + (payload + "\n");
      } else if prefix == '-' {
        oldChunk := oldChunk + (payload + "\n");
      } else if prefix == '+' {
        newChunk := newChunk + (payload + "\n");
      }
    }
  }

  lemma NoLines()
    ensures GetLines("") == []
  {
    NoSplit("");
  }

  lemma DiffStep(st: DiffState, rest: string)
    requires rest != ""
    ensures var n := Find(rest, "\n", 0);
            && (n == NPOS || 0 <= n < |rest|)
            && ReadDiffLines(st, GetLines(rest)) ==
               ReadDiffLines(ReadDiffLine(st, if n == NPOS then rest else rest[..n]),
                             GetLines(if n == NPOS then "" else rest[n + 1..]))
  {
    hide ReadDiffLine, Complete, Leftover;
    NoLines();
    NextLine(rest);
    var n := Find(rest, "\n", 0);
    var line, lines := if n == NPOS then rest else rest[..n], if n == NPOS then [] else GetLines(rest[n + 1..]);
    assert GetLines(rest) == [line] + lines;
    assert ([line] + lines)[1..] == lines;
  }

  // ----- writing a diff

  /** A line of the old text, of the new text, of both, or of neither, such as "\\ No newline at end of file". */
  datatype HunkLine = Context(text: string) | Delete(text: string) | Add(text: string) | Other(text: string)

  datatype Hunk = Hunk(header: string, lines: seq<HunkLine>)

  function RenderLine(l: HunkLine): string {
    match l
    case Context(text) => " " + text
    case Delete(text) => "-" + text
    case Add(text) => "+" + text
    case Other(text) => text
  }

  function RenderLines(lines: seq<HunkLine>): seq<string> {
    if lines == [] then [] else [RenderLine(lines[0])] + RenderLines(lines[1..])
  }

  function RenderHunks(hunks: seq<Hunk>): seq<string> {
    if hunks == [] then [] else [hunks[0].header] + RenderLines(hunks[0].lines) + RenderHunks(hunks[1..])
  }

  /** The lines in front of the first hunk, such as file names, and the hunks. */
  function Render(prologue: seq<string>, hunks: seq<Hunk>): string {
    Terminate(prologue + RenderHunks(hunks))
  }

  /** What a hunk says the old text is. */
  function OldText(lines: seq<HunkLine>): string {
    if lines == [] then ""
    else (if lines[0].Add? || lines[0].Other? then "" else lines[0].text + "\n") + OldText(lines[1..])
  }

  function NewText(lines: seq<HunkLine>): string {
    if lines == [] then ""
    else (if lines[0].Delete? || lines[0].Other? then "" else lines[0].text + "\n") + NewText(lines[1..])
  }

  function OldTexts(hunks: seq<Hunk>): string {
    if hunks == [] then "" else OldText(hunks[0].lines) + OldTexts(hunks[1..])
  }

  function NewTexts(hunks: seq<Hunk>): string {
    if hunks == [] then "" else NewText(hunks[0].lines) + NewTexts(hunks[1..])
  }

  /** Nothing, or a line that neither starts like one of a hunk nor like a header. */
  predicate IsIgnored(line: string) {
    || line == "" || line == "\r"
    || (line[0] != ' ' && line[0] != '-' && line[0] != '+' && !("@@" <= line))
  }

  predicate LinesAreLines(lines: seq<HunkLine>) {
    forall i :: 0 <= i < |lines| ==> OneLine(lines[i].text) && (lines[i].Other? ==> IsIgnored(lines[i].text))
  }

  predicate EndsWithCr(text: string) { text != "" && text[|text| - 1] == '\r' }

  predicate NoCr(lines: seq<HunkLine>) {
    forall i :: 0 <= i < |lines| && !lines[i].Other? ==> !EndsWithCr(lines[i].text)
  }

  predicate WellFormed(hunks: seq<Hunk>) {
    forall i :: 0 <= i < |hunks| ==>
      && "@@" <= hunks[i].header && OneLine(hunks[i].header) && !EndsWithCr(hunks[i].header)
      && LinesAreLines(hunks[i].lines)
  }

  predicate IsPrologue(lines: seq<string>) {
    forall i :: 0 <= i < |lines| ==> OneLine(lines[i]) && !("@@" <= DropCr(lines[i]))
  }

  function DropCrs(lines: seq<HunkLine>): seq<HunkLine> {
    if lines == [] then []
    else
      [match lines[0]
       case Context(text) => Context(DropCr(text))
       case Delete(text) => Delete(DropCr(text))
       case Add(text) => Add(DropCr(text))
       case Other(text) => Other(text)] + DropCrs(lines[1..])
  }

  // ----- round trip

  lemma {:induction false} RenderedAreLines(lines: seq<HunkLine>)
    requires LinesAreLines(lines)
    ensures AllOneLine(RenderLines(lines))
    decreases |lines|
  {
    if lines != [] {
      assert LinesAreLines(lines[1..]);
      RenderedAreLines(lines[1..]);
      assert OneLine(lines[0].text);
      assert OneLine(RenderLine(lines[0]));
    }
  }

  lemma {:induction false} HunksAreLines(hunks: seq<Hunk>)
    requires WellFormed(hunks)
    ensures AllOneLine(RenderHunks(hunks))
    decreases |hunks|
  {
    if hunks != [] {
      RenderedAreLines(hunks[0].lines);
      HunksAreLines(hunks[1..]);
    }
  }

  lemma {:induction false} ReadConcat(st: DiffState, a: seq<string>, b: seq<string>)
    ensures ReadDiffLines(st, a + b) == ReadDiffLines(ReadDiffLines(st, a), b)
    decreases |a|
  {
    hide ReadDiffLine;
    if a == [] {
      assert a + b == b;
    } else {
      assert (a + b)[1..] == a[1..] + b;
      ReadConcat(ReadDiffLine(st, a[0]), a[1..], b);
    }
  }

  lemma ReadRenderedLine(st: DiffState, l: HunkLine)
    requires st.inHunk && (l.Other? ==> IsIgnored(l.text))
    ensures ReadDiffLine(st, RenderLine(l)) ==
            DiffState(true,
                      st.oldChunk + (if l.Add? || l.Other? then "" else DropCr(l.text) + "\n"),
                      st.newChunk + (if l.Delete? || l.Other? then "" else DropCr(l.text) + "\n"))
  {
    var line := DropCr(RenderLine(l));
    if !l.Other? {
      assert line[0] == RenderLine(l)[0];
      assert line[1..] == DropCr(l.text);
    } else if line != "" {
      assert line[0] == l.text[0] && line <= l.text;
    }
    assert st.oldChunk + "" == st.oldChunk && st.newChunk + "" == st.newChunk;
  }

  /**
   * Inside a hunk, reading what was rendered appends the old and the new text, carriage returns at line ends
   * dropped.
   */
  lemma {:induction false} ReadRendered(st: DiffState, lines: seq<HunkLine>)
    requires st.inHunk && LinesAreLines(lines)
    ensures ReadDiffLines(st, RenderLines(lines)) ==
            DiffState(true, st.oldChunk + OldText(DropCrs(lines)), st.newChunk + NewText(DropCrs(lines)))
    decreases |lines|
  {
    hide ReadDiffLine, RenderLine;
    if lines == [] {
      assert st.oldChunk + "" == st.oldChunk && st.newChunk + "" == st.newChunk;
    } else {
      assert RenderLines(lines)[1..] == RenderLines(lines[1..]);
      assert DropCrs(lines)[1..] == DropCrs(lines[1..]);
      ReadRenderedLine(st, lines[0]);
      ReadRendered(ReadDiffLine(st, RenderLine(lines[0])), lines[1..]);
      var l := DropCrs(lines)[0];
      Regrouped(st.oldChunk, if l.Add? || l.Other? then "" else l.text + "\n", OldText(DropCrs(lines[1..])));
      Regrouped(st.newChunk, if l.Delete? || l.Other? then "" else l.text + "\n", NewText(DropCrs(lines[1..])));
    }
  }

  lemma {:induction false} ReadPrologue(lines: seq<string>)
    requires IsPrologue(lines)
    ensures ReadDiffLines(NO_DIFF, lines) == NO_DIFF
    decreases |lines|
  {
    if lines != [] {
      ReadPrologue(lines[1..]);
    }
  }

  function WithoutCrs(hunks: seq<Hunk>): seq<Hunk> {
    if hunks == [] then [] else [Hunk(hunks[0].header, DropCrs(hunks[0].lines))] + WithoutCrs(hunks[1..])
  }

  lemma {:induction false} ReadHunks(st: DiffState, hunks: seq<Hunk>)
    requires WellFormed(hunks)
    ensures ReadDiffLines(st, RenderHunks(hunks)) ==
            DiffState(st.inHunk || hunks != [],
                      st.oldChunk + OldTexts(WithoutCrs(hunks)), st.newChunk + NewTexts(WithoutCrs(hunks)))
    decreases |hunks|
  {
    if hunks == [] {
      assert st.oldChunk + "" == st.oldChunk && st.newChunk + "" == st.newChunk;
    } else {
      var h, rest := hunks[0], hunks[1..];
      var inside := st.(inHunk := true);
      HeaderOpens(st, h);
      ReadRendered(inside, h.lines);
      var read := ReadDiffLines(inside, RenderLines(h.lines));
      ReadHunks(read, rest);
      ReadConcat(st, [h.header] + RenderLines(h.lines), RenderHunks(rest));
      assert WithoutCrs(hunks)[1..] == WithoutCrs(rest);
      Regrouped(st.oldChunk, OldText(DropCrs(h.lines)), OldTexts(WithoutCrs(rest)));
      Regrouped(st.newChunk, NewText(DropCrs(h.lines)), NewTexts(WithoutCrs(rest)));
    }
  }

  lemma HeaderOpens(st: DiffState, h: Hunk)
    requires "@@" <= h.header && !EndsWithCr(h.header)
    ensures ReadDiffLines(st, [h.header] + RenderLines(h.lines)) ==
            ReadDiffLines(st.(inHunk := true), RenderLines(h.lines))
  {
    assert ([h.header] + RenderLines(h.lines))[1..] == RenderLines(h.lines);
  }

  /**
   * Reading a rendered diff of any number of hunks yields their old and new texts one behind the other, but for
   * carriage returns.
   */
  lemma ReadRenderedDiff(prologue: seq<string>, hunks: seq<Hunk>)
    requires IsPrologue(prologue) && WellFormed(hunks)
    ensures ReadDiff(Render(prologue, hunks)).oldChunk == OldTexts(WithoutCrs(hunks))
    ensures ReadDiff(Render(prologue, hunks)).newChunk == NewTexts(WithoutCrs(hunks))
  {
    hide RenderHunks, ReadDiffLines, OldTexts, NewTexts;
    HunksAreLines(hunks);
    assert AllOneLine(prologue + RenderHunks(hunks));
    GetTerminated(prologue + RenderHunks(hunks));
    ReadConcat(NO_DIFF, prologue, RenderHunks(hunks));
    ReadPrologue(prologue);
    ReadHunks(NO_DIFF, hunks);
    EmptyAround(OldTexts(WithoutCrs(hunks)));
    EmptyAround(NewTexts(WithoutCrs(hunks)));
  }

  lemma {:induction false} DropCrsShortens(lines: seq<HunkLine>)
    ensures |OldText(DropCrs(lines))| <= |OldText(lines)| && |NewText(DropCrs(lines))| <= |NewText(lines)|
    ensures NoCr(lines) ==> DropCrs(lines) == lines
    ensures !NoCr(lines) ==>
              |OldText(DropCrs(lines))| + |NewText(DropCrs(lines))| < |OldText(lines)| + |NewText(lines)|
    decreases |lines|
  {
    if lines != [] {
      assert DropCrs(lines)[1..] == DropCrs(lines[1..]);
      DropCrsShortens(lines[1..]);
      assert NoCr(lines) <==> (lines[0].Other? || !EndsWithCr(lines[0].text)) && NoCr(lines[1..]) by {
        assert forall i :: 0 < i < |lines| ==> lines[i] == lines[1..][i - 1];
        assert forall i :: 0 <= i < |lines| - 1 ==> lines[1..][i] == lines[i + 1];
      }
    }
  }

  /** A rendered hunk is read back as its old and its new text exactly when no line ends with a carriage return. */
  lemma HunkRoundTrip(prologue: seq<string>, header: string, lines: seq<HunkLine>)
    requires IsPrologue(prologue) && WellFormed([Hunk(header, lines)])
    ensures var read := ReadDiff(Render(prologue, [Hunk(header, lines)]));
            (read.oldChunk == OldText(lines) && read.newChunk == NewText(lines)) <==> NoCr(lines)
  {
    hide ReadDiff, Render, NoCr, WellFormed;
    var hunks := [Hunk(header, lines)];
    ReadRenderedDiff(prologue, hunks);
    OneHunk(header, lines);
    DropCrsShortens(lines);
  }

  lemma OneHunk(header: string, lines: seq<HunkLine>)
    ensures OldTexts(WithoutCrs([Hunk(header, lines)])) == OldText(DropCrs(lines))
    ensures NewTexts(WithoutCrs([Hunk(header, lines)])) == NewText(DropCrs(lines))
  {
    var hunks := [Hunk(header, lines)];
    assert WithoutCrs(hunks) == [Hunk(header, DropCrs(lines))];
    assert WithoutCrs(hunks)[1..] == [];
  }

  // ----- applying

  datatype PatchOutcome = Patched(content: string) | Refused(reason: string)

  function ReplaceAt(content: string, pos: nat, oldText: string, newText: string): string
    requires pos + |oldText| <= |content|
  {
    content[..pos] + newText + content[pos + |oldText|..]
  }

  /** What apply_unified_diff makes of a file's content. */
  function ApplyTexts(content: string, oldText: string, newText: string): PatchOutcome {
    if oldText == "" && newText == "" then Refused("no applicable hunks")
    else
      var pos := Find(content, oldText, 0);
      if pos == NPOS then Refused("hunk context not found") else Patched(ReplaceAt(content, pos, oldText, newText))
  }

  /** The first occurrence of the old text gives way to the new one. */
  lemma FirstIsReplaced(front: string, oldText: string, back: string, newText: string)
    requires oldText != "" || newText != ""
    requires forall i :: 0 <= i < |front| ==> !Occurs(front + oldText + back, oldText, i)
    ensures ApplyTexts(front + oldText + back, oldText, newText) == Patched(front + newText + back)
  {
    var content := front + oldText + back;
    assert content[|front|..|front| + |oldText|] == oldText;
    assert Occurs(content, oldText, |front|);
    assert Find(content, oldText, 0) == |front|;
    assert content[..|front|] == front && content[|front| + |oldText|..] == back;
  }

  /** What cannot be applied, and why. */
  lemma WhatIsRefused(content: string, oldText: string, newText: string)
    ensures oldText == newText == "" ==> ApplyTexts(content, oldText, newText) == Refused("no applicable hunks")
    ensures (oldText != "" || newText != "") && (forall i :: !Occurs(content, oldText, i)) ==>
              ApplyTexts(content, oldText, newText) == Refused("hunk context not found")
    ensures (forall i :: !Occurs(content, oldText, i)) ==>
              ExactReplace(content, oldText, newText) == Refused("old text not found")
  {
  }

  function ApplyDiff(content: string, diffText: string): PatchOutcome {
    ApplyTexts(content, ReadDiff(diffText).oldChunk, ReadDiff(diffText).newChunk)
  }

  lemma ReplaceAtBack(content: string, pos: nat, oldText: string, newText: string)
    requires Occurs(content, oldText, pos)
    ensures var changed := ReplaceAt(content, pos, oldText, newText);
            Occurs(changed, newText, pos) && ReplaceAt(changed, pos, newText, oldText) == content
  {
    var changed := ReplaceAt(content, pos, oldText, newText);
    assert changed[pos..pos + |newText|] == newText;
    assert changed[..pos] == content[..pos] && changed[pos + |newText|..] == content[pos + |oldText|..];
    assert content == content[..pos] + oldText + content[pos + |oldText|..];
  }

  /** Replacing the first occurrence of newText restores the content only if it stands where oldText was replaced. */
  lemma RestoredOnlyInPlace(content: string, oldText: string, newText: string)
    requires Find(content, oldText, 0) != NPOS
    ensures var p := Find(content, oldText, 0);
            var changed := ReplaceAt(content, p, oldText, newText);
            var q := Find(changed, newText, 0);
            && q != NPOS && q <= p
            && (ReplaceAt(changed, q, newText, oldText) == content <==> q == p)
  {
    var p := Find(content, oldText, 0);
    ReplaceAtBack(content, p, oldText, newText);
    var changed := ReplaceAt(content, p, oldText, newText);
    var q := Find(changed, newText, 0);
    var back := ReplaceAt(changed, q, newText, oldText);
    assert back[q..q + |oldText|] == oldText;
    assert back == content ==> Occurs(content, oldText, q);
  }

  /**
   * Applying a diff and then the opposite one restores the content exactly when the new text first occurs in its
   * place.
   */
  lemma ReverseRestores(content: string, oldText: string, newText: string)
    requires ApplyTexts(content, oldText, newText).Patched?
    ensures var changed := ApplyTexts(content, oldText, newText).content;
            ApplyTexts(changed, newText, oldText) == Patched(content) <==>
            Find(changed, newText, 0) == Find(content, oldText, 0)
  {
    RestoredOnlyInPlace(content, oldText, newText);
  }

  function Swap(lines: seq<HunkLine>): seq<HunkLine> {
    if lines == [] then []
    else
      [match lines[0]
       case Context(text) => Context(text)
       case Delete(text) => Add(text)
       case Add(text) => Delete(text)
       case Other(text) => Other(text)] + Swap(lines[1..])
  }

  lemma {:induction false} SwapSwapsTexts(lines: seq<HunkLine>)
    ensures OldText(Swap(lines)) == NewText(lines) && NewText(Swap(lines)) == OldText(lines)
    ensures (NoCr(lines) ==> NoCr(Swap(lines))) && (LinesAreLines(lines) ==> LinesAreLines(Swap(lines)))
    decreases |lines|
  {
    if lines != [] {
      assert Swap(lines)[1..] == Swap(lines[1..]);
      SwapSwapsTexts(lines[1..]);
      assert NoCr(lines) ==> NoCr(lines[1..]);
      assert LinesAreLines(lines) ==> LinesAreLines(lines[1..]);
    }
  }

  /** Applying a rendered hunk and then the hunk with + and - exchanged: exactly when the file comes back. */
  lemma SwappedDiffRestores(content: string, prologue: seq<string>, header: string, lines: seq<HunkLine>)
    requires IsPrologue(prologue) && WellFormed([Hunk(header, lines)]) && NoCr(lines)
    requires ApplyDiff(content, Render(prologue, [Hunk(header, lines)])).Patched?
    ensures var changed := ApplyDiff(content, Render(prologue, [Hunk(header, lines)])).content;
            ApplyDiff(changed, Render(prologue, [Hunk(header, Swap(lines))])) == Patched(content) <==>
            Find(changed, NewText(lines), 0) == Find(content, OldText(lines), 0)
  {
    hide ReadDiff, Render, NoCr, LinesAreLines, IsPrologue, ApplyTexts, OneLine, EndsWithCr;
    SwapSwapsTexts(lines);
    HunkIsLines(header, lines);
    HunkIsLines(header, Swap(lines));
    HunkRoundTrip(prologue, header, lines);
    HunkRoundTrip(prologue, header, Swap(lines));
    ReverseRestores(content, OldText(lines), NewText(lines));
  }

  lemma HunkIsLines(header: string, lines: seq<HunkLine>)
    ensures WellFormed([Hunk(header, lines)]) <==>
            "@@" <= header && OneLine(header) && !EndsWithCr(header) && LinesAreLines(lines)
  {
    assert [Hunk(header, lines)][0] == Hunk(header, lines);
  }

  // ----- replacing a text that must be unique

  /** What exact_replace makes of a file's content. */
  function ExactReplace(content: string, oldText: string, newText: string): PatchOutcome {
    var first := Find(content, oldText, 0);
    if first == NPOS then Refused("old text not found")
    else if Find(content, oldText, first + |oldText|) != NPOS then Refused("old text is not unique")
    else Patched(ReplaceAt(content, first, oldText, newText))
  }

  /** The only occurrence, or one that only overlaps others behind it, gives way to the new text. */
  lemma UniqueIsReplaced(front: string, oldText: string, back: string, newText: string)
    requires oldText != "" && (forall i :: 0 <= i < |front| ==> !Occurs(front + oldText + back, oldText, i))
    ensures ExactReplace(front + oldText + back, oldText, newText) ==
            if exists i :: Occurs(back, oldText, i) then Refused("old text is not unique")
            else Patched(front + newText + back)
  {
    var content, n := front + oldText + back, |front| + |oldText|;
    assert content[|front|..n] == oldText && Occurs(content, oldText, |front|);
    assert Find(content, oldText, 0) == |front|;
    assert content[..|front|] == front && content[n..] == back;
    FindFrom(content, oldText, n, n);
  }

  ghost predicate OccursTwiceApart(content: string, text: string) {
    exists i, j :: i + |text| <= j && Occurs(content, text, i) && Occurs(content, text, j)
  }

  /**
   * It succeeds exactly when the old text is not empty, occurs, and does not occur at two places that do not
   * overlap.
   */
  lemma ExactReplaceSucceeds(content: string, oldText: string, newText: string)
    ensures ExactReplace(content, oldText, newText).Patched? <==>
            oldText != "" && (exists i :: Occurs(content, oldText, i)) && !OccursTwiceApart(content, oldText)
  {
    var first := Find(content, oldText, 0);
    if first != NPOS {
      var second := Find(content, oldText, first + |oldText|);
      if oldText == "" {
        assert Occurs(content, oldText, first);
      } else if second != NPOS {
        assert first + |oldText| <= second && Occurs(content, oldText, first) && Occurs(content, oldText, second);
      }
    }
  }

  /** No proper prefix of the text is also a suffix of it. */
  predicate BorderFree(text: string) {
    forall k :: 0 < k < |text| ==> text[..k] != text[|text| - k..]
  }

  ghost predicate OccursOnce(content: string, text: string) {
    exists i :: Occurs(content, text, i) && forall j :: Occurs(content, text, j) ==> j == i
  }

  lemma OverlapIsBorder(content: string, text: string, i: nat, j: nat)
    requires i < j < i + |text| && Occurs(content, text, i) && Occurs(content, text, j)
    ensures !BorderFree(text)
  {
    var k := i + |text| - j;
    assert text[|text| - k..] == content[j..i + |text|] by {
      assert content[i..i + |text|][j - i..] == content[j..i + |text|];
    }
    assert text[..k] == content[j..i + |text|] by {
      assert content[j..j + |text|][..k] == content[j..j + k];
    }
  }

  /** For a border-free text, what is replaced is the only occurrence. */
  lemma BorderFreeIsUnique(content: string, oldText: string, newText: string)
    requires BorderFree(oldText) && ExactReplace(content, oldText, newText).Patched?
    ensures OccursOnce(content, oldText)
  {
    var first := Find(content, oldText, 0);
    forall j | Occurs(content, oldText, j) ensures j == first {
      if first < j && j < first + |oldText| {
        OverlapIsBorder(content, oldText, first, j);
      }
    }
  }

  /** A text with a border overlapping itself is replaced although it occurs twice. */
  lemma BorderBreaksUniqueness(oldText: string, newText: string, k: nat)
    requires 0 < k < |oldText| && oldText[..k] == oldText[|oldText| - k..]
    ensures var content := oldText + oldText[k..];
            ExactReplace(content, oldText, newText).Patched? && !OccursOnce(content, oldText)
  {
    var content, n := oldText + oldText[k..], |oldText|;
    assert content[0..n] == oldText;
    assert content[n - k..n - k + n] == oldText[n - k..] + oldText[k..] == oldText[..k] + oldText[k..] == oldText;
    assert Occurs(content, oldText, 0) && Occurs(content, oldText, n - k);
  }

  /** Success means a unique occurrence for every content exactly when the old text is border-free. */
  lemma UniqueExactlyWhenBorderFree(oldText: string, newText: string)
    ensures BorderFree(oldText) <==>
            forall content :: ExactReplace(content, oldText, newText).Patched? ==> OccursOnce(content, oldText)
  {
    hide ExactReplace, OccursOnce;
    if BorderFree(oldText) {
      forall content | ExactReplace(content, oldText, newText).Patched? ensures OccursOnce(content, oldText) {
        BorderFreeIsUnique(content, oldText, newText);
      }
    } else {
      var k :| 0 < k < |oldText| && oldText[..k] == oldText[|oldText| - k..];
      BorderBreaksUniqueness(oldText, newText, k);
    }
  }

  /** Replacing back restores the content exactly when the new text passes the same test in the same place. */
  lemma ReplaceBackRestores(content: string, oldText: string, newText: string)
    requires ExactReplace(content, oldText, newText).Patched?
    ensures var p := Find(content, oldText, 0);
            var changed := ExactReplace(content, oldText, newText).content;
            ExactReplace(changed, newText, oldText) == Patched(content) <==>
            Find(changed, newText, 0) == p && Find(changed, newText, p + |newText|) == NPOS
  {
    RestoredOnlyInPlace(content, oldText, newText);
  }
}
