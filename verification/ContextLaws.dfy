/** What a built context holds, item by item. */
module ContextLaws {
  import opened Wrappers
  import opened ContextBuilders

  // ----- single items

  /** A text with its kind and label, charged a quarter of its length, rounded up, in 32 bits. */
  predicate IsItem(x: ContextItem, kind: ItemKind, name: string, content: string) {
    && x.kind == kind && x.name == name && x.content == content
    && x.tokens == ((|content| + 3) / 4) % 0x1_0000_0000
  }

  /** Long files are cut behind 8000 characters, and it is noted. */
  function Shown(content: string): string {
    if 8000 < |content| then content[..8000] + "\n... [truncated]" else content
  }

  /** The given paths that name a file, with what is shown of it. */
  function ShownFiles(files: map<string, string>, paths: seq<string>): seq<(string, string)> {
    if paths == [] then []
    else
      var last := paths[|paths| - 1];
      ShownFiles(files, paths[..|paths| - 1]) + if last in files then [(last, Shown(files[last]))] else []
  }

  /** Items of one kind, label and content of each given by a pair. */
  predicate AreItems(items: seq<ContextItem>, kind: ItemKind, pairs: seq<(string, string)>) {
    |items| == |pairs| && forall i :: 0 <= i < |items| ==> IsItem(items[i], kind, pairs[i].0, pairs[i].1)
  }

  /** The five sections a context may have: kinds, labels and contents. */
  function Candidates(ws: Workspace, r: BuildRequest): seq<(ItemKind, seq<(string, string)>)> {
    [
      (Goal, [("goal", r.goal)]),
      (Rule, ws.rules),
      (ProjectInfo, if ws.project.Some? then [("project", ws.project.value)] else []),
      (FileSnippet, ShownFiles(ws.files, r.filePaths)),
      (Conversation, r.conversation)
    ]
  }

  lemma {:induction false} FilesAreShown(files: map<string, string>, paths: seq<string>)
    ensures AreItems(FileItems(files, paths), FileSnippet, ShownFiles(files, paths))
    decreases |paths|
  {
    if paths != [] {
      var front, last := paths[..|paths| - 1], paths[|paths| - 1];
      FilesAreShown(files, front);
      FileItemsConcat(files, front, [last]);
      assert front + [last] == paths;
      assert FileItems(files, [last]) ==
             if last in files then [Item(FileSnippet, last, ReadSnippet(files[last]))] else [];
    }
  }

  lemma {:induction false} FileItemsConcat(files: map<string, string>, a: seq<string>, b: seq<string>)
    ensures FileItems(files, a + b) == FileItems(files, a) + FileItems(files, b)
    decreases |a|
  {
    if a == [] {
      assert a + b == b;
    } else {
      assert (a + b)[1..] == a[1..] + b;
      FileItemsConcat(files, a[1..], b);
    }
  }

  lemma SectionsAreCandidates(ws: Workspace, r: BuildRequest)
    ensures |Sections(ws, r)| == 5
    ensures forall k :: 0 <= k < 5 ==> AreItems(Sections(ws, r)[k], Candidates(ws, r)[k].0, Candidates(ws, r)[k].1)
  {
    FilesAreShown(ws.files, r.filePaths);
    forall k | 0 <= k < 5 ensures AreItems(Sections(ws, r)[k], Candidates(ws, r)[k].0, Candidates(ws, r)[k].1) {
    }
  }

  // ----- whole contexts

  /** What a text is charged. */
  function Price(content: string): nat { ((|content| + 3) / 4) % 0x1_0000_0000 }

  /** The first n candidates of a section stand at `from`; n is all of them, or the next is dearer than what is left. */
  predicate Keeps(items: seq<ContextItem>, from: nat, n: nat, left: nat, section: (ItemKind, seq<(string, string)>)) {
    && n <= |section.1| && from + n <= |items|
    && AreItems(items[from..from + n], section.0, section.1[..n])
    && (n < |section.1| ==> left < Price(section.1[n].1))
  }

  function Spent(items: seq<ContextItem>): nat {
    if items == [] then 0 else Spent(items[..|items| - 1]) + items[|items| - 1].tokens
  }

  /** Where each section starts behind the items that stand there already, and how many candidates it keeps. */
  datatype Layout = Layout(starts: seq<nat>, counts: seq<nat>)

  /** A section from `start` up to `next`. */
  predicate Stands(items: seq<ContextItem>, budget: nat, start: nat, count: nat, next: nat,
                   section: (ItemKind, seq<(string, string)>))
  {
    && next == start + count <= |items| && Spent(items[..next]) <= budget
    && Keeps(items, start, count, budget - Spent(items[..next]), section)
  }

  predicate IsLaidOut(items: seq<ContextItem>, base: nat, budget: nat,
                      candidates: seq<(ItemKind, seq<(string, string)>)>, l: Layout)
  {
    && |l.starts| == |candidates| + 1 && |l.counts| == |candidates|
    && l.starts[0] == base && l.starts[|candidates|] == |items|
    && forall k :: 0 <= k < |candidates| ==>
         Stands(items, budget, l.starts[k], l.counts[k], l.starts[k + 1], candidates[k])
  }

  /** Some section does not keep all of its candidates. */
  predicate LeavesOut(candidates: seq<(ItemKind, seq<(string, string)>)>, l: Layout) {
    |l.counts| == |candidates| && exists k :: 0 <= k < |l.counts| && l.counts[k] < |candidates[k].1|
  }

  lemma {:induction false} SpentIsTokens(items: seq<ContextItem>)
    ensures Spent(items) == Tokens(items)
    decreases |items|
  {
    if items != [] {
      var n := |items| - 1;
      SpentIsTokens(items[..n]);
      TokensOfConcat(items[..n], [items[n]]);
      assert items[..n] + [items[n]] == items;
      assert Tokens([items[n]]) == items[n].tokens;
    }
  }

  /** One section keeps a prefix of its candidates, as long as the budget allows. */
  lemma SectionKeeps(built: BuiltContext, budget: nat, items: seq<ContextItem>,
                     section: (ItemKind, seq<(string, string)>))
    requires built.totalTokens == Spent(built.items) <= budget && AreItems(items, section.0, section.1)
    ensures var after, n := AddSection(built, budget, items), Fitting(items, budget - built.totalTokens);
            && after.items == built.items + items[..n]
            && after.totalTokens == Spent(after.items) <= budget
            && (after.truncated <==> built.truncated || n < |section.1|)
            && Keeps(after.items, |built.items|, n, budget - Spent(after.items), section)
  {
    hide AreItems, Keeps, Tokens, Spent;
    var n := Fitting(items, budget - built.totalTokens);
    SpentIsTokens(built.items);
    SpentIsTokens(built.items + items[..n]);
    TokensOfConcat(built.items, items[..n]);
    NextIsTooDear(items, n, section);
    assert |items| == |section.1| by { AreAsMany(items, section); }
    PrefixIsKept(built.items, items, n, budget - Spent(built.items + items[..n]), section);
  }

  lemma AreAsMany(items: seq<ContextItem>, section: (ItemKind, seq<(string, string)>))
    requires AreItems(items, section.0, section.1)
    ensures |items| == |section.1|
  {
  }

  lemma NextIsTooDear(items: seq<ContextItem>, n: nat, section: (ItemKind, seq<(string, string)>))
    requires AreItems(items, section.0, section.1)
    ensures n < |items| ==> n < |section.1| && items[n].tokens == Price(section.1[n].1)
  {
  }

  lemma PrefixIsKept(before: seq<ContextItem>, items: seq<ContextItem>, n: nat, left: nat,
                     section: (ItemKind, seq<(string, string)>))
    requires AreItems(items, section.0, section.1) && n <= |items|
    requires n < |items| ==> left < items[n].tokens
    ensures Keeps(before + items[..n], |before|, n, left, section)
  {
    hide IsItem;
    assert (before + items[..n])[|before|..|before| + n] == items[..n];
    NextIsTooDear(items, n, section);
  }

  /** What is kept stays kept when more is added. */
  lemma KeepsStays(items: seq<ContextItem>, more: seq<ContextItem>, from: nat, n: nat, left: int,
                   section: (ItemKind, seq<(string, string)>))
    requires items <= more && 0 <= left && Keeps(items, from, n, left, section)
    ensures Keeps(more, from, n, left, section)
  {
    assert more[from..from + n] == items[from..from + n];
  }

  lemma {:induction false} SectionsAreLaidOut(built: BuiltContext, budget: nat, sections: seq<seq<ContextItem>>,
                                              candidates: seq<(ItemKind, seq<(string, string)>)>)
    returns (l: Layout)
    requires built.totalTokens == Spent(built.items) <= budget && |sections| == |candidates|
    requires forall k :: 0 <= k < |sections| ==> AreItems(sections[k], candidates[k].0, candidates[k].1)
    ensures var after := AddSections(built, budget, sections);
            && built.items <= after.items && after.totalTokens == Spent(after.items) <= budget
            && IsLaidOut(after.items, |built.items|, budget, candidates, l)
            && (after.truncated <==> built.truncated || LeavesOut(candidates, l))
    decreases |sections|
  {
    hide AreItems, Keeps, AddSection, Spent;
    if sections == [] {
      l := Layout([|built.items|], []);
    } else {
      SectionKeeps(built, budget, sections[0], candidates[0]);
      var next, n := AddSection(built, budget, sections[0]), Fitting(sections[0], budget - built.totalTokens);
      var rest := SectionsAreLaidOut(next, budget, sections[1..], candidates[1..]);
      var after := AddSections(next, budget, sections[1..]);
      l := Layout([|built.items|] + rest.starts, [n] + rest.counts);
      assert after.items[..|next.items|] == next.items;
      KeepsStays(next.items, after.items, |built.items|, n, budget - Spent(next.items), candidates[0]);
      FirstLaidOut(after.items, |built.items|, budget, candidates, n, rest);
      LeavesOutMore(candidates, n, rest);
    }
  }

  lemma FirstLaidOut(items: seq<ContextItem>, base: nat, budget: nat,
                     candidates: seq<(ItemKind, seq<(string, string)>)>, n: nat, rest: Layout)
    requires candidates != [] && base + n <= |items| && Spent(items[..base + n]) <= budget
    requires Keeps(items, base, n, budget - Spent(items[..base + n]), candidates[0])
    requires IsLaidOut(items, base + n, budget, candidates[1..], rest)
    ensures IsLaidOut(items, base, budget, candidates, Layout([base] + rest.starts, [n] + rest.counts))
  {
    hide Keeps, Spent;
    var l := Layout([base] + rest.starts, [n] + rest.counts);
    forall k | 0 <= k < |candidates|
      ensures Stands(items, budget, l.starts[k], l.counts[k], l.starts[k + 1], candidates[k])
    {
      if k == 0 {
        assert l.starts[1] == base + n;
      } else {
        assert l.starts[k] == rest.starts[k - 1] && l.starts[k + 1] == rest.starts[k];
        assert l.counts[k] == rest.counts[k - 1] && candidates[k] == candidates[1..][k - 1];
      }
    }
  }

  lemma LeavesOutMore(candidates: seq<(ItemKind, seq<(string, string)>)>, n: nat, rest: Layout)
    requires candidates != [] && |rest.counts| == |candidates| - 1
    ensures LeavesOut(candidates, Layout([|candidates|] + rest.starts, [n] + rest.counts)) <==>
            n < |candidates[0].1| || LeavesOut(candidates[1..], rest)
  {
  }

  /**
   * Every context is made of the goal, the rules, the project, the files and the conversation, in this order. Each
   * section keeps a prefix: all its candidates, or those in front of the first that costs more than what is left.
   */
  lemma ContextIsLaidOut(ws: Workspace, r: BuildRequest) returns (l: Layout)
    ensures var built := BuildContext(ws, r);
            && IsLaidOut(built.items, 0, r.tokenBudget, Candidates(ws, r), l)
            && built.totalTokens == Spent(built.items) <= r.tokenBudget
            && (built.truncated <==> LeavesOut(Candidates(ws, r), l))
  {
    hide AreItems, IsLaidOut, LeavesOut, AddSections, Sections;
    SectionsAreCandidates(ws, r);
    l := SectionsAreLaidOut(EMPTY, r.tokenBudget, Sections(ws, r), Candidates(ws, r));
  }

  /** A context that is not truncated: the goal, all rules, the project if there is one, the files, the conversation. */
  lemma WholeContext(ws: Workspace, r: BuildRequest)
    requires !BuildContext(ws, r).truncated
    ensures var items, files := BuildContext(ws, r).items, ShownFiles(ws.files, r.filePaths);
            var a := 1 + |ws.rules|;
            var b := a + if ws.project.Some? then 1 else 0;
            var c := b + |files|;
            && |items| == c + |r.conversation|
            && IsItem(items[0], Goal, "goal", r.goal)
            && (forall i :: 0 <= i < |ws.rules| ==> IsItem(items[1 + i], Rule, ws.rules[i].0, ws.rules[i].1))
            && (ws.project.Some? ==> IsItem(items[a], ProjectInfo, "project", ws.project.value))
            && (forall i :: 0 <= i < |files| ==> IsItem(items[b + i], FileSnippet, files[i].0, files[i].1))
            && (forall i :: 0 <= i < |r.conversation| ==>
                              IsItem(items[c + i], Conversation, r.conversation[i].0, r.conversation[i].1))
  {
    hide BuildContext, IsItem, ShownFiles;
    FiveWholeSections(ws, r);
    var items := BuildContext(ws, r).items;
    var goal := [("goal", r.goal)];
    assert items[0 + 0] == items[0] && goal[0] == ("goal", r.goal);
    if ws.project.Some? {
      var a, project := 1 + |ws.rules|, [("project", ws.project.value)];
      assert WholeSection(items, a, a + 1, (ProjectInfo, project));
      assert items[a + 0] == items[a] && project[0] == ("project", ws.project.value);
    }
  }

  lemma FiveWholeSections(ws: Workspace, r: BuildRequest)
    requires !BuildContext(ws, r).truncated
    ensures var items, files := BuildContext(ws, r).items, ShownFiles(ws.files, r.filePaths);
            var a := 1 + |ws.rules|;
            var b := a + if ws.project.Some? then 1 else 0;
            && WholeSection(items, 0, 1, (Goal, [("goal", r.goal)]))
            && WholeSection(items, 1, a, (Rule, ws.rules))
            && WholeSection(items, a, b,
                            (ProjectInfo, if ws.project.Some? then [("project", ws.project.value)] else []))
            && WholeSection(items, b, b + |files|, (FileSnippet, files))
            && WholeSection(items, b + |files|, |items|, (Conversation, r.conversation))
  {
    hide BuildContext, WholeSection, IsLaidOut, LeavesOut, ShownFiles, AllWhole;
    var l := ContextIsLaidOut(ws, r);
    var items, candidates := BuildContext(ws, r).items, Candidates(ws, r);
    KeptWhole(items, r.tokenBudget, candidates, l);
    SectionIs(items, candidates, l, 0);
    SectionIs(items, candidates, l, 1);
    SectionIs(items, candidates, l, 2);
    SectionIs(items, candidates, l, 3);
    SectionIs(items, candidates, l, 4);
  }

  /** All candidates of a section stand from one place to the other. */
  predicate WholeSection(items: seq<ContextItem>, from: nat, to: nat, section: (ItemKind, seq<(string, string)>)) {
    && to == from + |section.1| <= |items|
    && forall i :: 0 <= i < |section.1| ==>
         IsItem(items[from + i], section.0, section.1[i].0, section.1[i].1)
  }

  ghost predicate AllWhole(items: seq<ContextItem>, candidates: seq<(ItemKind, seq<(string, string)>)>, l: Layout) {
    && |l.starts| == |candidates| + 1 && l.starts[0] == 0 && l.starts[|candidates|] == |items|
    && forall k :: 0 <= k < |candidates| ==> WholeSection(items, l.starts[k], l.starts[k + 1], candidates[k])
  }

  lemma SectionIs(items: seq<ContextItem>, candidates: seq<(ItemKind, seq<(string, string)>)>, l: Layout, k: nat)
    requires AllWhole(items, candidates, l) && k < |candidates|
    ensures |l.starts| == |candidates| + 1
    ensures WholeSection(items, l.starts[k], l.starts[k + 1], candidates[k])
    ensures l.starts[k + 1] == l.starts[k] + |candidates[k].1|
    ensures l.starts[0] == 0 && l.starts[|candidates|] == |items|
  {
    hide IsItem;
  }

  /** If nothing is left out, every section stands as a whole. */
  lemma KeptWhole(items: seq<ContextItem>, budget: nat, candidates: seq<(ItemKind, seq<(string, string)>)>, l: Layout)
    requires IsLaidOut(items, 0, budget, candidates, l) && !LeavesOut(candidates, l)
    ensures AllWhole(items, candidates, l)
  {
    hide IsItem, Spent;
    forall k | 0 <= k < |candidates| ensures WholeSection(items, l.starts[k], l.starts[k + 1], candidates[k]) {
      assert Stands(items, budget, l.starts[k], l.counts[k], l.starts[k + 1], candidates[k]);
      assert l.counts[k] == |candidates[k].1|;
      assert candidates[k].1[..l.counts[k]] == candidates[k].1;
      ItemsStand(items, l.starts[k], l.starts[k + 1], candidates[k]);
    }
  }

  lemma ItemsStand(items: seq<ContextItem>, from: nat, to: nat, section: (ItemKind, seq<(string, string)>))
    requires from <= to <= |items| && AreItems(items[from..to], section.0, section.1)
    ensures to == from + |section.1|
    ensures forall i :: 0 <= i < |section.1| ==>
                          IsItem(items[from + i], section.0, section.1[i].0, section.1[i].1)
  {
    hide IsItem;
    forall i | 0 <= i < |section.1| ensures IsItem(items[from + i], section.0, section.1[i].0, section.1[i].1) {
      assert items[from..to][i] == items[from + i];
    }
  }
}
