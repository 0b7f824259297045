/** What goes into the model's context: items are added section by section while the token budget lasts. */
module ContextBuilders {
  import opened Wrappers

  datatype ItemKind = Goal | Rule | FileSnippet | Conversation | ProjectInfo

  datatype ContextItem = ContextItem(kind: ItemKind, name: string, content: string, tokens: U32)

  /** What the builder reads from disk: rule files, the detected project, regular files by relative path. */
  datatype Workspace = Workspace(rules: seq<(string, string)>, project: Option<string>, files: map<string, string>)

  datatype BuildRequest = BuildRequest(goal: string, conversation: seq<(string, string)>, filePaths: seq<string>,
                                       tokenBudget: U64)

  datatype BuiltContext = BuiltContext(items: seq<ContextItem>, totalTokens: nat, truncated: bool)

  /** Four characters a token, rounded up, in 32 bits. */
  function EstimateTokens(text: string): U32 {
    ((|text| + 3) / 4) % 0x1_0000_0000
  }

  const MAX_SNIPPET := 8000

  function ReadSnippet(content: string): string {
    if MAX_SNIPPET < |content| then content[..MAX_SNIPPET] + "\n... [truncated]" else content
  }

  function Item(kind: ItemKind, name: string, content: string): ContextItem {
    ContextItem(kind, name, content, EstimateTokens(content))
  }

  // ----- the candidates of each section

  function RuleItems(rules: seq<(string, string)>): seq<ContextItem> {
    seq(|rules|, i requires 0 <= i < |rules| => Item(Rule, rules[i].0, rules[i].1))
  }

  function ProjectItems(project: Option<string>): seq<ContextItem> {
    if project.Some? then [Item(ProjectInfo, "project", project.value)] else []
  }

  /** Paths that name no regular file are passed over. */
  function FileItems(files: map<string, string>, paths: seq<string>): seq<ContextItem> {
    if paths == [] then []
    else
      (if paths[0] in files then [Item(FileSnippet, paths[0], ReadSnippet(files[paths[0]]))] else [])
      + FileItems(files, paths[1..])
  }

  function ConversationItems(conversation: seq<(string, string)>): seq<ContextItem> {
    seq(|conversation|, i requires 0 <= i < |conversation| => Item(Conversation, conversation[i].0, conversation[i].1))
  }

  function FixedSections(ws: Workspace, goal: string, filePaths: seq<string>): seq<seq<ContextItem>> {
    [[Item(Goal, "goal", goal)], RuleItems(ws.rules), ProjectItems(ws.project), FileItems(ws.files, filePaths)]
  }

  /** The goal, the rules, the project, the files, the conversation: in this order. */
  function Sections(ws: Workspace, r: BuildRequest): seq<seq<ContextItem>> {
    FixedSections(ws, r.goal, r.filePaths) + [ConversationItems(r.conversation)]
  }

  function Flatten(sections: seq<seq<ContextItem>>): seq<ContextItem> {
    if sections == [] then [] else sections[0] + Flatten(sections[1..])
  }

  // ----- greedy filling

  function Tokens(items: seq<ContextItem>): nat {
    if items == [] then 0 else items[0].tokens + Tokens(items[1..])
  }

  /** How many of the candidates fit, taking them in order and stopping at the first that does not. */
  function Fitting(items: seq<ContextItem>, budget: nat): (n: nat)
    ensures n <= |items| && Tokens(items[..n]) <= budget
    ensures n < |items| ==> budget < Tokens(items[..n]) + items[n].tokens
  {
    if items == [] || budget < items[0].tokens then 0
    else
      var n := Fitting(items[1..], budget - items[0].tokens);
      assert items[..n + 1][1..] == items[1..][..n];
      n + 1
  }

  /** One section: the candidates that fit are appended; if one did not, the context is truncated. */
  function AddSection(built: BuiltContext, budget: nat, candidates: seq<ContextItem>): BuiltContext
    requires built.totalTokens <= budget
  {
    var n := Fitting(candidates, budget - built.totalTokens);
    BuiltContext(built.items + candidates[..n], built.totalTokens + Tokens(candidates[..n]),
                 built.truncated || n < |candidates|)
  }

  function AddSections(built: BuiltContext, budget: nat, sections: seq<seq<ContextItem>>): BuiltContext
    requires built.totalTokens <= budget
    decreases |sections|
  {
    if sections == [] then built else AddSections(AddSection(built, budget, sections[0]), budget, sections[1..])
  }

  const EMPTY := BuiltContext([], 0, false)

  function BuildContext(ws: Workspace, r: BuildRequest): BuiltContext {
    AddSections(EMPTY, r.tokenBudget, Sections(ws, r))
  }

  // ----- accounting

  lemma {:induction false} TokensOfConcat(a: seq<ContextItem>, b: seq<ContextItem>)
    ensures Tokens(a + b) == Tokens(a) + Tokens(b)
    decreases |a|
  {
    if a == [] {
      assert a + b == b;
    } else {
      assert (a + b)[1..] == a[1..] + b;
      TokensOfConcat(a[1..], b);
    }
  }

  /** The items are some of the candidates, in their order. */
  predicate IsSelection(items: seq<ContextItem>, candidates: seq<ContextItem>)
    decreases |candidates|
  {
    if candidates == [] then items == []
    else
      || (items != [] && items[0] == candidates[0] && IsSelection(items[1..], candidates[1..]))
      || IsSelection(items, candidates[1..])
  }

  lemma {:induction false} PrefixIsSelection(candidates: seq<ContextItem>, n: nat)
    requires n <= |candidates|
    ensures IsSelection(candidates[..n], candidates)
    decreases |candidates|
  {
    if candidates != [] {
      if n == 0 {
        PrefixIsSelection(candidates[1..], 0);
      } else {
        PrefixIsSelection(candidates[1..], n - 1);
        assert candidates[..n][1..] == candidates[1..][..n - 1];
      }
    }
  }

  lemma {:induction false} SelectionsConcat(a: seq<ContextItem>, b: seq<ContextItem>, c: seq<ContextItem>,
                                            d: seq<ContextItem>)
    requires IsSelection(a, b) && IsSelection(c, d)
    ensures IsSelection(a + c, b + d)
    decreases |b|
  {
    if b == [] {
      assert a + c == c && b + d == d;
    } else {
      assert (b + d)[1..] == b[1..] + d;
      if a != [] && a[0] == b[0] && IsSelection(a[1..], b[1..]) {
        SelectionsConcat(a[1..], b[1..], c, d);
        assert (a + c)[1..] == a[1..] + c;
      } else {
        SelectionsConcat(a, b[1..], c, d);
      }
    }
  }

  /**
   * The total is the sum of the items' estimates and within the budget; truncated says that a candidate was left
   * out.
   */
  ghost predicate Accounted(built: BuiltContext, budget: nat, candidates: seq<ContextItem>) {
    && built.totalTokens == Tokens(built.items) <= budget
    && IsSelection(built.items, candidates)
    && |built.items| <= |candidates|
    && (built.truncated <==> |built.items| < |candidates|)
    && (!built.truncated ==> built.items == candidates)
  }

  lemma SectionAccounted(built: BuiltContext, budget: nat, before: seq<ContextItem>, candidates: seq<ContextItem>)
    requires Accounted(built, budget, before)
    ensures Accounted(AddSection(built, budget, candidates), budget, before + candidates)
  {
    hide IsSelection;
    var n := Fitting(candidates, budget - built.totalTokens);
    TokensOfConcat(built.items, candidates[..n]);
    PrefixIsSelection(candidates, n);
    SelectionsConcat(built.items, before, candidates[..n], candidates);
    if n == |candidates| {
      assert candidates[..n] == candidates;
    }
  }

  lemma {:induction false} SectionsAccounted(built: BuiltContext, budget: nat, before: seq<ContextItem>,
                                             sections: seq<seq<ContextItem>>)
    requires Accounted(built, budget, before)
    ensures Accounted(AddSections(built, budget, sections), budget, before + Flatten(sections))
    decreases |sections|
  {
    if sections == [] {
      assert before + [] == before;
    } else {
      SectionAccounted(built, budget, before, sections[0]);
      SectionsAccounted(AddSection(built, budget, sections[0]), budget, before + sections[0], sections[1..]);
      assert before + (sections[0] + Flatten(sections[1..])) == before + sections[0] + Flatten(sections[1..]);
    }
  }

  /** Total, budget and truncation of every built context. */
  lemma BuildIsAccounted(ws: Workspace, r: BuildRequest)
    ensures Accounted(BuildContext(ws, r), r.tokenBudget, Flatten(Sections(ws, r)))
  {
    SectionsAccounted(EMPTY, r.tokenBudget, [], Sections(ws, r));
    assert [] + Flatten(Sections(ws, r)) == Flatten(Sections(ws, r));
  }

  // ----- size of the text

  function Characters(items: seq<ContextItem>): nat {
    if items == [] then 0 else |items[0].content| + Characters(items[1..])
  }

  /** The estimate covers the text exactly when the text is short enough for 32 bits. */
  lemma EstimateCovers(text: string)
    ensures |text| <= 4 * EstimateTokens(text) <==> (|text| + 3) / 4 < 0x1_0000_0000
  {
    var n := (|text| + 3) / 4;
    assert |text| <= 4 * n <= |text| + 3;
  }

  predicate Estimated(items: seq<ContextItem>) {
    forall i :: 0 <= i < |items| ==> items[i].tokens == EstimateTokens(items[i].content)
  }

  /** No text is so long that its estimate wraps around. */
  predicate Short(items: seq<ContextItem>) {
    forall i :: 0 <= i < |items| ==> |items[i].content| < 0x4_0000_0000 - 3
  }

  /** What one text is short of its estimate. */
  lemma EstimateIsClose(text: string)
    ensures 4 * EstimateTokens(text) <= |text| + 3
    ensures |text| < 0x4_0000_0000 - 3 ==> |text| <= 4 * EstimateTokens(text)
    ensures 0x4_0000_0000 - 3 <= |text| ==> 4 * EstimateTokens(text) + 0x4_0000_0000 <= |text| + 3
  {
    EstimateCovers(text);
  }

  lemma {:induction false} CharactersCovered(items: seq<ContextItem>)
    requires Estimated(items)
    ensures 4 * Tokens(items) <= Characters(items) + 3 * |items|
    ensures if Short(items) then Characters(items) <= 4 * Tokens(items)
            else 4 * Tokens(items) + 0x4_0000_0000 <= Characters(items) + 3 * |items|
    decreases |items|
  {
    hide EstimateTokens;
    if items != [] {
      EstimateIsClose(items[0].content);
      CharactersCovered(items[1..]);
      assert items == [items[0]] + items[1..];
    }
  }

  lemma {:induction false} FilesAreEstimated(files: map<string, string>, paths: seq<string>)
    ensures Estimated(FileItems(files, paths))
  {
    if paths != [] {
      FilesAreEstimated(files, paths[1..]);
    }
  }

  lemma SectionsAreEstimated(ws: Workspace, r: BuildRequest)
    ensures forall i :: 0 <= i < |Sections(ws, r)| ==> Estimated(Sections(ws, r)[i])
  {
    FilesAreEstimated(ws.files, r.filePaths);
  }

  lemma {:induction false} SectionsKeepEstimates(built: BuiltContext, budget: nat, sections: seq<seq<ContextItem>>)
    requires built.totalTokens <= budget && Estimated(built.items)
    requires forall i :: 0 <= i < |sections| ==> Estimated(sections[i])
    ensures Estimated(AddSections(built, budget, sections).items)
    decreases |sections|
  {
    hide EstimateTokens;
    if sections != [] {
      SectionsKeepEstimates(AddSection(built, budget, sections[0]), budget, sections[1..]);
    }
  }

  /**
   * If no chosen text is too long for its estimate, the context holds at most four characters for every counted token.
   * With less than 2^34 / 3 items it does so only then.
   */
  lemma ContextIsShort(ws: Workspace, r: BuildRequest)
    ensures var built := BuildContext(ws, r);
            && (Short(built.items) ==> Characters(built.items) <= 4 * built.totalTokens)
            && (3 * |built.items| < 0x4_0000_0000 ==>
                  (Characters(built.items) <= 4 * built.totalTokens <==> Short(built.items)))
  {
    hide Sections, AddSections;
    SectionsAreEstimated(ws, r);
    SectionsKeepEstimates(EMPTY, r.tokenBudget, Sections(ws, r));
    CharactersCovered(BuildContext(ws, r).items);
    BuildIsAccounted(ws, r);
  }

  // ----- growth

  lemma {:induction false} FittingMore(items: seq<ContextItem>, more: seq<ContextItem>, budget: nat)
    ensures Fitting(items, budget) <= Fitting(items + more, budget)
    decreases |items|
  {
    if items == [] || budget < items[0].tokens {
      assert items == [] ==> Fitting(items, budget) == 0;
    } else {
      assert (items + more)[1..] == items[1..] + more;
      FittingMore(items[1..], more, budget - items[0].tokens);
    }
  }

  lemma {:induction false} SectionsSplit(built: BuiltContext, budget: nat, sections: seq<seq<ContextItem>>,
                                         last: seq<ContextItem>)
    requires built.totalTokens <= budget
    ensures AddSections(built, budget, sections).totalTokens <= budget
    ensures AddSections(built, budget, sections + [last]) ==
            AddSection(AddSections(built, budget, sections), budget, last)
    decreases |sections|
  {
    if sections == [] {
      assert sections + [last] == [last];
    } else {
      assert (sections + [last])[1..] == sections[1..] + [last];
      SectionsSplit(AddSection(built, budget, sections[0]), budget, sections[1..], last);
    }
  }

  lemma SectionGrows(built: BuiltContext, budget: nat, items: seq<ContextItem>, more: seq<ContextItem>)
    requires built.totalTokens <= budget
    ensures AddSection(built, budget, items).items <= AddSection(built, budget, items + more).items
  {
    var room := budget - built.totalTokens;
    FittingMore(items, more, room);
    var n, n' := Fitting(items, room), Fitting(items + more, room);
    assert (items + more)[..n'][..n] == items[..n];
  }

  /** Appending to the conversation only extends the context. */
  lemma ContextGrows(ws: Workspace, r: BuildRequest, more: seq<(string, string)>)
    ensures BuildContext(ws, r).items <= BuildContext(ws, r.(conversation := r.conversation + more)).items
  {
    hide AddSection, FixedSections;
    var front := FixedSections(ws, r.goal, r.filePaths);
    var before, added := ConversationItems(r.conversation), ConversationItems(more);
    assert ConversationItems(r.conversation + more) == before + added;
    SectionsSplit(EMPTY, r.tokenBudget, front, before);
    SectionsSplit(EMPTY, r.tokenBudget, front, before + added);
    SectionGrows(AddSections(EMPTY, r.tokenBudget, front), r.tokenBudget, before, added);
  }

  // ----- the builder as it runs

  /** The context under construction, with the budget that is left: what the add_item closure updates. */
  class Assembly {
    var items: seq<ContextItem>
    var totalTokens: nat
    var truncated: bool
    var budget: nat

    constructor (tokenBudget: nat)
      ensures items == [] && totalTokens == 0 && !truncated && budget == tokenBudget
    {
      items, totalTokens, truncated, budget := [], 0, false, tokenBudget;
    }

    function Contents(): BuiltContext
      reads this
    {
      BuiltContext(items, totalTokens, truncated)
    }

    /** add_item */
    method AddItem(item: ContextItem) returns (added: bool)
      modifies this
      ensures added == (item.tokens <= old(budget))
      ensures Contents() ==
              if added then BuiltContext(old(items) + [item], old(totalTokens) + item.tokens, old(truncated))
              else old(Contents()).(truncated := true)
      ensures budget == if added then old(budget) - item.tokens else old(budget)
    {
      if budget < item.tokens {
        truncated := true;
        return false;
      }
      budget := budget - item.tokens;
      totalTokens := totalTokens + item.tokens;
      items := items + [item];
      return true;
    }

    /** The loop of a section: stop at the first item that does not fit. */
    method AddItems(candidates: seq<ContextItem>)
      modifies this
      ensures Contents() == AddSection(old(Contents()), old(totalTokens) + old(budget), candidates)
      ensures totalTokens + budget == old(totalTokens) + old(budget)
    {
      hide Fitting;
      var k := 0;
      while k < |candidates|
        invariant 0 <= k <= Fitting(candidates, old(budget))
        invariant items == old(items) + candidates[..k] && truncated == old(truncated)
        invariant totalTokens == old(totalTokens) + Tokens(candidates[..k])
        invariant totalTokens + budget == old(totalTokens) + old(budget)
      {
        TokensOfNext(candidates, k);
        FittingStep(candidates, old(budget), k);
        var added := AddItem(candidates[k]);
        if !added {
          return;
        }
        k := k + 1;
      }
      assert candidates[..k] == candidates;
    }
  }

  lemma TokensOfNext(items: seq<ContextItem>, k: nat)
    requires k < |items|
    ensures items[..k + 1] == items[..k] + [items[k]]
    ensures Tokens(items[..k + 1]) == Tokens(items[..k]) + items[k].tokens
  {
    assert items[..k + 1] == items[..k] + [items[k]];
    TokensOfConcat(items[..k], [items[k]]);
  }

  lemma {:induction false} TokensOfPrefix(items: seq<ContextItem>, k: nat, n: nat)
    requires k <= n <= |items|
    ensures Tokens(items[..k]) <= Tokens(items[..n])
  {
    assert items[..n] == items[..k] + items[k..n];
    TokensOfConcat(items[..k], items[k..n]);
  }

  /** The item behind a fitting prefix fits exactly when the prefix is not yet all that fits. */
  lemma FittingStep(items: seq<ContextItem>, budget: nat, k: nat)
    requires k <= Fitting(items, budget) && k < |items|
    ensures Tokens(items[..k]) + items[k].tokens <= budget <==> k < Fitting(items, budget)
  {
    var n := Fitting(items, budget);
    if k < n {
      assert items[..k + 1] == items[..k] + [items[k]];
      TokensOfConcat(items[..k], [items[k]]);
      TokensOfPrefix(items, k + 1, n);
    }
  }

  class ContextBuilder {
    const workspace: Workspace

    constructor (workspace: Workspace)
      ensures this.workspace == workspace
    {
      this.workspace := workspace;
    }

    method Build(request: BuildRequest) returns (built: BuiltContext)
      ensures built == BuildContext(workspace, request)
    {
      hide AddSection, RuleItems, ProjectItems, FileItems, ConversationItems;
      ghost var sections := Sections(workspace, request);
      var a := new Assembly(request.tokenBudget);
      a.AddItems([Item(Goal, "goal", request.goal)]);
      a.AddItems(RuleItems(workspace.rules));
      a.AddItems(ProjectItems(workspace.project));
      a.AddItems(FileItems(workspace.files, request.filePaths));
      a.AddItems(ConversationItems(request.conversation));
      built := a.Contents();
      FiveSections(EMPTY, request.tokenBudget, sections);
    }
  }

  lemma FiveSections(built: BuiltContext, budget: nat, sections: seq<seq<ContextItem>>)
    requires |sections| == 5 && built.totalTokens <= budget
    ensures var b1 := AddSection(built, budget, sections[0]);
            var b2 := AddSection(b1, budget, sections[1]);
            var b3 := AddSection(b2, budget, sections[2]);
            var b4 := AddSection(b3, budget, sections[3]);
            AddSections(built, budget, sections) == AddSection(b4, budget, sections[4])
  {
    hide AddSection;
    var s1, s2, s3, s4 := sections[..1], sections[..2], sections[..3], sections[..4];
    assert AddSections(built, budget, []) == built;
    SectionsSplit(built, budget, [], sections[0]);
    SectionsSplit(built, budget, s1, sections[1]);
    SectionsSplit(built, budget, s2, sections[2]);
    SectionsSplit(built, budget, s3, sections[3]);
    SectionsSplit(built, budget, s4, sections[4]);
    assert s1 == [] + [sections[0]] && s2 == s1 + [sections[1]] && s3 == s2 + [sections[2]];
    assert s4 == s3 + [sections[3]] && sections == s4 + [sections[4]];
  }
}
