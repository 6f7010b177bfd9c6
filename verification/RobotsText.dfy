/** A robots.txt as it is written, and that the crawler reads back from it exactly the groups that were meant. */
module RobotsText {
  import opened Wrappers
  import opened Urls
  import opened Text
  import opened CrawlDelay

  // ---- lines ------------------------------------------------------------

  const AGENT := "user-agent"
  const DELAY := "crawl-delay"

  /** A directive in any case of letters, a colon and a value, with white space around either. */
  function Directive(a: string, word: string, b: string, value: string, c: string): string {
    a + (word + ":" + (b + value)) + c
  }

  /** How such a line comes apart. */
  lemma DirectiveParts(a: string, word: string, b: string, value: string, c: string, name: string)
    requires AllSpace(a) && AllSpace(b) && AllSpace(c) && Tight(value) && value != "" && ':' !in value
    requires SameText(word, name) && name in {AGENT, DELAY}
    ensures var line := Trim(Directive(a, word, b, value, c));
      && line == word + ":" + (b + value) && line[0] != '#'
      && Lower(line)[..|name| + 1] == name + ":"
      && SecondField(line, ':').Some? && Trim(SecondField(line, ':').value) == value
  {
    var core := word + ":" + (b + value);
    LowerIff(word, name);
    LowerIff(name, name);
    assert Lower(word) == Lower(name) == name by { NamesAreLower(name); }
    WordIsPlain(word, name);
    assert core[|core| - 1] == value[|value| - 1];
    TrimOf(a, core, c);
    assert Lower(core)[..|name| + 1] == Lower(word + ":");
    assert Lower(word + ":") == Lower(word) + ":";
    assert word + [':'] + (b + value) + "" == core;
    forall ch | ch in b
      ensures ch != ':'
    {
      assert IsSpace(ch);
    }
    SecondFieldOf(word, b + value, ':', "");
    TrimOf(b, value, "");
    assert b + value + "" == b + value;
  }

  lemma NamesAreLower(name: string)
    requires name in {AGENT, DELAY}
    ensures Lower(name) == name && ':' !in name && name[0] in {'u', 'c'}
  {
  }

  lemma WordIsPlain(word: string, name: string)
    requires SameText(word, name) && name in {AGENT, DELAY}
    ensures word != "" && ':' !in word && !IsSpace(word[0]) && word[0] != '#'
  {
    NamesAreLower(name);
    assert SameChar(word[0], name[0]);
    forall i | 0 <= i < |word|
      ensures word[i] != ':'
    {
      assert SameChar(word[i], name[i]) && name[i] in name;
    }
  }

  /** A delay is read as its number, however the directive is cased and spaced, if it fits into 64 bits. */
  lemma DelayLineIs(a: string, word: string, b: string, n: nat, c: string)
    requires AllSpace(a) && AllSpace(b) && AllSpace(c) && SameText(word, DELAY)
    ensures Classify(Directive(a, word, b, Decimal(n), c))
         == if n < 0x1_0000_0000_0000_0000 then Delay(n) else OtherRule
  {
    ParseDecimal(n);
    DirectiveParts(a, word, b, Decimal(n), c, DELAY);
    DelayReads(Directive(a, word, b, Decimal(n), c), Decimal(n));
  }

  lemma DelayReads(raw: string, value: string)
    requires var line := Trim(raw);
      && line != "" && line[0] != '#' && |line| >= |DELAY| + 1 && Lower(line)[..|DELAY| + 1] == DELAY + ":"
      && SecondField(line, ':').Some? && Trim(SecondField(line, ':').value) == value
    ensures Classify(raw) == if ParseU64(value).Some? then Delay(ParseU64(value).value) else OtherRule
  {
    var low := Lower(Trim(raw));
    assert low[0] == (DELAY + ":")[0];
    assert !StartsWith(low, "user-agent:");
    assert DELAY + ":" == "crawl-delay:";
  }

  /** An agent line names its agent, whose case does not matter. */
  lemma AgentLineIs(a: string, word: string, b: string, name: string, c: string)
    requires AllSpace(a) && AllSpace(b) && AllSpace(c) && SameText(word, AGENT)
    requires name != "" && Tight(name) && ':' !in name
    ensures Classify(Directive(a, word, b, name, c)) == Agent(Lower(name))
  {
    DirectiveParts(a, word, b, name, c, AGENT);
    assert AGENT + ":" == "user-agent:";
  }

  /** Blank lines and comments do not count. */
  lemma CommentIs(a: string, text: string)
    requires AllSpace(a)
    ensures Classify(a) == Skipped
    ensures Tight("#" + text) ==> Classify(a + ("#" + text)) == Skipped
  {
    TrimOf(a, "", "");
    assert a + "" + "" == a;
    if Tight("#" + text) {
      TrimOf(a, "#" + text, "");
      assert a + ("#" + text) + "" == a + ("#" + text);
    }
  }

  /** An agent is this crawler if it is its name in any case, between white space, before any comment. */
  ghost predicate IsThisCrawler(agent: string) {
    exists a, name, b, comment :: NamesIt(agent, a, name, b, comment)
  }

  predicate NamesIt(agent: string, a: string, name: string, b: string, comment: string) {
    && AllSpace(a) && AllSpace(b) && SameText(name, "findversecrawler") && (comment == "" || comment[0] == '#')
    && agent == a + name + b + comment
  }

  lemma ThisCrawlerIff(agent: string)
    ensures IsThisCrawler(agent) <==> Lower(Trim(Before(agent, '#'))) == "findversecrawler"
  {
    assert Lower("findversecrawler") == "findversecrawler";
    forall a, name, b, comment | NamesIt(agent, a, name, b, comment)
      ensures Lower(Trim(Before(agent, '#'))) == "findversecrawler"
    {
      NameIsRead(a, name, b, comment);
    }
    var front := Before(agent, '#');
    var rest := BeforeSplits(agent, '#');
    var a, b := TrimSplits(front);
    LowerIff(Trim(front), "findversecrawler");
    if Lower(Trim(front)) == "findversecrawler" {
      assert NamesIt(agent, a, Trim(front), b, rest);
    }
  }

  lemma NameIsRead(a: string, name: string, b: string, comment: string)
    requires AllSpace(a) && AllSpace(b) && (comment == "" || comment[0] == '#') && SameText(name, "findversecrawler")
    ensures Lower(Trim(Before(a + name + b + comment, '#'))) == "findversecrawler"
  {
    LowerIff(name, "findversecrawler");
    assert Lower("findversecrawler") == "findversecrawler";
    forall i | 0 <= i < |name|
      ensures name[i] != '#' && !IsSpace(name[i])
    {
      assert SameChar(name[i], "findversecrawler"[i]) && 'a' <= "findversecrawler"[i] <= 'z';
    }
    forall ch | ch in a + name + b
      ensures ch != '#'
    {
      assert ch in a || ch in name || ch in b;
    }
    BeforeOf(a + name + b, '#', comment);
    TrimOf(a, name, b);
  }

  /** A group that names this crawler has priority 2, another one that names everybody 1, and the rest none. */
  lemma PriorityIff(agents: seq<string>)
    ensures Priority(agents) == 2 <==> exists agent <- agents :: IsThisCrawler(agent)
    ensures Priority(agents) == 1 <==> "*" in agents && !exists agent <- agents :: IsThisCrawler(agent)
    ensures Priority(agents) <= 2
  {
    forall agent | agent in agents
      ensures IsThisCrawler(agent) <==> Lower(Trim(Before(agent, '#'))) == "findversecrawler"
    {
      ThisCrawlerIff(agent);
    }
  }

  // ---- files ------------------------------------------------------------

  predicate NameOk(name: string) {
    name != "" && Tight(name) && ':' !in name && Lower(name) == name
  }

  predicate GroupOk(g: Group) {
    && g.agents != [] && (forall name <- g.agents :: NameOk(name))
    && (g.delay.Some? ==> g.delay.value < 0x1_0000_0000_0000_0000)
  }

  function PrintRule(g: Group): string {
    if g.delay.Some? then "Crawl-delay: " + Decimal(g.delay.value) else "Disallow: /"
  }

  function PrintAgents(names: seq<string>): seq<string> {
    seq(|names|, i requires 0 <= i < |names| => "User-agent: " + names[i])
  }

  /** A file with one rule a group. */
  function Print(groups: seq<Group>): seq<string> {
    if groups == [] then []
    else PrintAgents(groups[0].agents) + [PrintRule(groups[0])] + Print(groups[1..])
  }

  function AgentLines(names: seq<string>): seq<Line> {
    seq(|names|, i requires 0 <= i < |names| => Agent(names[i]))
  }

  function RuleOf(g: Group): Line {
    if g.delay.Some? then Delay(g.delay.value) else OtherRule
  }

  lemma RuleReads(g: Group)
    requires GroupOk(g)
    ensures Classify(PrintRule(g)) == RuleOf(g)
  {
    if g.delay.Some? {
      DelayLineIs("", "Crawl-delay", " ", g.delay.value, "");
      PrintedDelay(Decimal(g.delay.value));
    } else {
      OtherReads("Disallow: /");
    }
  }

  lemma PrintedDelay(value: string)
    ensures Directive("", "Crawl-delay", " ", value, "") == "Crawl-delay: " + value
  {
  }

  /** A line that begins with another letter is another rule. */
  lemma OtherReads(line: string)
    requires line != "" && Tight(line) && line[0] !in {'#', 'u', 'U', 'c', 'C'}
    ensures Classify(line) == OtherRule
  {
    TrimOf("", line, "");
    assert "" + line + "" == line;
    NoDirective(Lower(line));
  }

  lemma NoDirective(low: string)
    requires low != "" && low[0] !in {'u', 'c'}
    ensures !StartsWith(low, "user-agent:") && !StartsWith(low, "crawl-delay:")
  {
  }

  lemma PrintedAgent(name: string)
    ensures Directive("", "User-agent", " ", name, "") == "User-agent: " + name
  {
  }

  predicate ReadsAs(raw: string, l: Line) {
    Classify(raw) == l && !l.Skipped?
  }

  predicate Reads(raws: seq<string>, lines: seq<Line>) {
    |raws| == |lines| && forall i :: 0 <= i < |raws| ==> ReadsAs(raws[i], lines[i])
  }

  lemma RelevantOne(raw: string, l: Line, rest: seq<string>)
    requires ReadsAs(raw, l)
    ensures Relevant([raw] + rest) == [l] + Relevant(rest)
  {
    assert ([raw] + rest)[1..] == rest;
  }

  lemma {:induction false} RelevantFront(raws: seq<string>, lines: seq<Line>, rest: seq<string>)
    requires Reads(raws, lines)
    ensures Relevant(raws + rest) == lines + Relevant(rest)
    decreases |raws|
  {
    if raws == [] {
      assert raws + rest == rest;
    } else {
      assert raws + rest == [raws[0]] + (raws[1..] + rest);
      assert ReadsAs(raws[0], lines[0]);
      RelevantOne(raws[0], lines[0], raws[1..] + rest);
      RelevantFront(raws[1..], lines[1..], rest);
    }
  }

  lemma AgentReads(name: string)
    requires NameOk(name)
    ensures Classify("User-agent: " + name) == Agent(name)
  {
    AgentLineIs("", "User-agent", " ", name, "");
    PrintedAgent(name);
  }

  lemma AgentsRead(names: seq<string>)
    requires forall name <- names :: NameOk(name)
    ensures Reads(PrintAgents(names), AgentLines(names))
  {
    forall i | 0 <= i < |names|
      ensures ReadsAs(PrintAgents(names)[i], Agent(names[i]))
    {
      AgentReads(names[i]);
    }
  }

  /** The lines that count of a written file. */
  function Lines(groups: seq<Group>): seq<Line> {
    if groups == [] then [] else AgentLines(groups[0].agents) + ([RuleOf(groups[0])] + Lines(groups[1..]))
  }

  lemma {:induction false} PrintReads(groups: seq<Group>)
    requires forall g <- groups :: GroupOk(g)
    ensures Relevant(Print(groups)) == Lines(groups)
  {
    if groups != [] {
      var rest := [PrintRule(groups[0])] + Print(groups[1..]);
      assert Print(groups) == PrintAgents(groups[0].agents) + rest;
      assert groups[0] in groups;
      AgentsRead(groups[0].agents);
      RelevantFront(PrintAgents(groups[0].agents), AgentLines(groups[0].agents), rest);
      RuleReads(groups[0]);
      RelevantFront([PrintRule(groups[0])], [RuleOf(groups[0])], Print(groups[1..]));
      PrintReads(groups[1..]);
    }
  }

  lemma {:induction false} AgentRunOf(names: seq<string>, rest: seq<Line>)
    requires rest != [] ==> !rest[0].Agent?
    ensures AgentRun(AgentLines(names) + rest) == AgentLines(names) && Names(AgentLines(names)) == names
    decreases |names|
  {
    var all := AgentLines(names) + rest;
    if names == [] {
      assert all == rest;
    } else {
      assert all[1..] == AgentLines(names[1..]) + rest;
      AgentRunOf(names[1..], rest);
      assert AgentLines(names) == [Agent(names[0])] + AgentLines(names[1..]);
    }
  }

  /** Whatever groups are written, each with an agent and one rule, are read back as they are. */
  lemma {:induction false} GroupsReadBack(groups: seq<Group>)
    requires forall g <- groups :: GroupOk(g)
    ensures Groups(Relevant(Print(groups))) == groups
  {
    PrintReads(groups);
    LinesGroup(groups);
  }

  lemma {:induction false} LinesGroup(groups: seq<Group>)
    requires forall g <- groups :: GroupOk(g)
    ensures Groups(Lines(groups)) == groups
  {
    if groups != [] {
      var g, later := groups[0], Lines(groups[1..]);
      var rest := [RuleOf(g)] + later;
      AgentRunOf(g.agents, rest);
      assert Lines(groups)[|g.agents|..] == rest;
      OneRule(groups);
      LinesGroup(groups[1..]);
      assert rest[1..] == later;
    }
  }

  /** The rule of the first group is followed by an agent, or by nothing. */
  lemma OneRule(groups: seq<Group>)
    requires groups != [] && forall g <- groups :: GroupOk(g)
    ensures var rest := [RuleOf(groups[0])] + Lines(groups[1..]);
      RuleRun(rest) == [RuleOf(groups[0])] && LastDelay(RuleRun(rest)) == groups[0].delay
  {
    var later := Lines(groups[1..]);
    var rest := [RuleOf(groups[0])] + later;
    assert rest[1..] == later;
    if groups[1..] != [] {
      assert groups[1] in groups && later[0] == AgentLines(groups[1].agents)[0];
    }
    assert RuleRun(later) == [];
    assert [RuleOf(groups[0])][..0] == [];
  }

  /** The last delay of a run is one that no delay follows. */
  lemma {:induction false} LastDelayIff(run: seq<Line>, seconds: nat)
    ensures LastDelay(run) == Some(seconds) <==> exists i :: IsLastDelay(run, i) && run[i] == Delay(seconds)
    decreases |run|
  {
    if run != [] && !run[|run| - 1].Delay? {
      var init := run[..|run| - 1];
      LastDelayIff(init, seconds);
      assert forall i :: IsLastDelay(run, i) <==> IsLastDelay(init, i);
    } else if run != [] {
      assert IsLastDelay(run, |run| - 1);
    }
  }

  predicate IsLastDelay(run: seq<Line>, i: int) {
    0 <= i < |run| && run[i].Delay? && forall k :: i < k < |run| ==> !run[k].Delay?
  }
}
