/** The Crawl-delay of a robots.txt, found in one pass over its lines. */
module CrawlDelay {
  import opened Wrappers
  import opened Urls
  import opened Text

  datatype Line = Skipped | Agent(name: string) | Delay(seconds: nat) | OtherRule

  /** How one line of the file reads. */
  function Classify(raw: string): Line {
    var line := Trim(raw);
    if line == "" || line[0] == '#' then Skipped
    else if StartsWith(Lower(line), "user-agent:") then
      match SecondField(line, ':')
      case Some(name) => Agent(Lower(Trim(name)))
      case None => OtherRule
    else if StartsWith(Lower(line), "crawl-delay:") then
      match SecondField(line, ':')
      case Some(value) => if ParseU64(Trim(value)).Some? then Delay(ParseU64(Trim(value)).value) else OtherRule
      case None => OtherRule
    else OtherRule
  }

  /** A line that starts with the directive has a colon, so its agent is never missing. */
  lemma AgentLineHasField(line: string)
    requires StartsWith(Lower(line), "user-agent:")
    ensures SecondField(line, ':').Some?
  {
    assert Lower(line)[10] == ':';
    assert LowerChar(line[10]) == ':' && line[10] == ':';
    SeparatorFound(line, ':', 10);
  }

  lemma {:induction false} SeparatorFound(s: string, sep: char, at: nat)
    requires at < |s| && s[at] == sep
    ensures |Before(s, sep)| <= at
  {
    if s[0] != sep {
      SeparatorFound(s[1..], sep, at - 1);
    }
  }

  // ---- the two-phase reading --------------------------------------------

  /** A group of rules: the agents named together, and the last delay given for them. */
  datatype Group = Group(agents: seq<string>, delay: Option<nat>)

  /** First phase: the lines that count. */
  function Relevant(raws: seq<string>): seq<Line> {
    if raws == [] then []
    else (if Classify(raws[0]).Skipped? then [] else [Classify(raws[0])]) + Relevant(raws[1..])
  }

  /** The agent lines a text starts with. */
  function AgentRun(lines: seq<Line>): (run: seq<Line>)
    ensures run <= lines
    ensures forall l <- run :: l.Agent?
    ensures |run| < |lines| ==> !lines[|run|].Agent?
  {
    if lines != [] && lines[0].Agent? then [lines[0]] + AgentRun(lines[1..]) else []
  }

  /** The rule lines a text starts with. */
  function RuleRun(lines: seq<Line>): (run: seq<Line>)
    ensures run <= lines
    ensures forall l <- run :: !l.Agent?
    ensures |run| < |lines| ==> lines[|run|].Agent?
  {
    if lines != [] && !lines[0].Agent? then [lines[0]] + RuleRun(lines[1..]) else []
  }

  function Names(run: seq<Line>): seq<string>
    requires forall l <- run :: l.Agent?
  {
    seq(|run|, i requires 0 <= i < |run| => run[i].name)
  }

  function LastDelay(run: seq<Line>): Option<nat> {
    if run == [] then None
    else if run[|run| - 1].Delay? then Some(run[|run| - 1].seconds)
    else LastDelay(run[..|run| - 1])
  }

  /** Each group is a longest run of agent lines with the longest run of rule lines after it. */
  function Groups(lines: seq<Line>): seq<Group>
    decreases |lines|
  {
    if lines == [] then []
    else
      var agents := AgentRun(lines);
      var rest := lines[|agents|..];
      var rules := RuleRun(rest);
      assert agents == [] ==> rest == lines && rules != [];
      [Group(Names(agents), LastDelay(rules))] + Groups(rest[|rules|..])
  }

  /** 2 for a group that names this crawler, 1 for one that names everybody, 0 for the rest. */
  function Priority(agents: seq<string>): nat {
    if exists a <- agents :: Lower(Trim(Before(a, '#'))) == "findversecrawler" then 2
    else if "*" in agents then 1
    else 0
  }

  predicate Bears(g: Group) {
    g.delay.Some? && Priority(g.agents) > 0
  }

  /** Second phase: the answer is the delay of the first of the delay-bearing groups of highest priority. */
  ghost predicate IsAnswer(groups: seq<Group>, answer: Option<nat>) {
    match answer
    case None => forall g <- groups :: !Bears(g)
    case Some(delay) => exists i :: IsWinner(groups, i) && groups[i].delay == Some(delay)
  }

  ghost predicate IsWinner(groups: seq<Group>, i: int) {
    && 0 <= i < |groups| && Bears(groups[i])
    && forall k :: 0 <= k < |groups| && Bears(groups[k]) ==>
         Priority(groups[k].agents) <= Priority(groups[i].agents)
         && (Priority(groups[k].agents) == Priority(groups[i].agents) ==> i <= k)
  }

  /** There is only one answer. */
  lemma AnswerUnique(groups: seq<Group>, a: Option<nat>, b: Option<nat>)
    requires IsAnswer(groups, a) && IsAnswer(groups, b)
    ensures a == b
  {
    if a.Some? && b.Some? {
      var i :| IsWinner(groups, i) && groups[i].delay == Some(a.value);
      var k :| IsWinner(groups, k) && groups[k].delay == Some(b.value);
      assert i == k;
    }
  }

  // ---- keeping the best group so far ------------------------------------

  /** What the pass remembers after one more group. */
  function Better(best: Option<(nat, nat)>, g: Group): Option<(nat, nat)> {
    if Bears(g) && (best.None? || Priority(g.agents) > best.value.0) then Some((Priority(g.agents), g.delay.value))
        else best
  }

  function Best(best: Option<(nat, nat)>, groups: seq<Group>): Option<(nat, nat)> {
    if groups == [] then best else Better(Best(best, groups[..|groups| - 1]), groups[|groups| - 1])
  }

  function DelayOf(best: Option<(nat, nat)>): Option<nat> {
    match best
    case None => None
    case Some(pair) => Some(pair.1)
  }

  lemma {:induction false} BestIsAnswer(groups: seq<Group>)
    ensures IsAnswer(groups, DelayOf(Best(None, groups)))
    ensures Best(None, groups).Some? ==> exists i ::
        IsWinner(groups, i) && groups[i].delay == Some(Best(None, groups).value.1)
                                                  && Priority(groups[i].agents) == Best(None, groups).value.0
  {
    if groups != [] {
      var init, last := groups[..|groups| - 1], groups[|groups| - 1];
      BestIsAnswer(init);
      var before := Best(None, init);
      if Better(before, last) != before {
        assert IsWinner(groups, |groups| - 1) by {
          LastWins(groups, before);
        }
      } else if before.Some? {
        var i :| IsWinner(init, i) && init[i].delay == Some(before.value.1)
            && Priority(init[i].agents) == before.value.0;
        assert IsWinner(groups, i);
      }
    }
  }

  lemma LastWins(groups: seq<Group>, before: Option<(nat, nat)>)
    requires groups != [] && Bears(groups[|groups| - 1])
    requires before.None? ==> forall g <- groups[..|groups| - 1] :: !Bears(g)
    requires before.Some? ==> Priority(groups[|groups| - 1].agents) > before.value.0
    requires before.Some? ==> exists i ::
        IsWinner(groups[..|groups| - 1], i) && Priority(groups[i].agents) == before.value.0
    ensures IsWinner(groups, |groups| - 1)
  {
    var init := groups[..|groups| - 1];
    forall k | 0 <= k < |groups| - 1 && Bears(groups[k])
      ensures Priority(groups[k].agents) < Priority(groups[|groups| - 1].agents)
    {
      assert init[k] == groups[k] && init[k] in init;
    }
  }

  lemma {:induction false} BestCons(best: Option<(nat, nat)>, g: Group, rest: seq<Group>)
    ensures Best(best, [g] + rest) == Best(Better(best, g), rest)
    decreases |rest|
  {
    if rest == [] {
      assert [g] + rest == [g] && [g][..0] == [];
      assert Best(best, [g][..0]) == best;
    } else {
      assert ([g] + rest)[..|rest|] == [g] + rest[..|rest| - 1];
      BestCons(best, g, rest[..|rest| - 1]);
    }
  }

  // ---- the pass ---------------------------------------------------------

  /** The groups of a text that starts inside the rules of a group. */
  function RuleGroups(agents: seq<string>, delay: Option<nat>, rest: seq<Line>): seq<Group> {
    var rules := RuleRun(rest);
    [Group(agents, if LastDelay(rules).Some? then LastDelay(rules) else delay)] + Groups(rest[|rules|..])
  }

  /** The groups still to come when a group is open and `rest` is unread. While `inAgents`, the last line read was an
      agent, so more agents may join the open group. */
  function OpenGroups(agents: seq<string>, delay: Option<nat>, inAgents: bool, rest: seq<Line>): seq<Group> {
    if inAgents then RuleGroups(agents + Names(AgentRun(rest)), delay, rest[|AgentRun(rest)|..])
    else RuleGroups(agents, delay, rest)
  }

  lemma TailOfCons(l: Line, rest: seq<Line>, n: nat)
    requires n <= |rest|
    ensures ([l] + rest)[1..] == rest && ([l] + rest)[n + 1..] == rest[n..]
  {
  }

  lemma AgentRunCons(l: Line, rest: seq<Line>)
    requires l.Agent?
    ensures AgentRun([l] + rest) == [l] + AgentRun(rest)
    ensures Names([l] + AgentRun(rest)) == [l.name] + Names(AgentRun(rest))
    ensures ([l] + rest)[|AgentRun(rest)| + 1..] == rest[|AgentRun(rest)|..]
  {
    TailOfCons(l, rest, |AgentRun(rest)|);
  }

  lemma RuleRunCons(l: Line, rest: seq<Line>)
    requires !l.Agent?
    ensures AgentRun([l] + rest) == []
    ensures RuleRun([l] + rest) == [l] + RuleRun(rest)
    ensures ([l] + rest)[|RuleRun(rest)| + 1..] == rest[|RuleRun(rest)|..]
  {
    TailOfCons(l, rest, |RuleRun(rest)|);
  }

  /** Reading one more agent line in an open run of agents. */
  lemma ReadAgentInRun(agents: seq<string>, delay: Option<nat>, l: Line, rest: seq<Line>)
    requires l.Agent?
    ensures OpenGroups(agents, delay, true, [l] + rest) == OpenGroups(agents + [l.name], delay, true, rest)
  {
    AgentRunCons(l, rest);
    assert agents + ([l.name] + Names(AgentRun(rest))) == agents + [l.name] + Names(AgentRun(rest));
  }

  /** An agent line after rules closes the open group and opens the next. */
  lemma ReadAgentAfterRules(agents: seq<string>, delay: Option<nat>, l: Line, rest: seq<Line>)
    requires l.Agent?
    ensures OpenGroups(agents, delay, false, [l] + rest)
         == [Group(agents, delay)] + OpenGroups([l.name], None, true, rest)
  {
    var all := [l] + rest;
    AgentRunCons(l, rest);
    assert RuleRun(all) == [] && all[0..] == all;
    assert Groups(all) == RuleGroups([l.name] + Names(AgentRun(rest)), None, rest[|AgentRun(rest)|..]);
  }

  lemma {:induction false} LastDelayCons(l: Line, run: seq<Line>)
    ensures LastDelay([l] + run)
         == if LastDelay(run).Some? then LastDelay(run) else if l.Delay? then Some(l.seconds) else None
    decreases |run|
  {
    if run == [] {
      assert [l] + run == [l] && [l][..0] == [];
      assert LastDelay([l][..0]) == None;
    } else {
      assert ([l] + run)[..|run|] == [l] + run[..|run| - 1];
      LastDelayCons(l, run[..|run| - 1]);
    }
  }

  /** A rule line ends the run of agents and may set the group's delay. */
  lemma ReadRule(agents: seq<string>, delay: Option<nat>, inAgents: bool, l: Line, rest: seq<Line>)
    requires !l.Agent?
    ensures OpenGroups(agents, delay, inAgents, [l] + rest)
         == OpenGroups(agents, if l.Delay? then Some(l.seconds) else delay, false, rest)
  {
    var all, delay' := [l] + rest, if l.Delay? then Some(l.seconds) else delay;
    RuleRunCons(l, rest);
    LastDelayCons(l, RuleRun(rest));
    assert RuleGroups(agents, delay, all) == RuleGroups(agents, delay', rest);
    assert agents + Names([]) == agents && all[0..] == all;
  }

  /** Before anything is read, the open group that names nobody makes no difference. */
  lemma StartGroups(lines: seq<Line>)
    ensures Best(None, OpenGroups([], None, false, lines)) == Best(None, Groups(lines))
  {
    var open, rules := OpenGroups([], None, false, lines), RuleRun(lines);
    assert lines[0..] == lines && Names([]) == [];
    if lines == [] {
      assert open == [Group([], None)] + [];
      BestCons(None, Group([], None), []);
    } else if lines[0].Agent? {
      assert open == [Group([], None)] + Groups(lines);
      BestCons(None, Group([], None), Groups(lines));
    } else {
      assert AgentRun(lines) == [];
    }
  }

  lemma LastGroup(best: Option<(nat, nat)>, agents: seq<string>, delay: Option<nat>, inAgents: bool)
    ensures Best(best, OpenGroups(agents, delay, inAgents, [])) == Better(best, Group(agents, delay))
  {
    assert agents + Names([]) == agents;
    assert OpenGroups(agents, delay, inAgents, []) == [Group(agents, delay)] + [];
    BestCons(best, Group(agents, delay), []);
  }

  /** Closes a group: remembers it if it is better. */
  method CloseGroup(best: Option<(nat, nat)>, agents: seq<string>, pending: Option<nat>)
      returns (best': Option<(nat, nat)>)
    ensures best' == Better(best, Group(agents, pending))
  {
    best' := best;
    if pending.Some? {
      var priority := SectionPriority(agents);
      if priority > 0 && (best.None? || priority > best.value.0) {
        best' := Some((priority, pending.value));
      }
    }
  }

  /** What the pass holds between two lines. */
  datatype Pass = Pass(agents: seq<string>, inAgents: bool, best: Option<(nat, nat)>, pending: Option<nat>)

  function Read(p: Pass, l: Line): Pass {
    match l
    case Skipped => p
    case Agent(name) =>
      if p.inAgents then p.(agents := p.agents + [name])
      else Pass([name], true, Better(p.best, Group(p.agents, p.pending)), None)
    case Delay(seconds) => p.(inAgents := false, pending := Some(seconds))
    case OtherRule => p.(inAgents := false)
  }

  /** The best group there will be, given what was read and what was not. */
  function Outlook(p: Pass, rest: seq<Line>): Option<(nat, nat)> {
    Best(p.best, OpenGroups(p.agents, p.pending, p.inAgents, rest))
  }

  lemma ReadKeepsOutlook(p: Pass, l: Line, rest: seq<Line>)
    requires !l.Skipped? && (p.inAgents ==> p.pending.None?)
    ensures Outlook(Read(p, l), rest) == Outlook(p, [l] + rest)
  {
    if !l.Agent? {
      ReadRule(p.agents, p.pending, p.inAgents, l, rest);
    } else if p.inAgents {
      ReadAgentInRun(p.agents, p.pending, l, rest);
    } else {
      ReadAgentAfterRules(p.agents, p.pending, l, rest);
      BestCons(p.best, Group(p.agents, p.pending), OpenGroups([l.name], None, true, rest));
    }
  }

  /** One turn of the loop. */
  method ReadLine(raw: string, agents: seq<string>, inAgents: bool, best: Option<(nat, nat)>, pending: Option<nat>)
    returns (agents': seq<string>, inAgents': bool, best': Option<(nat, nat)>, pending': Option<nat>)
    ensures Pass(agents', inAgents', best', pending') == Read(Pass(agents, inAgents, best, pending), Classify(raw))
  {
    agents', inAgents', best', pending' := agents, inAgents, best, pending;
    var line := Trim(raw);
    if line == "" || line[0] == '#' {
      return;
    }
    if StartsWith(Lower(line), "user-agent:") {
      if !inAgents {
        best' := CloseGroup(best, agents, pending);
        pending' := None;
        agents' := [];
        inAgents' := true;
      }
      AgentLineHasField(line);
      agents' := agents' + [Lower(Trim(SecondField(line, ':').value))];
    } else {
      inAgents' := false;
      if StartsWith(Lower(line), "crawl-delay:") {
        var field := SecondField(line, ':');
        if field.Some? {
          var delay := ParseU64(Trim(field.value));
          if delay.Some? {
            pending' := delay;
          }
        }
      }
    }
  }

  /** After i lines the pass is still heading for the answer. */
  ghost predicate OnTrack(p: Pass, raws: seq<string>, i: nat) {
    && i <= |raws| && (p.inAgents ==> p.pending.None?)
    && Outlook(p, Relevant(raws[i..])) == Best(None, Groups(Relevant(raws)))
  }

  lemma StartOnTrack(raws: seq<string>)
    ensures OnTrack(Pass([], false, None, None), raws, 0)
  {
    StartGroups(Relevant(raws));
    assert raws[0..] == raws;
  }

  lemma StayOnTrack(p: Pass, raws: seq<string>, i: nat)
    requires i < |raws| && OnTrack(p, raws, i)
    ensures OnTrack(Read(p, Classify(raws[i])), raws, i + 1)
  {
    RelevantFirst(raws, i);
    ReadNext(p, Classify(raws[i]), Relevant(raws[i + 1..]));
  }

  function Counted(l: Line): seq<Line> {
    if l.Skipped? then [] else [l]
  }

  lemma RelevantFirst(raws: seq<string>, i: nat)
    requires i < |raws|
    ensures Relevant(raws[i..]) == Counted(Classify(raws[i])) + Relevant(raws[i + 1..])
  {
    assert raws[i..][1..] == raws[i + 1..];
  }

  lemma ReadNext(p: Pass, l: Line, rest: seq<Line>)
    requires p.inAgents ==> p.pending.None?
    ensures Read(p, l).inAgents ==> Read(p, l).pending.None?
    ensures Outlook(Read(p, l), rest) == Outlook(p, Counted(l) + rest)
  {
    if l.Skipped? {
      assert [] + rest == rest;
    } else {
      ReadKeepsOutlook(p, l, rest);
    }
  }

  lemma EndOfTrack(p: Pass, raws: seq<string>)
    requires OnTrack(p, raws, |raws|)
    ensures IsAnswer(Groups(Relevant(raws)), DelayOf(Better(p.best, Group(p.agents, p.pending))))
  {
    assert Relevant(raws[|raws|..]) == [];
    LastGroup(p.best, p.agents, p.pending, p.inAgents);
    BestIsAnswer(Groups(Relevant(raws)));
  }

  /** The one-pass parser finds the answer of the two-phase reading. */
  method ExtractCrawlDelay(raws: seq<string>) returns (answer: Option<nat>)
    ensures IsAnswer(Groups(Relevant(raws)), answer)
  {
    var agents: seq<string>, inAgents, best: Option<(nat, nat)>, pending: Option<nat> := [], false, None, None;
    StartOnTrack(raws);
    for i := 0 to |raws|
      invariant OnTrack(Pass(agents, inAgents, best, pending), raws, i)
    {
      StayOnTrack(Pass(agents, inAgents, best, pending), raws, i);
      agents, inAgents, best, pending := ReadLine(raws[i], agents, inAgents, best, pending);
    }
    EndOfTrack(Pass(agents, inAgents, best, pending), raws);
    best := CloseGroup(best, agents, pending);
    answer := DelayOf(best);
  }

  /** First looks for this crawler's name in all agents, then for the wildcard. */
  method SectionPriority(agents: seq<string>) returns (priority: nat)
    ensures priority == Priority(agents)
  {
    for i := 0 to |agents|
      invariant forall k :: 0 <= k < i ==> Lower(Trim(Before(agents[k], '#'))) != "findversecrawler"
    {
      if Lower(Trim(Before(agents[i], '#'))) == "findversecrawler" {
        return 2;
      }
    }
    for i := 0 to |agents|
      invariant "*" !in agents[..i]
    {
      if agents[i] == "*" {
        return 1;
      }
    }
    assert agents[..|agents|] == agents;
    priority := 0;
  }
}
