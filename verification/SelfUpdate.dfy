/** Crawler self-update: the client's state machine, the server's heartbeat, and what the two do together. */
module SelfUpdate {
  import opened Wrappers
  import opened Text

  datatype UpdateStatus = Idle | Pending | Downloading | Restarting | Failed

  // ---- release tags -----------------------------------------------------

  predicate IsTagChar(c: char) {
    'a' <= c <= 'z' || 'A' <= c <= 'Z' || '0' <= c <= '9' || c == '.' || c == '-'
  }

  function DropV(s: string): string {
    if s != "" && (s[0] == 'v' || s[0] == 'V') then DropV(s[1..]) else s
  }

  /** The server's reading of a requested version; None when it is refused. */
  function NormalizeTag(input: string): Option<string> {
    var clean := DropV(Trim(input));
    if clean == "" || exists c <- clean :: !IsTagChar(c) then None else Some("v" + clean)
  }

  /** The client's reading of the version the server sent. */
  function Clean(desired: Option<string>): Option<string> {
    if desired.None? || Trim(desired.value) == "" then None else Some(Trim(desired.value))
  }

  predicate IsTag(s: string) {
    s != "" && forall c <- s :: IsTagChar(c)
  }

  /** Tags reach the client as the server stored them. */
  lemma TagsTravelUnchanged(input: string)
    requires NormalizeTag(input).Some?
    ensures IsTag(NormalizeTag(input).value)
    ensures Clean(NormalizeTag(input)) == NormalizeTag(input)
  {
    var tag := NormalizeTag(input).value;
    forall c | c in tag
      ensures IsTagChar(c)
    {
      assert c == 'v' || c in DropV(Trim(input));
    }
    CleanTag(tag);
  }

  /** The characters of a version, and those that stand in front of it. */
  predicate IsVersion(c: string) {
    && c != "" && c[0] !in {'v', 'V'}
    && forall ch <- c :: 'a' <= ch <= 'z' || 'A' <= ch <= 'Z' || '0' <= ch <= '9' || ch in {'.', '-'}
  }

  predicate IsPrefix(x: string) {
    forall ch <- x :: ch in {'v', 'V'}
  }

  /** A request is read as a version, whatever letters v and white space stand around it, and refused if there is
      anything else or no version at all. */
  lemma TagIff(input: string, tag: string)
    ensures NormalizeTag(input) == Some(tag) <==>
      exists a, x, c, b :: IsRequest(input, a, x, c, b) && tag == "v" + c
  {
    if NormalizeTag(input) == Some(tag) {
      var a, b := TrimSplits(input);
      var x := DropVSplits(Trim(input));
      var c := DropV(Trim(input));
      assert IsRequest(input, a, x, c, b);
    }
    forall a, x, c, b | IsRequest(input, a, x, c, b)
      ensures NormalizeTag(input) == Some("v" + c)
    {
      VersionIsTight(x, c);
      TrimOf(a, x + c, b);
      DropVOf(x, c);
    }
  }

  predicate IsRequest(input: string, a: string, x: string, c: string, b: string) {
    AllSpace(a) && AllSpace(b) && IsPrefix(x) && IsVersion(c) && input == a + (x + c) + b
  }

  lemma VersionIsTight(x: string, c: string)
    requires IsPrefix(x) && IsVersion(c)
    ensures Tight(x + c)
  {
    assert (x + c)[|x + c| - 1] == c[|c| - 1];
    assert x != "" ==> (x + c)[0] == x[0] && x[0] in x;
    assert c[0] in c && c[|c| - 1] in c;
  }

  lemma {:induction false} DropVOf(x: string, c: string)
    requires IsPrefix(x) && IsVersion(c)
    ensures DropV(x + c) == c
  {
    if x == "" {
      assert x + c == c;
    } else {
      assert x[0] in x && (x + c)[1..] == x[1..] + c;
      assert forall ch <- x[1..] :: ch in x;
      DropVOf(x[1..], c);
    }
  }

  lemma {:induction false} DropVSplits(s: string) returns (x: string)
    ensures IsPrefix(x) && s == x + DropV(s) && (DropV(s) != "" ==> DropV(s)[0] !in {'v', 'V'})
  {
    if s != "" && s[0] in {'v', 'V'} {
      x := DropVSplits(s[1..]);
      assert s == [s[0]] + s[1..] == [s[0]] + x + DropV(s);
      x := [s[0]] + x;
    } else {
      x := "";
    }
  }

  lemma CleanTag(tag: string)
    requires IsTag(tag)
    ensures Clean(Some(tag)) == Some(tag)
  {
    assert IsTagChar(tag[0]) && IsTagChar(tag[|tag| - 1]);
  }

  lemma DigitTag(c: char)
    requires '0' <= c <= '9'
    ensures NormalizeTag([c]) == Some("v" + [c]) && IsTag("v" + [c])
  {
    assert Trim([c]) == [c];
    assert DropV([c]) == [c];
  }

  // ---- the client -------------------------------------------------------

  /** `version` is the running release, `failedTarget` the last one whose update failed, `message` what the
      administrator is shown. */
  datatype Client = Client(version: string, desired: Option<string>, status: UpdateStatus, message: Option<string>,
                           failedTarget: Option<string>)

  function Busy(status: UpdateStatus): bool {
    status.Downloading? || status.Restarting?
  }

  function Relax(c: Client): Client {
    var quiet := c.(desired := None, failedTarget := None);
    if Busy(c.status) then quiet else quiet.(status := Idle, message := None)
  }

  /** The client takes a heartbeat's answer. */
  function Instruct(c: Client, desired: Option<string>, serverStatus: UpdateStatus): Client {
    match Clean(desired)
    case None => Relax(c)
    case Some(target) =>
      if target == c.version then Relax(c)
      else
        var retry := c.desired != Some(target) || serverStatus.Pending?;
        var told := c.(desired := Some(target), failedTarget := if retry then None else c.failedTarget);
        if told.failedTarget == Some(target) then told.(status := Failed)
        else if Busy(c.status) then told
        else
          var waiting := Some("waiting to update to " + target);
          told.(status := Pending, message := if retry || c.message.None? then waiting else c.message)
  }

  /** Every field after an answer. A wanted version other than the running one is news if it is another than before or
      the server says pending; one that is no news and has failed stays given up. */
  predicate Instructed(c: Client, desired: Option<string>, answer: UpdateStatus, k: Client) {
    var target := if desired.Some? && Trim(desired.value) != "" then Some(Trim(desired.value)) else None;
    var wanted := target.Some? && target != Some(c.version);
    var news := wanted && (c.desired != target || answer.Pending?);
    var givenUp := wanted && !news && c.failedTarget == target;
    var busy := c.status in {Downloading, Restarting};
    && k.version == c.version && k.desired == (if wanted then target else None)
    && k.failedTarget == (if wanted && !news then c.failedTarget else None)
    && (k.status.Failed? <==> givenUp) && (k.status.Pending? <==> wanted && !givenUp && !busy)
    && (k.status.Idle? <==> !wanted && !busy) && (k.status in {Downloading, Restarting} ==> k.status == c.status)
    && (k.status.Idle? ==> k.message.None?)
    && (k.status.Pending? && (news || c.message.None?) ==> k.message == Some("waiting to update to " + target.value))
    && (k.status.Pending? && !news && c.message.Some? ==> k.message == c.message)
    && (givenUp || busy ==> k.message == c.message)
  }

  lemma InstructIs(c: Client, desired: Option<string>, answer: UpdateStatus)
    ensures Instructed(c, desired, answer, Instruct(c, desired, answer))
  {
  }

  function PendingTarget(c: Client): Option<string> {
    if c.desired.None? || c.desired.value == c.version || c.failedTarget == c.desired || !c.status.Pending? then None
    else c.desired
  }

  function MarkDownloading(c: Client, target: string): Client {
    c.(desired := Some(target), status := Downloading, message := Some("downloading " + target))
  }

  function MarkRestarting(c: Client, target: string): Client {
    c.(desired := Some(target), status := Restarting, message := Some("restarting service into " + target))
  }

  function MarkFailed(c: Client, target: string, message: string): Client {
    c.(desired := Some(target), failedTarget := Some(target), status := Failed,
        message := Some(message[..Min(|message|, 240)]))
  }

  /** The client as an object whose methods update its fields. */
  class CrawlerRuntimeState {
    const version: string
    var desired: Option<string>
    var status: UpdateStatus
    var message: Option<string>
    var failedTarget: Option<string>

    ghost function State(): Client
      reads this
    {
      Client(version, desired, status, message, failedTarget)
    }

    constructor (version: string)
      ensures State() == Client(version, None, Idle, None, None)
    {
      this.version, desired, status, message, failedTarget := version, None, Idle, None, None;
    }

    method ApplyServerInstruction(desiredVersion: Option<string>, serverStatus: UpdateStatus) returns (changed: bool)
      modifies this
      ensures State() == Instruct(old(State()), desiredVersion, serverStatus)
      ensures Instructed(old(State()), desiredVersion, serverStatus, State())
      ensures changed <==> status != old(status) || message != old(message)
    {
      InstructIs(State(), desiredVersion, serverStatus);
      var before, beforeMessage := status, message;
      var clean: Option<string> := None;
      if desiredVersion.Some? {
        var trimmed := Trim(desiredVersion.value);
        if trimmed != "" {
          clean := Some(trimmed);
        }
      }
      if clean.Some? {
        var target := clean.value;
        if target == version {
          desired := None;
          failedTarget := None;
          if !Busy(status) {
            status := Idle;
            message := None;
          }
        } else {
          var targetChanged := desired != Some(target);
          desired := Some(target);
          if targetChanged || serverStatus.Pending? {
            failedTarget := None;
          }
          if failedTarget == Some(target) {
            status := Failed;
          } else if !Busy(status) {
            status := Pending;
            if targetChanged || serverStatus.Pending? || message.None? {
              message := Some("waiting to update to " + target);
            }
          }
        }
      } else {
        desired := None;
        failedTarget := None;
        if !Busy(status) {
          status := Idle;
          message := None;
        }
      }
      changed := status != before || message != beforeMessage;
    }

    method GetPendingTarget() returns (target: Option<string>)
      ensures target == PendingTarget(State())
    {
      if desired.None? || desired.value == version || failedTarget == desired {
        return None;
      }
      target := if status.Pending? then desired else None;
    }

    method NoteDownloading(target: string)
      modifies this
      ensures State() == MarkDownloading(old(State()), target)
    {
      desired := Some(target);
      status := Downloading;
      message := Some("downloading " + target);
    }

    method NoteRestarting(target: string)
      modifies this
      ensures State() == MarkRestarting(old(State()), target)
    {
      desired := Some(target);
      status := Restarting;
      message := Some("restarting service into " + target);
    }

    method NoteFailed(target: string, error: string)
      modifies this
      ensures State() == MarkFailed(old(State()), target, error)
      ensures message.Some? && message.value <= error && |message.value| == Min(|error|, 240)
    {
      desired := Some(target);
      failedTarget := Some(target);
      status := Failed;
      message := Some(error[..Min(|error|, 240)]);
    }
  }

  // ---- the server -------------------------------------------------------

  /** What the server keeps about a crawler. */
  datatype Server = Server(version: Option<string>, desired: Option<string>, status: UpdateStatus)

  /** An administrator asks for a version. */
  function Request(s: Server, tag: string): Server {
    s.(desired := Some(tag), status := Pending)
  }

  /** A heartbeat stores what the client says of itself, and closes the request once the client runs it. */
  function ReceiveHeartbeat(s: Server, c: Client): Server {
    var heard := s.(version := Some(c.version), status := c.status);
    if heard.desired.Some? && heard.version == heard.desired then heard.(desired := None, status := Idle) else heard
  }

  // ---- the two together -------------------------------------------------

  /** What the client's main loop is doing. */
  datatype Phase = Looping | Updating(target: string) | Ended

  /** `started` lists the downloads begun since the wanted version last changed (history). */
  datatype World = World(client: Client, server: Server, phase: Phase, started: seq<string>)

  datatype Move =
    | AdminRequest(input: string)
    | Heartbeat                    // at any time, also during a download; one step
    | StartUpdate
    | DownloadFails(error: string)
    | RestartQueued                // the download was installed and the restart is under way
    | RestartFails                 // it was installed, but the service could not be restarted

  predicate CanMove(w: World, m: Move) {
    match m
    case AdminRequest(_) => true
    case Heartbeat => !w.phase.Ended?
    case StartUpdate => w.phase.Looping? && PendingTarget(w.client).Some?
    case _ => w.phase.Updating?
  }

  function Beat(w: World): World {
    var heard := ReceiveHeartbeat(w.server, w.client);
    w.(server := heard, client := Instruct(w.client, heard.desired, heard.status))
  }

  function Make(w: World, m: Move): World
    requires CanMove(w, m)
  {
    match m
    case AdminRequest(input) =>
      (match NormalizeTag(input)
       case None => w
       case Some(tag) =>
         w.(server := Request(w.server, tag), started := if w.server.desired == Some(tag) then w.started else []))
    case Heartbeat => Beat(w)
    case StartUpdate =>
      var target := PendingTarget(w.client).value;
      w.(client := MarkDownloading(w.client, target), phase := Updating(target), started := w.started + [target])
    case DownloadFails(error) => w.(client := MarkFailed(w.client, w.phase.target, error), phase := Looping)
    case RestartQueued => w.(client := MarkRestarting(w.client, w.phase.target), phase := Ended)
    case RestartFails => w.(client := MarkRestarting(w.client, w.phase.target), phase := Looping)
  }

  /** A process starts idle; its own version is a release tag. */
  predicate IsStart(w: World) {
    && IsTag(w.client.version) && w.client == Client(w.client.version, None, Idle, None, None)
    && (w.server.desired.Some? ==> IsTag(w.server.desired.value))
    && w.phase.Looping? && w.started == []
  }

  ghost predicate IsHistory(worlds: seq<World>, moves: seq<Move>) {
    && |worlds| == |moves| + 1 && IsStart(worlds[0])
    && forall i :: 0 <= i < |moves| ==> CanMove(worlds[i], moves[i]) && worlds[i + 1] == Make(worlds[i], moves[i])
  }

  /** The wanted version has been tried, and the client will not try it again on its own. */
  predicate GivenUp(w: World, target: string) {
    match w.phase
    case Ended => true
    case Updating(t) => t == target
    case Looping => w.client.status.Restarting? ||
                    (w.client.status.Failed? && w.client.desired == Some(target)
                        && w.client.failedTarget == Some(target))
  }

  /** The client's fields fit together and fit what its main loop does. */
  predicate ClientOk(c: Client, phase: Phase) {
    && (c.status.Pending? ==> c.desired.Some? && c.desired != Some(c.version))
    && (!c.status.Failed? ==> c.failedTarget.None? || c.failedTarget != c.desired)
    && (phase.Updating? ==> c.status.Downloading? && c.failedTarget != Some(phase.target))
    && (phase.Looping? ==> !c.status.Downloading?)
  }

  /** At most one download since the last change was of another version than the wanted one, and then it was the first;
      at most one was of the wanted version, and then it was the last. */
  predicate StartedOk(w: World) {
    && |w.started| <= 2
    && (|w.started| == 2 ==> Some(w.started[0]) != w.server.desired && Some(w.started[1]) == w.server.desired)
    && (forall t <- w.started :: t != w.client.version && (w.server.desired == Some(t) ==> GivenUp(w, t)))
    && (w.started != [] && w.client.status.Pending? ==> w.client.desired == w.server.desired)
  }

  predicate Steady(w: World) {
    (w.server.desired.Some? ==> IsTag(w.server.desired.value)) && ClientOk(w.client, w.phase) && StartedOk(w)
  }

  lemma BeatKeepsClientOk(w: World)
    requires Steady(w) && !w.phase.Ended?
    ensures ClientOk(Beat(w).client, w.phase)
  {
    if w.server.desired.Some? {
      CleanTag(w.server.desired.value);
    }
  }

  /** A heartbeat never makes the client try again what it has given up: the status it gets back is its own. */
  lemma BeatKeepsGivenUp(w: World, target: string)
    requires Steady(w) && !w.phase.Ended? && w.server.desired == Some(target) && target != w.client.version
    requires GivenUp(w, target)
    ensures GivenUp(Beat(w), target) && Beat(w).server.desired == Some(target)
  {
    CleanTag(target);
  }

  lemma BeatKeepsSteady(w: World)
    requires Steady(w) && !w.phase.Ended?
    ensures Steady(Beat(w))
  {
    BeatKeepsClientOk(w);
    var after := Beat(w);
    if w.server.desired.Some? {
      CleanTag(w.server.desired.value);
    }
    forall t | t in after.started && after.server.desired == Some(t)
      ensures GivenUp(after, t)
    {
      BeatKeepsGivenUp(w, t);
    }
  }

  lemma StartKeepsSteady(w: World)
    requires Steady(w) && CanMove(w, StartUpdate)
    ensures Steady(Make(w, StartUpdate))
  {
    var target := PendingTarget(w.client).value;
    if w.started != [] {
      assert w.started[0] in w.started;
      assert w.started[|w.started| - 1] in w.started;
    }
  }

  lemma MoveKeepsSteady(w: World, m: Move)
    requires Steady(w) && CanMove(w, m)
    ensures Steady(Make(w, m))
  {
    match m
    case AdminRequest(input) =>
      if NormalizeTag(input).Some? {
        TagsTravelUnchanged(input);
      }
    case Heartbeat => BeatKeepsSteady(w);
    case StartUpdate => StartKeepsSteady(w);
    case _ =>
  }

  lemma {:induction false} HistoryKeepsSteady(worlds: seq<World>, moves: seq<Move>, i: nat)
    requires IsHistory(worlds, moves) && i < |worlds|
    ensures Steady(worlds[i])
  {
    if i > 0 {
      HistoryKeepsSteady(worlds, moves, i - 1);
      MoveKeepsSteady(worlds[i - 1], moves[i - 1]);
    }
  }

  /** After a heartbeat a client can begin an update exactly if there is a wanted version, it is another than it runs,
      and the client has not given it up; and then it begins that one. */
  lemma HeartbeatReadiesIff(w: World)
    requires Steady(w) && w.phase.Looping?
    ensures CanMove(Beat(w), StartUpdate) <==>
      && w.server.desired.Some? && w.server.desired != Some(w.client.version)
      && !(w.client.status.Restarting? || (w.client.status.Failed? && w.client.desired == w.server.desired
                                           && w.client.failedTarget == w.server.desired))
    ensures CanMove(Beat(w), StartUpdate) ==> Make(Beat(w), StartUpdate).phase == Updating(w.server.desired.value)
  {
    if w.server.desired.Some? {
      CleanTag(w.server.desired.value);
    }
  }

  /** A heartbeat tells the server what the client runs and does. It ends the request exactly if the client runs the
      wanted version, and then the client has nothing to do either. */
  lemma HeartbeatCloses(w: World)
    requires Steady(w) && !w.phase.Ended?
    ensures var after := Beat(w);
      && after.server.version == Some(w.client.version) && after.phase == w.phase
      && (if w.server.desired == Some(w.client.version)
          then after.server.desired.None? && after.server.status.Idle? && after.client.desired.None?
               && (w.client.status !in {Downloading, Restarting} ==> after.client.status.Idle?)
          else after.server.desired == w.server.desired && after.server.status == w.client.status)
  {
    if w.server.desired.Some? {
      CleanTag(w.server.desired.value);
    }
  }

  /** Asked for a version, an idle client takes it up with its next heartbeat, and the process that then runs it ends
      the request with its first one: an update that does not fail comes to its end. */
  lemma UpdateCompletes(w: World, input: string, version: string)
    requires Steady(w) && w.phase.Looping? && w.client.status.Idle? && NormalizeTag(input) == Some(version)
    requires version != w.client.version
    ensures var asked := Make(w, AdminRequest(input));
      && asked.server.desired == Some(version) && asked.server.status.Pending? && CanMove(Beat(asked), StartUpdate)
      && var done := Make(Make(Beat(asked), StartUpdate), RestartQueued);
         && done.phase.Ended? && done.server.desired == Some(version)
         && var next := Beat(World(Client(version, None, Idle, None, None), done.server, Looping, []));
            next.server.desired.None? && next.server.version == Some(version) && next.client.status.Idle?
  {
    TagsTravelUnchanged(input);
    var asked := Make(w, AdminRequest(input));
    MoveKeepsSteady(w, AdminRequest(input));
    HeartbeatReadiesIff(asked);
    HeartbeatCloses(asked);
    var done := Make(Make(Beat(asked), StartUpdate), RestartQueued);
    HeartbeatCloses(World(Client(version, None, Idle, None, None), done.server, Looping, []));
  }

  /** Between two changes of the wanted version a process starts at most one download of it, and never the same
      version twice: a target that failed is not tried again, whatever heartbeats and repeated requests come. */
  lemma OneDownloadPerTarget(worlds: seq<World>, moves: seq<Move>, i: nat)
    requires IsHistory(worlds, moves) && i < |worlds|
    ensures forall a, b :: 0 <= a < b < |worlds[i].started| ==> worlds[i].started[a] != worlds[i].started[b]
    ensures |worlds[i].started| <= 2
    ensures |worlds[i].started| == 2 ==> worlds[i].server.desired == Some(worlds[i].started[1])
  {
    HistoryKeepsSteady(worlds, moves, i);
  }

  // ---- when there is a second download ----------------------------------

  /** A move that does not change the wanted version. */
  predicate KeepsWanted(w: World, m: Move) {
    m.AdminRequest? ==> NormalizeTag(m.input).None? || NormalizeTag(m.input) == w.server.desired
  }

  /** Moves that lead from one world to another without changing the wanted version. */
  ghost predicate Leads(w: World, moves: seq<Move>, after: World)
    decreases |moves|
  {
    if moves == [] then after == w
    else CanMove(w, moves[0]) && KeepsWanted(w, moves[0]) && Leads(Make(w, moves[0]), moves[1..], after)
  }

  /** A second download may start before the wanted version changes. */
  ghost predicate SecondMayStart(w: World) {
    exists moves, after :: Leads(w, moves, after) && |after.started| == 2
  }

  /** One download was started, and the wanted version is its target, the running version, or none. */
  predicate Settled(w: World) {
    && |w.started| == 1
    && (w.server.desired.None? || w.server.desired == Some(w.client.version) || w.server.desired == Some(w.started[0]))
  }

  lemma SettledStays(w: World, m: Move)
    requires Steady(w) && Settled(w) && CanMove(w, m) && KeepsWanted(w, m)
    ensures Settled(Make(w, m)) && Steady(Make(w, m))
  {
    MoveKeepsSteady(w, m);
    assert w.started[0] in w.started;
  }

  lemma {:induction false} SettledForGood(w: World, moves: seq<Move>, after: World)
    requires Steady(w) && Settled(w) && Leads(w, moves, after)
    ensures Settled(after)
    decreases |moves|
  {
    if moves != [] {
      SettledStays(w, moves[0]);
      SettledForGood(Make(w, moves[0]), moves[1..], after);
    }
  }

  /** Seen when the first download since a change starts: a second one may start before the next change if and only if
      the version the client is about to download is not the wanted one, and the wanted one is another than it runs. */
  lemma SecondDownloadIff(w: World)
    requires Steady(w) && w.started == [] && CanMove(w, StartUpdate)
    ensures SecondMayStart(Make(w, StartUpdate)) <==>
            w.server.desired.Some? && w.server.desired != Some(w.client.version)
                && PendingTarget(w.client) != w.server.desired
  {
    var first := Make(w, StartUpdate);
    MoveKeepsSteady(w, StartUpdate);
    if w.server.desired.Some? && w.server.desired != Some(w.client.version)
        && PendingTarget(w.client) != w.server.desired {
      SecondStarts(first);
    } else {
      assert Settled(first);
      forall moves, after | Leads(first, moves, after)
        ensures |after.started| == 1
      {
        SettledForGood(first, moves, after);
      }
    }
  }

  /** The first download fails, the client hears of the wanted version, and starts to download it. */
  lemma SecondStarts(w: World)
    requires Steady(w) && w.phase.Updating? && |w.started| == 1
    requires w.server.desired.Some? && w.server.desired != Some(w.client.version)
        && w.server.desired != Some(w.phase.target)
    ensures SecondMayStart(w)
  {
    CleanTag(w.server.desired.value);
    var failed := Make(w, DownloadFails(""));
    var told := Make(failed, Heartbeat);
    assert PendingTarget(told.client) == w.server.desired;
    var second := Make(told, StartUpdate);
    assert Leads(second, [], second);
    LeadsCons(told, StartUpdate, [], second);
    LeadsCons(failed, Heartbeat, [StartUpdate], second);
    LeadsCons(w, DownloadFails(""), [Heartbeat, StartUpdate], second);
  }

  lemma LeadsCons(w: World, m: Move, moves: seq<Move>, after: World)
    requires CanMove(w, m) && KeepsWanted(w, m) && Leads(Make(w, m), moves, after)
    ensures Leads(w, [m] + moves, after)
  {
    assert ([m] + moves)[1..] == moves;
  }

  /** A world that some history ends in. */
  ghost predicate Reachable(w: World) {
    exists worlds, moves :: IsHistory(worlds, moves) && worlds[|moves|] == w
  }

  lemma ReachableStep(w: World, m: Move)
    requires Reachable(w) && CanMove(w, m)
    ensures Reachable(Make(w, m))
  {
    var worlds, moves :| IsHistory(worlds, moves) && worlds[|moves|] == w;
    assert IsHistory(worlds + [Make(w, m)], moves + [m]);
  }

  lemma ReachableIsSteady(w: World)
    requires Reachable(w)
    ensures Steady(w)
  {
    var worlds, moves :| IsHistory(worlds, moves) && worlds[|moves|] == w;
    HistoryKeepsSteady(worlds, moves, |moves|);
  }

  ghost predicate TwoMayStart(w: World) {
    Reachable(w) && w.started == [] && CanMove(w, StartUpdate) && SecondMayStart(Make(w, StartUpdate))
  }

  /** It happens: a crawler is told to become version a, and before it has begun to become version b. It first downloads
      version a all the same. */
  lemma StaleTarget(version: string, a: string, b: string)
    requires IsTag(version) && NormalizeTag(a).Some? && NormalizeTag(b).Some?
    requires NormalizeTag(a).value != version && NormalizeTag(b).value !in {version, NormalizeTag(a).value}
    ensures exists w :: TwoMayStart(w)
  {
    TagsTravelUnchanged(a);
    var w0 := World(Client(version, None, Idle, None, None), Server(None, None, Idle), Looping, []);
    assert IsHistory([w0], []);
    var w1 := Make(w0, AdminRequest(a));
    ReachableStep(w0, AdminRequest(a));
    var w2 := Make(w1, Heartbeat);
    ReachableStep(w1, Heartbeat);
    assert PendingTarget(w2.client) == NormalizeTag(a);
    var w3 := Make(w2, AdminRequest(b));
    ReachableStep(w2, AdminRequest(b));
    ReachableIsSteady(w3);
    SecondDownloadIff(w3);
    assert TwoMayStart(w3);
  }

  lemma StaleTargetIsReachable()
    ensures exists w :: TwoMayStart(w)
  {
    DigitTag('1');
    DigitTag('2');
    DigitTag('3');
    assert ("v" + ['1'])[1] == '1' && ("v" + ['2'])[1] == '2' && ("v" + ['3'])[1] == '3';
    StaleTarget("v" + ['1'], ['2'], ['3']);
  }

  /** `BeatKeepsGivenUp` needs heartbeats to be one step. A client that has given up a target becomes ready to try it
      again exactly when an answer says pending, as a late answer does to a heartbeat sent before the update failed. */
  lemma LateAnswerRetriesIff(c: Client, target: string, answer: UpdateStatus)
    requires IsTag(target) && target != c.version
    requires c.desired == Some(target) && c.failedTarget == Some(target) && c.status.Failed?
    ensures PendingTarget(c) == None
    ensures PendingTarget(Instruct(c, Some(target), answer)) == Some(target) <==> answer.Pending?
    ensures !answer.Pending? ==> Instruct(c, Some(target), answer) == c
  {
    CleanTag(target);
  }
}
