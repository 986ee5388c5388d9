/** One connection's record of completed requests, and what it says about the server's processes. */
module WanLedger {
  import opened Collections
  import opened WanWire
  import opened WanSession
  import opened WanScript

  /** The points of a server that is only ever given ordinary requests. */
  predicate Ordinary(pc: Pc) {
    pc.AtCmd? || pc.AtPayload? || pc.Busy? || pc.Reply? || pc.Stopping? ||
    pc.SendError? || pc.SendReason? || pc.AwaitOk?
  }

  predicate InFlight(pc: Pc) {
    Ordinary(pc) && !pc.AtCmd?
  }

  /** The request that the server is working on; its payload once it has been received. */
  function Current(pc: Pc): Request
    requires InFlight(pc) && !pc.AtPayload?
  {
    match pc
    case Busy(cmd, payload) => (cmd, payload)
    case Reply(cmd, payload) => (cmd, payload)
    case Stopping(k, _) => (StopOf(k), [])
    case SendError(k, _) => (StopOf(k), [])
    case SendReason(k, _) => (StopOf(k), [])
    case AwaitOk(k, _) => (StopOf(k), [])
  }

  /** The outstanding requests are `ahead`; the first of them is in flight unless the server is at its command read. */
  predicate Outstanding(pc: Pc, pq: seq<Msg>, rq: seq<Msg>, rest: seq<Op>, ahead: seq<Request>) {
    match pc
    case AtCmd =>
      if rq == [] then Sends(pq) + rest == Exchanges(ahead)
      else rest != [] && rest[1..] == Exchanges(ahead)
    case AtPayload(cmd) =>
      ahead != [] && ahead[0].0 == cmd && [Send(Command(cmd))] + (Sends(pq) + rest) == Exchanges(ahead)
    case _ =>
      && InFlight(pc) && ahead != [] && ahead[0] == Current(pc)
      && rest != [] && rest[1..] == Exchanges(ahead[1..])
  }

  /** Completed and outstanding requests together are the list cs. */
  predicate Ledger(c: Chan, cs: seq<Request>, rest: seq<Op>) {
    && Ordinary(c.pc) && |c.log| <= |cs| && c.log == cs[..|c.log|]
    && Outstanding(c.pc, ToServer(c), ToController(c), rest, cs[|c.log|..])
  }

  // ----- the controller's steps leave the outstanding requests as they are

  lemma OutstandingAfterSend(pc: Pc, pq: seq<Msg>, rq: seq<Msg>, sub: Sub, rest: seq<Op>, ahead: seq<Request>)
    requires Fits(pc, pq, rq, sub, rest) && rest != [] && rest[0].Send? && Outstanding(pc, pq, rq, rest, ahead)
    ensures Outstanding(pc, pq + [rest[0].msg], rq, rest[1..], ahead)
  {
    SendKeepsDialogue(pq, rest);
  }

  lemma OutstandingAfterOk(pc: Pc, pq: seq<Msg>, rq: seq<Msg>, sub: Sub, rest: seq<Op>, ahead: seq<Request>)
    requires Fits(pc, pq, rq, sub, rest) && sub == AtOk && Outstanding(pc, pq, rq, rest, ahead)
    ensures Outstanding(pc, pq + [Data(OK)], rq, rest, ahead)
  {
  }

  lemma OutstandingAfterRecv(pc: Pc, pq: seq<Msg>, rq: seq<Msg>, sub: Sub, rest: seq<Op>, ahead: seq<Request>)
    requires Fits(pc, pq, rq, sub, rest) && rest != [] && rq != [] && Outstanding(pc, pq, rq, rest, ahead)
    ensures (rest[0].Recv? || (rest[0].Await? && sub == AtReply && Wire(rq[0]) != ERROR)) ==>
              Outstanding(pc, pq, rq[1..], rest[1..], ahead)
    ensures rest[0].Await? && (sub == AtReason || (sub == AtReply && Wire(rq[0]) == ERROR)) ==>
              Outstanding(pc, pq, rq[1..], rest, ahead)
  {
    assert Sends([]) + rest[1..] == rest[1..];
  }

  lemma ControllerKeepsLedger(c: Chan, sub: Sub, rest: seq<Op>, c': Chan, sub': Sub, rest': seq<Op>, cs: seq<Request>)
    requires Healthy(c, sub, rest) && ControllerStep(c, sub, rest, c', sub', rest') && Ledger(c, cs, rest)
    ensures Ledger(c', cs, rest')
  {
    if rest[0].Send? {
      SendInStep(c.cSent, c.sGot, c.c2s, rest[0].msg);
      OutstandingAfterSend(c.pc, ToServer(c), ToController(c), sub, rest, cs[|c.log|..]);
    } else if sub == AtOk && rest[0].Await? {
      SendInStep(c.cSent, c.sGot, c.c2s, Data(OK));
      OutstandingAfterOk(c.pc, ToServer(c), ToController(c), sub, rest, cs[|c.log|..]);
    } else {
      LedgerRecv(c, sub, rest, c', sub', rest', cs);
    }
  }

  lemma LedgerRecv(c: Chan, sub: Sub, rest: seq<Op>, c': Chan, sub': Sub, rest': seq<Op>, cs: seq<Request>)
    requires Healthy(c, sub, rest) && ControllerStep(c, sub, rest, c', sub', rest') && Ledger(c, cs, rest)
    requires rest[0].Recv? || (rest[0].Await? && sub != AtOk)
    ensures Ledger(c', cs, rest')
  {
    var n := if rest[0].Recv? then rest[0].size else if sub == AtReply then 2 else 200;
    ReplyWaits(c, sub, rest);
    if rest[0].Recv? {
      ControllerReceives(c.pc, ToServer(c), ToController(c), sub, rest);
    } else {
      ControllerAwaits(c.pc, ToServer(c), ToController(c), sub, rest);
    }
    RecvInStep(c.sSent, c.cGot, c.s2c, n);
    OutstandingAfterRecv(c.pc, ToServer(c), ToController(c), sub, rest, cs[|c.log|..]);
    assert ToController(c') == ToController(c)[1..];
  }

  // ----- the server's steps

  lemma ExchangeParts(ahead: seq<Request>)
    requires ahead != []
    ensures |Exchanges(ahead)| >= 2 && Exchanges(ahead)[0] == Send(Command(ahead[0].0))
    ensures HasPayload(ahead[0].0) ==>
              |Exchanges(ahead)| >= 3 && Exchanges(ahead)[1] == Send(Data(ahead[0].1))
              && Exchanges(ahead)[3..] == Exchanges(ahead[1..])
    ensures !HasPayload(ahead[0].0) ==> Exchanges(ahead)[1] == Await && Exchanges(ahead)[2..] == Exchanges(ahead[1..])
  {
    var e := Exchange(ahead[0]);
    assert Exchanges(ahead) == e + Exchanges(ahead[1..]);
  }

  /** Reading a command takes the next outstanding request in hand. */
  lemma ReadKeepsOutstanding(c: Chan, d: Chan, pq: seq<Msg>, sub: Sub, rest: seq<Op>, ahead: seq<Request>)
    requires c.pc.AtCmd? && Fits(c.pc, pq, [], sub, rest) && Outstanding(c.pc, pq, [], rest, ahead) && pq != []
    requires RequestsOk(ahead)
    requires c.c2s != [] && Take(c.c2s, 2) == Wire(pq[0]) && ServerStep(c, d)
    ensures Ordinary(d.pc) && Outstanding(d.pc, pq[1..], [], rest, ahead)
  {
    SendsHead(pq, rest);
    DecodeCode(pq[0].cmd);
    assert |Sends(pq) + rest| > 0;
    assert ahead != [];
    ExchangeParts(ahead);
    var cmd, v := ahead[0].0, Exchanges(ahead);
    assert pq[0] == Command(cmd);
    assert RequestOk(ahead[0]);
    assert v[1..] == Sends(pq[1..]) + rest;
    if HasPayload(cmd) {
      assert [Send(Command(cmd))] + v[1..] == v;
    } else {
      assert v[1..][0] == Await;
      NothingPending(pq[1..], rest);
      assert rest[1..] == v[2..];
    }
  }

  lemma PayloadKeepsOutstanding(c: Chan, d: Chan, pq: seq<Msg>, sub: Sub, rest: seq<Op>, ahead: seq<Request>)
    requires c.pc.AtPayload? && Fits(c.pc, pq, [], sub, rest) && Outstanding(c.pc, pq, [], rest, ahead) && pq != []
    requires c.c2s != [] && Take(c.c2s, Asks(c.pc)) == Wire(pq[0]) && ServerStep(c, d)
    ensures Ordinary(d.pc) && Outstanding(d.pc, pq[1..], [], rest, ahead)
  {
    SendsHead(pq, rest);
    ExchangeParts(ahead);
    var v := Exchanges(ahead);
    assert v[1..] == Sends(pq) + rest;
    assert v[1] == Send(pq[0]);
    AnswerNext(c.pc.cmd, pq[1..], rest);
    assert v[2..] == rest && v[3..] == rest[1..];
  }

  lemma ServerKeepsLedger(c: Chan, sub: Sub, rest: seq<Op>, d: Chan, cs: seq<Request>)
    requires Healthy(c, sub, rest) && ServerStep(c, d) && Ledger(c, cs, rest) && RequestsOk(cs)
    ensures Ledger(d, cs, rest)
  {
    if Receiving(c.pc) {
      ReceivingKeepsLedger(c, sub, rest, d, cs);
    } else if c.pc.Reply? {
      ReplyKeepsLedger(c, sub, rest, d, cs);
    } else {
      LocalKeepsLedger(c, sub, rest, d, cs);
    }
  }

  lemma ReceivingKeepsLedger(c: Chan, sub: Sub, rest: seq<Op>, d: Chan, cs: seq<Request>)
    requires Healthy(c, sub, rest) && ServerStep(c, d) && Ledger(c, cs, rest) && RequestsOk(cs) && Receiving(c.pc)
    ensures Ledger(d, cs, rest)
  {
    var pq, ahead := ToServer(c), cs[|c.log|..];
    assert RequestsOk(ahead);
    ReceivingTakesOne(c, d);
    RequestWaits(c);
    ServerAsksWell(c.pc, pq, ToController(c), sub, rest);
    RecvInStep(c.cSent, c.sGot, c.c2s, Asks(c.pc));
    assert ToServer(d) == pq[1..] && ToController(d) == ToController(c);
    assert d.log == c.log;
    if c.pc.AtCmd? {
      ReadKeepsOutstanding(c, d, pq, sub, rest, ahead);
    } else if c.pc.AtPayload? {
      PayloadKeepsOutstanding(c, d, pq, sub, rest, ahead);
    }
  }

  lemma ReplyKeepsLedger(c: Chan, sub: Sub, rest: seq<Op>, d: Chan, cs: seq<Request>)
    requires Healthy(c, sub, rest) && ServerStep(c, d) && Ledger(c, cs, rest) && c.pc.Reply?
    ensures Ledger(d, cs, rest)
  {
    SendInStep(c.sSent, c.cGot, c.s2c, Data(READY));
    var ahead := cs[|c.log|..];
    assert d == SSend(c, Data(READY)).(pc := AtCmd, log := c.log + [(c.pc.cmd, c.pc.payload)]);
    assert ahead[0] == (c.pc.cmd, c.pc.payload);
    assert cs[..|c.log| + 1] == cs[..|c.log|] + [ahead[0]];
    assert cs[|d.log|..] == ahead[1..];
  }

  lemma LocalKeepsLedger(c: Chan, sub: Sub, rest: seq<Op>, d: Chan, cs: seq<Request>)
    requires Healthy(c, sub, rest) && ServerStep(c, d) && Ledger(c, cs, rest) && !Receiving(c.pc) && !c.pc.Reply?
    ensures Ledger(d, cs, rest)
  {
    assert c.pc.Busy? || c.pc.Stopping? || c.pc.SendError? || c.pc.SendReason?;
    assert Current(d.pc) == Current(c.pc) && d.log == c.log;
  }

  // ----- how many commands have been sent, received and completed

  function CommandsIn(v: seq<Op>): nat {
    if v == [] then 0 else CommandsIn(v[1..]) + (if v[0].Send? && v[0].msg.Command? then 1 else 0)
  }

  lemma {:induction false} CommandsInAppend(v: seq<Op>, w: seq<Op>)
    ensures CommandsIn(v + w) == CommandsIn(v) + CommandsIn(w)
  {
    if v == [] {
      assert v + w == w;
    } else {
      assert (v + w)[1..] == v[1..] + w;
      CommandsInAppend(v[1..], w);
    }
  }

  lemma ExchangeCommands(c: Request)
    ensures CommandsIn(Exchange(c)) == 1
  {
    var v := Exchange(c);
    var end := [Await];
    assert end[1..] == [] && CommandsIn([]) == 0;
    assert CommandsIn(end) == 0;
    if HasPayload(c.0) {
      assert v[1..] == [Send(Data(c.1)), Await] && v[1..][1..] == end;
      assert CommandsIn(v[1..]) == 0;
    } else {
      assert v[1..] == end;
    }
  }

  lemma {:induction false} ExchangesCommands(cs: seq<Request>)
    ensures CommandsIn(Exchanges(cs)) == |cs|
  {
    if cs != [] {
      ExchangeCommands(cs[0]);
      ExchangesCommands(cs[1..]);
      CommandsInAppend(Exchange(cs[0]), Exchanges(cs[1..]));
    }
  }

  lemma {:induction false} PendingCommands(pq: seq<Msg>, rest: seq<Op>, ahead: seq<Request>)
    requires Sends(pq) + rest == Exchanges(ahead)
    ensures CommandsIn(Sends(pq)) <= 1 && CommandsIn(Sends(pq)) + CommandsIn(rest) == |ahead|
    ensures pq == [] ==> CommandsIn(rest) == |ahead|
  {
    ExchangesCommands(ahead);
    CommandsInAppend(Sends(pq), rest);
    assert CommandsIn(Sends([])) == 0;
    if pq != [] {
      SendsHead(pq, rest);
      ExchangeParts(ahead);
      var v := Exchanges(ahead);
      assert v[1..] == Sends(pq[1..]) + rest;
      assert Sends(pq)[1..] == Sends(pq[1..]);
      if !HasPayload(ahead[0].0) {
        NothingPending(pq[1..], rest);
      } else if pq[1..] != [] {
        SendsHead(pq[1..], rest);
        assert v[2] == Await;
        assert v[2..] == Sends(pq[1..][1..]) + rest;
        NothingPending(pq[1..][1..], rest);
        assert Sends(pq[1..])[1..] == [];
      }
    }
  }

  /**
   * A server has completed all commands sent to it but at most one; all of them when the next
   * action starts a command; and not the last one while it is working on a command.
   */
  lemma CommandCounts(c: Chan, sub: Sub, rest: seq<Op>, cs: seq<Request>)
    requires Healthy(c, sub, rest) && Ledger(c, cs, rest)
    ensures |c.log| + CommandsIn(rest) <= |cs| <= |c.log| + CommandsIn(rest) + 1
    ensures InFlight(c.pc) ==> |c.log| + 1 + CommandsIn(rest) == |cs|
    ensures StartsCommand(rest) ==> |c.log| + CommandsIn(rest) == |cs|
  {
    var pq, rq, ahead := ToServer(c), ToController(c), cs[|c.log|..];
    if c.pc == AtCmd {
      if rq == [] {
        PendingCommands(pq, rest, ahead);
      } else {
        ExchangesCommands(ahead);
      }
    } else if c.pc.AtPayload? {
      ExchangesCommands(ahead);
      var v := Sends(pq) + rest;
      assert ([Send(Command(c.pc.cmd))] + v)[1..] == v;
      CommandsInAppend(Sends(pq), rest);
      PayloadPending(c.pc.cmd, pq, rest, ahead);
    } else {
      ExchangesCommands(ahead[1..]);
    }
    if StartsCommand(rest) {
      OnlyCommandReadStartsCommand(c.pc, pq, rq, sub, rest);
    }
  }

  lemma {:induction false} PayloadPending(cmd: Cmd, pq: seq<Msg>, rest: seq<Op>, ahead: seq<Request>)
    requires [Send(Command(cmd))] + (Sends(pq) + rest) == Exchanges(ahead) && ahead != []
    requires HasPayload(cmd) && cmd == ahead[0].0
    ensures CommandsIn(Sends(pq)) == 0
  {
    var all := [Command(cmd)] + pq;
    assert Sends(all) + rest == Exchanges(ahead);
    PendingCommands(all, rest, ahead);
    assert Sends(all)[1..] == Sends(pq);
  }

  // ----- processes

  datatype Status = AllDown | AllUp | Unclear

  /** What a list of completed requests says about the processes of one kind. */
  function StatusAfter(k: Kind, h: seq<Request>): Status {
    if h == [] then AllDown else Next(k, StatusAfter(k, h[..|h| - 1]), h[|h| - 1].0)
  }

  function Next(k: Kind, before: Status, cmd: Cmd): Status {
    if cmd == StartOf(k) then AllUp
    else if cmd == StopOf(k) then AllDown
    else if (cmd == MakeExp || cmd == SetScenario) && before == AllUp then Unclear
    else before
  }

  function ScenarioAfter(h: seq<Request>, first: nat): nat {
    if h == [] then first
    else if h[|h| - 1].0 == SetScenario then ReadInt(h[|h| - 1].1)
    else ScenarioAfter(h[..|h| - 1], first)
  }

  /** The requests whose effect is complete: the log, and the one about to be answered. */
  function Done(c: Chan): seq<Request> {
    c.log + (if c.pc.Reply? then [(c.pc.cmd, c.pc.payload)] else [])
  }

  predicate StoppingKind(pc: Pc, k: Kind) {
    (pc.Stopping? || pc.SendError? || pc.SendReason? || pc.AwaitOk?) && pc.kind == k
  }

  /** Every program of the dictionary runs, started for the given scenario. */
  ghost predicate AllRunning(p: Processes, scenario: nat) {
    forall n :: n in p ==> p[n] == Some(scenario)
  }

  ghost predicate KindMatches(c: Chan, k: Kind) {
    if StoppingKind(c.pc, k) then forall n :: n in c.tables.Of(k) ==> n in c.pc.todo || c.tables.Of(k)[n] == None
    else
      && (StatusAfter(k, Done(c)) == AllUp ==> AllRunning(c.tables.Of(k), c.scenario))
      && (StatusAfter(k, Done(c)) == AllDown ==> AllIdle(c.tables.Of(k)))
  }

  ghost predicate TablesMatch(c: Chan, first: nat) {
    && KindMatches(c, Proxy) && KindMatches(c, Receiver) && KindMatches(c, Sender)
    && c.scenario == ScenarioAfter(Done(c), first)
  }

  lemma DoneGrows(h: seq<Request>, r: Request, k: Kind, first: nat)
    ensures StatusAfter(k, h + [r]) == Next(k, StatusAfter(k, h), r.0)
    ensures ScenarioAfter(h + [r], first) == if r.0 == SetScenario then ReadInt(r.1) else ScenarioAfter(h, first)
  {
    assert (h + [r])[..|h|] == h;
  }

  /** What a command's branch does to the processes of kind k is what the request is counted for. */
  lemma EffectStatus(c: Chan, d: Chan, cmd: Cmd, payload: Bytes, k: Kind, before: Status)
    requires !IsStop(cmd) && cmd != Quit && cmd != MeasureLatency && Effect(cmd, payload, c, d)
    requires before == AllUp ==> AllRunning(c.tables.Of(k), c.scenario)
    requires before == AllDown ==> AllIdle(c.tables.Of(k))
    ensures Next(k, before, cmd) == AllUp ==> AllRunning(d.tables.Of(k), d.scenario)
    ensures Next(k, before, cmd) == AllDown ==> AllIdle(d.tables.Of(k))
    ensures d.pc == c.pc && d.log == c.log && d.scenario == if cmd == SetScenario then ReadInt(payload) else c.scenario
  {
  }

  lemma EffectMatches(c: Chan, d: Chan, k: Kind, first: nat)
    requires c.pc.Busy? && !IsStop(c.pc.cmd) && c.pc.cmd != Quit && c.pc.cmd != MeasureLatency
    requires Effect(c.pc.cmd, c.pc.payload, c.(pc := Reply(c.pc.cmd, c.pc.payload)), d)
    requires KindMatches(c, k) && c.scenario == ScenarioAfter(Done(c), first)
    ensures KindMatches(d, k) && d.scenario == ScenarioAfter(Done(d), first)
  {
    var cmd, payload := c.pc.cmd, c.pc.payload;
    DoneGrows(c.log, (cmd, payload), k, first);
    EffectStatus(c.(pc := Reply(cmd, payload)), d, cmd, payload, k, StatusAfter(k, Done(c)));
    assert Done(c) == c.log && Done(d) == c.log + [(cmd, payload)];
  }

  lemma StopEndMatches(c: Chan, k: Kind, first: nat)
    requires c.pc.Stopping? && c.pc.todo == [] && KindMatches(c, k) && c.scenario == ScenarioAfter(Done(c), first)
    ensures var d := c.(pc := Reply(StopOf(c.pc.kind), []));
            KindMatches(d, k) && d.scenario == ScenarioAfter(Done(d), first)
  {
    var d := c.(pc := Reply(StopOf(c.pc.kind), []));
    assert Done(c) == c.log;
    DoneGrows(c.log, (StopOf(c.pc.kind), []), k, first);
    assert Done(d) == c.log + [(StopOf(c.pc.kind), [])];
  }

  /** The process at the head of the waiting list is gone. */
  lemma CollectMatches(c: Chan, d: Chan, k: Kind, first: nat)
    requires (c.pc.Stopping? || c.pc.AwaitOk?) && c.pc.todo != []
             && KindMatches(c, k) && c.scenario == ScenarioAfter(Done(c), first)
    requires d.pc == Stopping(c.pc.kind, c.pc.todo[1..]) && d.log == c.log && d.scenario == c.scenario
    requires || (d.tables == c.tables && c.pc.todo[0] in c.tables.Of(c.pc.kind)
                 && c.tables.Of(c.pc.kind)[c.pc.todo[0]] == None)
             || d.tables == Collect(c, c.pc.kind, c.pc.todo[0]).tables
    ensures KindMatches(d, k) && d.scenario == ScenarioAfter(Done(d), first)
  {
    assert Done(c) == Done(d) == c.log;
    assert forall n :: n in c.pc.todo <==> n == c.pc.todo[0] || n in c.pc.todo[1..];
  }

  predicate Settled(pc: Pc) {
    Ordinary(pc) && !(pc.Stopping? || pc.AwaitOk? || (pc.Busy? && !IsStop(pc.cmd)))
  }

  /** The other steps leave the processes and the completed requests as they are. */
  lemma SettledStep(c: Chan, d: Chan, k: Kind)
    requires Settled(c.pc) && ServerStep(c, d) && Ordinary(d.pc)
    ensures d.tables == c.tables && d.scenario == c.scenario
    ensures Done(d) == Done(c)
    ensures StoppingKind(c.pc, k) ==> StoppingKind(d.pc, k) && d.pc.todo == c.pc.todo
    ensures StoppingKind(d.pc, k) && !StoppingKind(c.pc, k) ==> ToSet(d.pc.todo) == c.tables.Of(k).Keys
  {
  }

  lemma SettledMatches(c: Chan, d: Chan, k: Kind, first: nat)
    requires Settled(c.pc) && ServerStep(c, d) && Ordinary(d.pc)
    requires KindMatches(c, k) && c.scenario == ScenarioAfter(Done(c), first)
    ensures KindMatches(d, k) && d.scenario == ScenarioAfter(Done(d), first)
  {
    SettledStep(c, d, k);
  }

  lemma ServerKeepsKind(c: Chan, d: Chan, k: Kind, first: nat)
    requires Ordinary(c.pc) && ServerStep(c, d) && Ordinary(d.pc)
    requires KindMatches(c, k) && c.scenario == ScenarioAfter(Done(c), first)
    requires c.pc.Busy? ==> c.pc.cmd != Quit && c.pc.cmd != MeasureLatency
    ensures KindMatches(d, k) && d.scenario == ScenarioAfter(Done(d), first)
  {
    if Settled(c.pc) {
      SettledMatches(c, d, k, first);
    } else if c.pc.Busy? {
      EffectMatches(c, d, k, first);
    } else if c.pc.AwaitOk? {
      CollectMatches(c, d, k, first);
    } else if c.pc.todo == [] {
      StopEndMatches(c, k, first);
    } else if d.pc.Stopping? {
      CollectMatches(c, d, k, first);
    } else {
      assert Done(d) == Done(c);
    }
  }

  lemma ServerKeepsTables(c: Chan, d: Chan, first: nat)
    requires Ordinary(c.pc) && ServerStep(c, d) && Ordinary(d.pc) && TablesMatch(c, first)
    requires c.pc.Busy? ==> c.pc.cmd != Quit && c.pc.cmd != MeasureLatency
    ensures TablesMatch(d, first)
  {
    ServerKeepsKind(c, d, Proxy, first);
    ServerKeepsKind(c, d, Receiver, first);
    ServerKeepsKind(c, d, Sender, first);
  }
}
