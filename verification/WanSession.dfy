/** One connection: the dialogue both ends follow, and why their recv calls stay in step. */
module WanSession {
  import opened Collections
  import opened WanWire

  // ----- the dialogue, as what the controller still does on this connection

  predicate PayloadOk(cmd: Cmd, b: Bytes) {
    && 1 <= |b| <= PayloadSize(cmd)
    && (cmd == SetScenario ==> |b| == 2)
    && (cmd == MakeExp || IsDecimal(b))
  }

  predicate IpOk(b: Bytes) {
    1 <= |b| <= 20
  }

  /** Only wait_for_ready understands an error report, and only stop commands send one. */
  predicate AwaitsReply(cmd: Cmd, op: Op) {
    op == Await || (op == Recv(2) && !IsStop(cmd))
  }

  predicate IdDialogue(v: seq<Op>) {
    && v != [] && v[0].Send? && v[0].msg.Data? && |v[0].msg.bytes| == 2 && IsDecimal(v[0].msg.bytes)
    && SetupDialogue(v[1..])
  }

  predicate SetupDialogue(v: seq<Op>) {
    && v != []
    && if v[0] == Send(Data(MORE)) then SetupIpDialogue(v[1..])
       else v[0] == Send(Data(END)) && |v| >= 2 && v[1] == Recv(2) && MainDialogue(v[2..])
  }

  predicate SetupIpDialogue(v: seq<Op>) {
    && |v| >= 2 && v[0].Send? && v[0].msg.Data? && IpOk(v[0].msg.bytes) && v[1] == Recv(2)
    && SetupDialogue(v[2..])
  }

  predicate MainDialogue(v: seq<Op>)
    decreases |v|, 0
  {
    || v == []
    || (v[0].Send? && v[0].msg.Command? && AfterCommand(v[0].msg.cmd, v[1..]))
  }

  predicate AfterCommand(cmd: Cmd, v: seq<Op>)
    decreases |v|, 3
  {
    if cmd == Quit then v == []
    else if cmd == MeasureLatency then LatencyDialogue(v, 0)
    else if HasPayload(cmd) then
      v != [] && v[0].Send? && v[0].msg.Data? && PayloadOk(cmd, v[0].msg.bytes) && ReplyDialogue(cmd, v[1..])
    else ReplyDialogue(cmd, v)
  }

  predicate ReplyDialogue(cmd: Cmd, v: seq<Op>)
    decreases |v|, 0
  {
    v != [] && AwaitsReply(cmd, v[0]) && MainDialogue(v[1..])
  }

  predicate LatencyDialogue(v: seq<Op>, n: nat)
    decreases |v|, 2
  {
    && v != []
    && if v[0] == Send(Data(MORE)) then LatencyIpDialogue(v[1..], n)
       else v[0] == Send(Data(END)) && ResultDialogue(v[1..], n)
  }

  predicate LatencyIpDialogue(v: seq<Op>, n: nat)
    decreases |v|, 0
  {
    && |v| >= 2 && v[0].Send? && v[0].msg.Data? && IpOk(v[0].msg.bytes) && v[1] == Recv(2)
    && LatencyDialogue(v[2..], n + 1)
  }

  predicate ResultDialogue(v: seq<Op>, n: nat)
    decreases |v|, 1
  {
    if n == 0 then v != [] && AwaitsReply(MeasureLatency, v[0]) && MainDialogue(v[1..])
    else v != [] && v[0] == Recv(8) && OkDialogue(v[1..], n - 1)
  }

  predicate OkDialogue(v: seq<Op>, n: nat)
    decreases |v|, 0
  {
    v != [] && v[0] == Send(Data(OK)) && ResultDialogue(v[1..], n)
  }

  // ----- the invariant of a connection

  function Sends(ms: seq<Msg>): seq<Op> {
    seq(|ms|, i requires 0 <= i < |ms| => Send(ms[i]))
  }

  /** Every recv so far returned exactly one sent message, in order; the rest is in the stream. */
  ghost predicate InStep(sent: seq<Msg>, got: seq<Bytes>, stream: Bytes) {
    && |got| <= |sent|
    && (forall i :: 0 <= i < |got| ==> got[i] == Wire(sent[i]))
    && stream == Flat(sent[|got|..])
  }

  ghost predicate Framed(c: Chan) {
    InStep(c.cSent, c.sGot, c.c2s) && InStep(c.sSent, c.cGot, c.s2c)
  }

  function ToServer(c: Chan): seq<Msg> {
    if |c.sGot| <= |c.cSent| then c.cSent[|c.sGot|..] else []
  }

  function ToController(c: Chan): seq<Msg> {
    if |c.cGot| <= |c.sSent| then c.sSent[|c.cGot|..] else []
  }

  predicate IsReason(m: Msg) {
    m.Data? && 1 <= |m.bytes| <= 200
  }

  /** The ready message is on its way, or the server still has to send it. */
  predicate ReadyComing(rq: seq<Msg>) {
    rq == [Data(READY)]
  }

  /**
   * How the server's point, the undelivered messages pq (to the server) and rq (to the
   * controller), the controller's point in wait_for_ready and its remaining actions fit.
   */
  predicate Fits(pc: Pc, pq: seq<Msg>, rq: seq<Msg>, sub: Sub, rest: seq<Op>) {
    match pc
    case AtId => rq == [] && sub == AtReply && IdDialogue(Sends(pq) + rest)
    case SetupCmd =>
      && sub == AtReply
      && (|| (rq == [] && SetupDialogue(Sends(pq) + rest))
          || (ReadyComing(rq) && pq == [] && rest != [] && rest[0] == Recv(2) && SetupDialogue(rest[1..])))
    case SetupIp => rq == [] && sub == AtReply && SetupIpDialogue(Sends(pq) + rest)
    case SetupAck => pq == rq == [] && sub == AtReply && rest != [] && rest[0] == Recv(2) && SetupDialogue(rest[1..])
    case SetupDone => pq == rq == [] && sub == AtReply && rest != [] && rest[0] == Recv(2) && MainDialogue(rest[1..])
    case AtCmd =>
      && sub == AtReply
      && (|| (rq == [] && MainDialogue(Sends(pq) + rest))
          || (ReadyComing(rq) && pq == [] && rest != []
              && (rest[0] == Await || rest[0] == Recv(2)) && MainDialogue(rest[1..])))
    case AtPayload(cmd) => rq == [] && sub == AtReply && HasPayload(cmd) && AfterCommand(cmd, Sends(pq) + rest)
    case Busy(cmd, payload) =>
      && pq == rq == [] && sub == AtReply && ReplyDialogue(cmd, rest)
      && cmd != MeasureLatency && cmd != Quit
      && (if HasPayload(cmd) then PayloadOk(cmd, payload) else payload == [])
    case Stopping(k, todo) => pq == rq == [] && sub == AtReply && ReplyDialogue(StopOf(k), rest)
    case SendError(k, todo) => pq == rq == [] && sub == AtReply && todo != [] && ReplyDialogue(StopOf(k), rest)
    case SendReason(k, todo) =>
      && pq == [] && todo != [] && ReplyDialogue(StopOf(k), rest)
      && ((sub == AtReply && rq == [Data(ERROR)]) || (sub == AtReason && rq == []))
    case AwaitOk(k, todo) =>
      && todo != [] && ReplyDialogue(StopOf(k), rest)
      && (|| (sub == AtReply && pq == [] && |rq| == 2 && rq[0] == Data(ERROR) && IsReason(rq[1]))
          || (sub == AtReason && pq == [] && |rq| == 1 && IsReason(rq[0]))
          || (sub == AtOk && pq == [] && rq == [])
          || (sub == AtReply && pq == [Data(OK)] && rq == []))
    case Reply(cmd, payload) => pq == rq == [] && sub == AtReply && ReplyDialogue(cmd, rest)
    case ReplyUnknown => false
    case LatencyCmd(n) =>
      && sub == AtReply
      && (|| (rq == [] && LatencyDialogue(Sends(pq) + rest, n))
          || (ReadyComing(rq) && pq == [] && rest != [] && rest[0] == Recv(2) && LatencyDialogue(rest[1..], n)))
    case LatencyIp(n) => rq == [] && sub == AtReply && LatencyIpDialogue(Sends(pq) + rest, n)
    case LatencyAck(n) =>
      pq == rq == [] && sub == AtReply && rest != [] && rest[0] == Recv(2) && LatencyDialogue(rest[1..], n)
    case LatencySend(n) => pq == rq == [] && sub == AtReply && ResultDialogue(rest, n)
    case LatencyWait(n) =>
      && sub == AtReply
      && (|| (rq == [] && OkDialogue(Sends(pq) + rest, n))
          || (pq == [] && |rq| == 1 && |Wire(rq[0])| == 8
              && rest != [] && rest[0] == Recv(8) && OkDialogue(rest[1..], n)))
    case Stopped => pq == rq == [] && sub == AtReply && rest == []
    case Crashed => false
  }

  /** A termination branch waits for names of its own dictionary only. */
  ghost predicate WaitsForOwn(c: Chan) {
    (c.pc.Stopping? || c.pc.SendError? || c.pc.SendReason? || c.pc.AwaitOk?) ==>
      ToSet(c.pc.todo) <= c.tables.Of(c.pc.kind).Keys
  }

  ghost predicate Healthy(c: Chan, sub: Sub, rest: seq<Op>) {
    Framed(c) && WaitsForOwn(c) && Fits(c.pc, ToServer(c), ToController(c), sub, rest)
  }

  // ----- the controller's side of one action

  /** The controller's next step on the connection its current action concerns. */
  ghost predicate ControllerStep(c: Chan, sub: Sub, rest: seq<Op>, c': Chan, sub': Sub, rest': seq<Op>) {
    && rest != []
    && match rest[0]
       case Send(m) => c' == CSend(c, m) && sub' == sub && rest' == rest[1..]
       case Recv(n) => c.s2c != [] && c' == CRecv(c, n) && sub' == sub && rest' == rest[1..]
       case Await =>
         match sub
         case AtReply =>
           && c.s2c != [] && c' == CRecv(c, 2)
           && (if Take(c.s2c, 2) == ERROR then sub' == AtReason && rest' == rest
               else sub' == AtReply && rest' == rest[1..])
         case AtReason => c.s2c != [] && c' == CRecv(c, 200) && sub' == AtOk && rest' == rest
         case AtOk => c' == CSend(c, Data(OK)) && sub' == AtReply && rest' == rest
  }

  // ----- streams and messages

  lemma SendInStep(sent: seq<Msg>, got: seq<Bytes>, stream: Bytes, m: Msg)
    requires InStep(sent, got, stream)
    ensures InStep(sent + [m], got, stream + Wire(m))
    ensures (sent + [m])[|got|..] == sent[|got|..] + [m]
  {
    FlatSnoc(sent[|got|..], m);
    assert (sent + [m])[|got|..] == sent[|got|..] + [m];
  }

  /** A recv that asks for the exact size, or finds a short message alone, gets the whole message. */
  lemma RecvInStep(sent: seq<Msg>, got: seq<Bytes>, stream: Bytes, n: nat)
    requires InStep(sent, got, stream) && |got| < |sent|
    requires |Wire(sent[|got|])| == n || (|sent| == |got| + 1 && |Wire(sent[|got|])| <= n)
    ensures Take(stream, n) == Wire(sent[|got|])
    ensures InStep(sent, got + [Take(stream, n)], stream[|Take(stream, n)|..])
    ensures sent[|got + [Take(stream, n)]|..] == sent[|got|..][1..]
  {
    var m, q := sent[|got|], sent[|got|..];
    assert q[0] == m && q[1..] == sent[|got| + 1..];
    assert stream == Wire(m) + Flat(q[1..]);
    if |sent| == |got| + 1 {
      assert q[1..] == [];
    }
  }

  /** Sending moves an action from `rest` into the stream; the dialogue ahead of the server is the same. */
  lemma SendKeepsDialogue(ms: seq<Msg>, rest: seq<Op>)
    requires rest != [] && rest[0].Send?
    ensures Sends(ms + [rest[0].msg]) + rest[1..] == Sends(ms) + rest
  {
  }

  /** The controller's step keeps a connection healthy. */
  lemma ControllerKeepsHealthy(c: Chan, sub: Sub, rest: seq<Op>, c': Chan, sub': Sub, rest': seq<Op>)
    requires Healthy(c, sub, rest) && ControllerStep(c, sub, rest, c', sub', rest')
    ensures Healthy(c', sub', rest')
  {
    if rest[0].Send? {
      HealthySend(c, sub, rest, rest[0].msg, sub, rest[1..]);
    } else if sub == AtOk && rest[0].Await? {
      HealthySend(c, sub, rest, Data(OK), AtReply, rest);
    } else {
      HealthyRecv(c, sub, rest, if rest[0].Recv? then rest[0].size else if sub == AtReply then 2 else 200, sub', rest');
    }
  }

  lemma HealthySend(c: Chan, sub: Sub, rest: seq<Op>, m: Msg, sub': Sub, rest': seq<Op>)
    requires Healthy(c, sub, rest) && rest != []
    requires if rest[0].Send? then m == rest[0].msg && sub' == sub && rest' == rest[1..]
             else rest[0] == Await && sub == AtOk && m == Data(OK) && sub' == AtReply && rest' == rest
    ensures Healthy(CSend(c, m), sub', rest')
  {
    SendInStep(c.cSent, c.sGot, c.c2s, m);
    if rest[0].Send? {
      ControllerSends(c.pc, ToServer(c), ToController(c), sub, rest);
    } else {
      ControllerAwaits(c.pc, ToServer(c), ToController(c), sub, rest);
    }
  }

  lemma HealthyRecv(c: Chan, sub: Sub, rest: seq<Op>, n: nat, sub': Sub, rest': seq<Op>)
    requires Healthy(c, sub, rest) && ControllerStep(c, sub, rest, CRecv(c, n), sub', rest') && c.s2c != []
    requires rest[0].Recv? || (rest[0].Await? && sub != AtOk)
    requires n == if rest[0].Recv? then rest[0].size else if sub == AtReply then 2 else 200
    ensures Healthy(CRecv(c, n), sub', rest')
  {
    ReplyWaits(c, sub, rest);
    if rest[0].Recv? {
      ControllerReceives(c.pc, ToServer(c), ToController(c), sub, rest);
    } else {
      ControllerAwaits(c.pc, ToServer(c), ToController(c), sub, rest);
    }
    RecvInStep(c.sSent, c.cGot, c.s2c, n);
  }

  /** A non-empty stream to the controller holds an undelivered message. */
  lemma ReplyWaits(c: Chan, sub: Sub, rest: seq<Op>)
    requires Framed(c) && c.s2c != []
    ensures ToController(c) != [] && ToController(c)[0] == c.sSent[|c.cGot|]
    ensures |c.sSent| == |c.cGot| + |ToController(c)|
  {
  }

  lemma ControllerSends(pc: Pc, pq: seq<Msg>, rq: seq<Msg>, sub: Sub, rest: seq<Op>)
    requires Fits(pc, pq, rq, sub, rest) && rest != [] && rest[0].Send?
    ensures Fits(pc, pq + [rest[0].msg], rq, sub, rest[1..])
  {
    SendKeepsDialogue(pq, rest);
  }

  lemma ControllerReceives(pc: Pc, pq: seq<Msg>, rq: seq<Msg>, sub: Sub, rest: seq<Op>)
    requires Fits(pc, pq, rq, sub, rest) && rest != [] && rest[0].Recv? && rq != []
    ensures |Wire(rq[0])| == rest[0].size
    ensures Fits(pc, pq, rq[1..], sub, rest[1..])
  {
    assert Sends([]) + rest[1..] == rest[1..];
  }

  lemma ControllerAwaits(pc: Pc, pq: seq<Msg>, rq: seq<Msg>, sub: Sub, rest: seq<Op>)
    requires Fits(pc, pq, rq, sub, rest) && rest != [] && rest[0].Await?
    ensures sub == AtReply && rq != [] ==>
              && |Wire(rq[0])| == 2
              && (if Wire(rq[0]) == ERROR then Fits(pc, pq, rq[1..], AtReason, rest)
                  else Fits(pc, pq, rq[1..], AtReply, rest[1..]))
    ensures sub == AtReason && rq != [] ==> |rq| == 1 && |Wire(rq[0])| <= 200 && Fits(pc, pq, rq[1..], AtOk, rest)
    ensures sub == AtOk ==> Fits(pc, pq + [Data(OK)], rq, AtReply, rest)
  {
    assert Sends([]) + rest[1..] == rest[1..];
  }

  // ----- the server's side of one action

  lemma RequestWaits(c: Chan)
    requires Framed(c) && c.c2s != []
    ensures ToServer(c) != [] && ToServer(c)[0] == c.cSent[|c.sGot|]
    ensures |c.cSent| == |c.sGot| + |ToServer(c)|
  {
  }

  /** The size that the server's next recv asks for. */
  function Asks(pc: Pc): nat {
    match pc
    case AtPayload(cmd) => PayloadSize(cmd)
    case SetupIp => 20
    case LatencyIp(_) => 20
    case _ => 2
  }

  predicate Receiving(pc: Pc) {
    pc.AtId? || pc.SetupCmd? || pc.SetupIp? || pc.AtCmd? || pc.AtPayload? || pc.AwaitOk? ||
    pc.LatencyCmd? || pc.LatencyIp? || pc.LatencyWait?
  }

  /** The first undelivered message heads the dialogue. */
  lemma SendsHead(pq: seq<Msg>, rest: seq<Op>)
    requires pq != []
    ensures (Sends(pq) + rest)[0] == Send(pq[0])
    ensures (Sends(pq) + rest)[1..] == Sends(pq[1..]) + rest
  {
  }

  /** A dialogue that goes on with an answer has nothing undelivered. */
  lemma NothingPending(pq: seq<Msg>, rest: seq<Op>)
    requires Sends(pq) + rest == [] || !(Sends(pq) + rest)[0].Send?
    ensures pq == [] && Sends(pq) + rest == rest
  {
    if pq != [] {
      SendsHead(pq, rest);
    }
  }

  lemma AnswerNext(cmd: Cmd, pq: seq<Msg>, rest: seq<Op>)
    requires ReplyDialogue(cmd, Sends(pq) + rest)
    ensures pq == [] && ReplyDialogue(cmd, rest)
  {
    NothingPending(pq, rest);
  }

  /** Whatever the server is about to receive is either exactly as long as it asks, or alone and no longer. */
  lemma ServerAsksWell(pc: Pc, pq: seq<Msg>, rq: seq<Msg>, sub: Sub, rest: seq<Op>)
    requires Fits(pc, pq, rq, sub, rest) && Receiving(pc) && pq != []
    ensures |Wire(pq[0])| == Asks(pc) || (|pq| == 1 && |Wire(pq[0])| <= Asks(pc))
  {
    SendsHead(pq, rest);
    match pc
    case SetupIp => NothingPending(pq[1..], rest);
    case LatencyIp(n) => NothingPending(pq[1..], rest);
    case AtPayload(cmd) => AnswerNext(cmd, pq[1..], rest);
    case AtCmd => DecodeCode(pq[0].cmd);
    case _ =>
  }

  lemma ReceivedInSetup(c: Chan, d: Chan, pq: seq<Msg>, rq: seq<Msg>, sub: Sub, rest: seq<Op>)
    requires Fits(c.pc, pq, rq, sub, rest) && pq != []
    requires c.pc.AtId? || c.pc.SetupCmd? || c.pc.SetupIp?
    requires c.c2s != [] && Take(c.c2s, Asks(c.pc)) == Wire(pq[0]) && ServerStep(c, d)
    ensures Fits(d.pc, pq[1..], rq, sub, rest)
  {
    SendsHead(pq, rest);
    if c.pc.SetupIp? || (c.pc.SetupCmd? && Wire(pq[0]) == END) {
      NothingPending(pq[1..], rest);
    }
  }

  lemma ReceivedInLatency(c: Chan, d: Chan, pq: seq<Msg>, rq: seq<Msg>, sub: Sub, rest: seq<Op>)
    requires Fits(c.pc, pq, rq, sub, rest) && pq != []
    requires c.pc.LatencyCmd? || c.pc.LatencyIp? || c.pc.LatencyWait?
    requires c.c2s != [] && Take(c.c2s, Asks(c.pc)) == Wire(pq[0]) && ServerStep(c, d)
    ensures Fits(d.pc, pq[1..], rq, sub, rest)
  {
    SendsHead(pq, rest);
    if c.pc.LatencyIp? {
      NothingPending(pq[1..], rest);
    } else if c.pc.LatencyWait? || Wire(pq[0]) == END {
      assert ResultDialogue(Sends(pq[1..]) + rest, c.pc.n);
      NothingPending(pq[1..], rest);
    }
  }

  lemma ReceivedPayload(c: Chan, d: Chan, pq: seq<Msg>, rq: seq<Msg>, sub: Sub, rest: seq<Op>)
    requires c.pc.AtPayload? && Fits(c.pc, pq, rq, sub, rest) && pq != []
    requires c.c2s != [] && Take(c.c2s, Asks(c.pc)) == Wire(pq[0]) && ServerStep(c, d)
    ensures Fits(d.pc, pq[1..], rq, sub, rest)
  {
    SendsHead(pq, rest);
    AnswerNext(c.pc.cmd, pq[1..], rest);
  }

  lemma ReceivedCommand(c: Chan, d: Chan, pq: seq<Msg>, rq: seq<Msg>, sub: Sub, rest: seq<Op>)
    requires c.pc.AtCmd? && Fits(c.pc, pq, rq, sub, rest) && pq != []
    requires c.c2s != [] && Take(c.c2s, 2) == Wire(pq[0]) && ServerStep(c, d)
    ensures Fits(d.pc, pq[1..], rq, sub, rest)
  {
    SendsHead(pq, rest);
    var cmd := pq[0].cmd;
    DecodeCode(cmd);
    var v := Sends(pq[1..]) + rest;
    assert AfterCommand(cmd, v);
    if cmd == Quit {
      NothingPending(pq[1..], rest);
    } else if cmd == MeasureLatency {
      assert LatencyDialogue(v, 0);
    } else if !HasPayload(cmd) {
      AnswerNext(cmd, pq[1..], rest);
    }
  }

  /** The server's local and sending points. */
  lemma MovedOn(c: Chan, d: Chan, sub: Sub, rest: seq<Op>)
    requires Healthy(c, sub, rest) && !Receiving(c.pc) && ServerStep(c, d)
    requires d == c.(pc := d.pc, tables := d.tables, scenario := d.scenario)
    requires WaitsForOwn(d)
    ensures Healthy(d, sub, rest)
  {
  }

  lemma SentOn(c: Chan, d: Chan, m: Msg, pq: seq<Msg>, rq: seq<Msg>, sub: Sub, rest: seq<Op>)
    requires Fits(c.pc, pq, rq, sub, rest) && !Receiving(c.pc) && ServerStep(c, d)
    requires d == SSend(c, m).(pc := d.pc, log := d.log)
    ensures Fits(d.pc, pq, rq + [m], sub, rest)
  {
    assert d.sSent[|c.sSent|] == m;
    if c.pc.SendError? || c.pc.SendReason? {
      SentError(c, d, m, pq, rq, sub, rest);
    } else if c.pc.LatencySend? || c.pc.LatencyAck? {
      SentLatency(c, d, m, rest);
    } else {
      SentReady(c, d, m, rest);
    }
  }

  lemma SentError(c: Chan, d: Chan, m: Msg, pq: seq<Msg>, rq: seq<Msg>, sub: Sub, rest: seq<Op>)
    requires c.pc.SendError? || c.pc.SendReason?
    requires Fits(c.pc, pq, rq, sub, rest) && ServerStep(c, d)
    requires d == SSend(c, m).(pc := d.pc, log := d.log)
    ensures Fits(d.pc, pq, rq + [m], sub, rest)
  {
    assert d.sSent[|c.sSent|] == m;
    assert Sends([]) + rest == rest;
  }

  lemma SentReady(c: Chan, d: Chan, m: Msg, rest: seq<Op>)
    requires c.pc.SetupAck? || c.pc.SetupDone? || c.pc.Reply?
    requires Fits(c.pc, [], [], AtReply, rest) && ServerStep(c, d)
    requires d == SSend(c, m).(pc := d.pc, log := d.log)
    ensures Fits(d.pc, [], [m], AtReply, rest)
  {
    assert d.sSent[|c.sSent|] == m;
  }

  lemma SentLatency(c: Chan, d: Chan, m: Msg, rest: seq<Op>)
    requires c.pc.LatencySend? || c.pc.LatencyAck?
    requires Fits(c.pc, [], [], AtReply, rest) && ServerStep(c, d)
    requires d == SSend(c, m).(pc := d.pc, log := d.log)
    ensures Fits(d.pc, [], [m], AtReply, rest)
  {
    assert d.sSent[|c.sSent|] == m;
    if c.pc.LatencySend? {
      assert ResultDialogue(rest, c.pc.n);
    }
  }

  lemma SendsOrMoves(c: Chan, d: Chan)
    requires !Receiving(c.pc) && ServerStep(c, d)
    ensures || d == c.(pc := d.pc, tables := d.tables, scenario := d.scenario)
            || (|d.sSent| == |c.sSent| + 1 && d == SSend(c, d.sSent[|c.sSent|]).(pc := d.pc, log := d.log))
  {
  }

  lemma SendFrames(c: Chan, d: Chan, m: Msg)
    requires Framed(c) && d == SSend(c, m).(pc := d.pc, log := d.log)
    ensures Framed(d) && ToServer(d) == ToServer(c) && ToController(d) == ToController(c) + [m]
  {
    SendInStep(c.sSent, c.cGot, c.s2c, m);
  }

  lemma MovedOnSending(c: Chan, d: Chan, m: Msg, sub: Sub, rest: seq<Op>)
    requires Healthy(c, sub, rest) && !Receiving(c.pc) && ServerStep(c, d)
    requires d == SSend(c, m).(pc := d.pc, log := d.log)
    requires WaitsForOwn(d)
    ensures Healthy(d, sub, rest)
  {
    SendFrames(c, d, m);
    SentOn(c, d, m, ToServer(c), ToController(c), sub, rest);
  }

  lemma WaitsOn(c: Chan, d: Chan)
    requires WaitsForOwn(c) && ServerStep(c, d)
    ensures WaitsForOwn(d)
  {
    match c.pc
    case Stopping(k, todo) => TailWithin(todo, c.tables.Of(k).Keys);
    case AwaitOk(k, todo) => TailWithin(todo, c.tables.Of(k).Keys);
    case _ =>
  }

  lemma TailWithin(todo: seq<Name>, keys: set<Name>)
    requires ToSet(todo) <= keys
    ensures todo != [] ==> todo[0] in keys && ToSet(todo[1..]) <= keys
  {
    if todo != [] {
      assert todo[0] in ToSet(todo);
      assert ToSet(todo[1..]) <= ToSet(todo);
    }
  }

  lemma ServerKeepsHealthy(c: Chan, sub: Sub, rest: seq<Op>, d: Chan)
    requires Healthy(c, sub, rest) && ServerStep(c, d)
    ensures Healthy(d, sub, rest)
  {
    WaitsOn(c, d);
    if Receiving(c.pc) {
      ReceivedOne(c, sub, rest, d);
    } else {
      SendsOrMoves(c, d);
      if d.sSent == c.sSent {
        MovedOn(c, d, sub, rest);
      } else {
        MovedOnSending(c, d, d.sSent[|c.sSent|], sub, rest);
      }
    }
  }

  lemma ReceivingTakesOne(c: Chan, d: Chan)
    requires ServerStep(c, d) && Receiving(c.pc)
    ensures c.c2s != [] && d.cSent == c.cSent && d.sSent == c.sSent && d.cGot == c.cGot && d.s2c == c.s2c
    ensures d.sGot == c.sGot + [Take(c.c2s, Asks(c.pc))] && d.c2s == c.c2s[|Take(c.c2s, Asks(c.pc))|..]
  {
  }

  lemma ReceivedOne(c: Chan, sub: Sub, rest: seq<Op>, d: Chan)
    requires Healthy(c, sub, rest) && ServerStep(c, d) && Receiving(c.pc)
    requires WaitsForOwn(d)
    ensures Healthy(d, sub, rest)
  {
    ReceivingTakesOne(c, d);
    RequestWaits(c);
    ServerAsksWell(c.pc, ToServer(c), ToController(c), sub, rest);
    RecvInStep(c.cSent, c.sGot, c.c2s, Asks(c.pc));
    ReceivedFits(c, d, ToServer(c), ToController(c), sub, rest);
  }

  lemma ReceivedFits(c: Chan, d: Chan, pq: seq<Msg>, rq: seq<Msg>, sub: Sub, rest: seq<Op>)
    requires Fits(c.pc, pq, rq, sub, rest) && Receiving(c.pc) && pq != []
    requires c.c2s != [] && Take(c.c2s, Asks(c.pc)) == Wire(pq[0]) && ServerStep(c, d)
    ensures Fits(d.pc, pq[1..], rq, sub, rest)
  {
    if c.pc.AtCmd? {
      ReceivedCommand(c, d, pq, rq, sub, rest);
    } else if c.pc.AtPayload? {
      ReceivedPayload(c, d, pq, rq, sub, rest);
    } else if c.pc.AwaitOk? {
      assert d.pc == Stopping(c.pc.kind, c.pc.todo[1..]) && pq == [Data(OK)];
    } else if c.pc.LatencyCmd? || c.pc.LatencyIp? || c.pc.LatencyWait? {
      ReceivedInLatency(c, d, pq, rq, sub, rest);
    } else {
      ReceivedInSetup(c, d, pq, rq, sub, rest);
    }
  }

  // ----- progress

  predicate StartsCommand(rest: seq<Op>) {
    rest != [] && rest[0].Send? && rest[0].msg.Command?
  }

  // Inside a dialogue the controller's next action is never the start of a command.

  lemma InsideReply(cmd: Cmd, pq: seq<Msg>, rest: seq<Op>)
    requires ReplyDialogue(cmd, Sends(pq) + rest)
    ensures !StartsCommand(rest)
  {
    AnswerNext(cmd, pq, rest);
  }

  lemma InsideSetup(pq: seq<Msg>, rest: seq<Op>)
    requires SetupDialogue(Sends(pq) + rest) || SetupIpDialogue(Sends(pq) + rest) || IdDialogue(Sends(pq) + rest)
    ensures !StartsCommand(rest)
    decreases |pq|
  {
    if pq == [] {
      assert Sends(pq) + rest == rest;
    } else {
      SendsHead(pq, rest);
      if SetupIpDialogue(Sends(pq) + rest) || Wire(pq[0]) == END {
        InsideAnswer(pq[1..], rest);
      } else {
        InsideSetup(pq[1..], rest);
      }
    }
  }

  lemma InsideAnswer(pq: seq<Msg>, rest: seq<Op>)
    ensures Sends(pq) + rest != [] && !(Sends(pq) + rest)[0].Send? ==> !StartsCommand(rest)
  {
    if Sends(pq) + rest != [] && !(Sends(pq) + rest)[0].Send? {
      NothingPending(pq, rest);
    }
  }

  lemma InsideLatency(pq: seq<Msg>, rest: seq<Op>, n: nat)
    requires LatencyDialogue(Sends(pq) + rest, n) || LatencyIpDialogue(Sends(pq) + rest, n)
          || OkDialogue(Sends(pq) + rest, n) || ResultDialogue(Sends(pq) + rest, n)
    ensures !StartsCommand(rest)
    decreases |pq|
  {
    var v := Sends(pq) + rest;
    if pq == [] {
      assert v == rest;
    } else {
      SendsHead(pq, rest);
      if LatencyIpDialogue(v, n) {
        InsideAnswer(pq[1..], rest);
      } else if OkDialogue(v, n) || LatencyDialogue(v, n) {
        InsideLatency(pq[1..], rest, n);
      }
    }
  }

  lemma InsideCommand(cmd: Cmd, pq: seq<Msg>, rest: seq<Op>)
    requires AfterCommand(cmd, Sends(pq) + rest)
    ensures !StartsCommand(rest)
  {
    if cmd == Quit {
      NothingPending(pq, rest);
    } else if cmd == MeasureLatency {
      InsideLatency(pq, rest, 0);
    } else if HasPayload(cmd) {
      if pq == [] {
        assert Sends(pq) + rest == rest;
      } else {
        SendsHead(pq, rest);
        InsideReply(cmd, pq[1..], rest);
      }
    } else {
      InsideReply(cmd, pq, rest);
    }
  }

  lemma OnlyCommandReadStartsCommand(pc: Pc, pq: seq<Msg>, rq: seq<Msg>, sub: Sub, rest: seq<Op>)
    requires Fits(pc, pq, rq, sub, rest) && StartsCommand(rest)
    ensures pc == AtCmd && pq == [] && rq == [] && sub == AtReply && MainDialogue(rest)
  {
    if rq == [] && (pc.AtId? || pc.SetupCmd? || pc.SetupIp?) {
      InsideSetup(pq, rest);
    } else if rq == [] && (pc.LatencyCmd? || pc.LatencyIp? || pc.LatencyWait?) {
      InsideLatency(pq, rest, pc.n);
    } else if pc.AtPayload? {
      InsideCommand(pc.cmd, pq, rest);
    } else if pc.AtCmd? && pq != [] {
      SendsHead(pq, rest);
      InsideCommand(pq[0].cmd, pq[1..], rest);
    } else if pc.AtCmd? {
      assert Sends([]) + rest == rest;
    }
  }

  /** At the start of a command the connection is quiet: both streams empty, the server at its command read. */
  lemma QuietAtCommand(c: Chan, sub: Sub, rest: seq<Op>)
    requires Healthy(c, sub, rest) && StartsCommand(rest)
    ensures c.pc == AtCmd && c.c2s == [] && c.s2c == [] && sub == AtReply
    ensures |c.sGot| == |c.cSent| && |c.cGot| == |c.sSent| && MainDialogue(rest)
  {
    OnlyCommandReadStartsCommand(c.pc, ToServer(c), ToController(c), sub, rest);
    assert Flat([]) == [];
  }

  /**
   * How much can still happen on the connection before the controller's next action is over:
   * a server step lowers it, and so does each step of the controller inside wait_for_ready.
   */
  function Work(c: Chan, sub: Sub): nat {
    match c.pc
    case AtId => if c.c2s == [] then 0 else 6
    case SetupCmd => if c.c2s == [] then 0 else 4
    case SetupIp => 3
    case SetupAck => 2
    case SetupDone => 2
    case AtCmd => if c.c2s == [] then 0 else 6 + 10 * c.tables.Size()
    case AtPayload(_) => 5 + 10 * c.tables.Size()
    case Busy(_, _) => 4 + 10 * c.tables.Size()
    case Stopping(_, todo) => 2 + 10 * |todo|
    case SendError(_, todo) => 1 + 10 * |todo|
    case SendReason(_, todo) => 10 * |todo| - (if todo == [] then 0 else if sub == AtReply then 0 else 1)
    case AwaitOk(_, todo) =>
      if todo == [] then 0
      else 10 * |todo| - (if sub == AtReply then (if c.c2s == [] then 1 else 4) else if sub == AtReason then 2 else 3)
    case Reply(_, _) => 1
    case ReplyUnknown => 1
    case LatencyCmd(_) => if c.c2s == [] then 0 else 4
    case LatencyIp(_) => 3
    case LatencyAck(_) => 2
    case LatencySend(_) => 2
    case LatencyWait(_) => if c.c2s == [] then 1 else 3
    case Stopped => 0
    case Crashed => 0
  }

  lemma EmptyQueue(c: Chan)
    requires Framed(c) && ToServer(c) == []
    ensures c.c2s == []
  {
  }

  lemma ServerWorks(c: Chan, sub: Sub, rest: seq<Op>, d: Chan)
    requires Healthy(c, sub, rest) && ServerStep(c, d)
    ensures Work(d, sub) < Work(c, sub)
  {
    if c.pc.AtCmd? || c.pc.AtPayload? || c.pc.Busy? {
      CommandWorks(c, d, sub);
    } else if c.pc.Stopping? {
      StoppingWorks(c, d, sub);
    } else if c.pc.SendError? || c.pc.SendReason? || c.pc.AwaitOk? {
      if c.pc.AwaitOk? {
        RequestWaits(c);
      } else {
        EmptyQueue(c);
      }
      ErrorWorks(c, d, sub);
    } else {
      if !Receiving(c.pc) {
        EmptyQueue(c);
      }
      LoopWorks(c, d, sub);
    }
  }

  lemma CommandWorks(c: Chan, d: Chan, sub: Sub)
    requires c.pc.AtCmd? || c.pc.AtPayload? || c.pc.Busy?
    requires ServerStep(c, d)
    ensures Work(d, sub) < Work(c, sub)
  {
    if c.pc.AtCmd? {
      ReadWorks(c, d, sub);
    } else if c.pc.Busy? {
      BusyWorks(c, d, sub);
    }
  }

  lemma EnterWorks(c: Chan, cmd: Option<Cmd>, sub: Sub)
    ensures Work(Enter(c, cmd), sub) < 6 + 10 * c.tables.Size()
  {
  }

  lemma ReadWorks(c: Chan, d: Chan, sub: Sub)
    requires c.pc.AtCmd? && ServerStep(c, d)
    ensures Work(d, sub) < Work(c, sub)
  {
    EnterWorks(SRecv(c, 2), Decode(Take(c.c2s, 2)), sub);
  }

  lemma BusyWorks(c: Chan, d: Chan, sub: Sub)
    requires c.pc.Busy? && ServerStep(c, d)
    ensures Work(d, sub) < Work(c, sub)
  {
    if IsStop(c.pc.cmd) {
      var p := c.tables.Of(StopKind(c.pc.cmd));
      NoDupSize(d.pc.todo);
      assert |d.pc.todo| == |p.Keys| == |p|;
      assert |p| <= c.tables.Size();
    } else {
      assert d.pc == Reply(c.pc.cmd, c.pc.payload);
    }
  }

  lemma ErrorWorks(c: Chan, d: Chan, sub: Sub)
    requires c.pc.SendError? || c.pc.SendReason? || c.pc.AwaitOk?
    requires ServerStep(c, d) && c.pc.todo != [] && sub != AtOk
    requires if c.pc.AwaitOk? then sub == AtReply else c.c2s == []
    ensures Work(d, sub) < Work(c, sub)
  {
    if c.pc.AwaitOk? {
      OkWorks(c, d);
    } else if c.pc.SendError? {
      assert d.pc == SendReason(c.pc.kind, c.pc.todo);
    } else {
      ReasonWorks(c, d, sub);
    }
  }

  lemma OkWorks(c: Chan, d: Chan)
    requires c.pc.AwaitOk? && ServerStep(c, d)
    ensures Work(d, AtReply) < Work(c, AtReply)
  {
    assert d.pc == Stopping(c.pc.kind, c.pc.todo[1..]);
  }

  lemma ReasonWorks(c: Chan, d: Chan, sub: Sub)
    requires c.pc.SendReason? && c.pc.todo != [] && c.c2s == [] && ServerStep(c, d) && sub != AtOk
    ensures Work(d, sub) < Work(c, sub)
  {
    var reason: Bytes :| d == SSend(c, Data(reason)).(pc := AwaitOk(c.pc.kind, c.pc.todo));
    assert d.c2s == [];
  }

  lemma StoppingWorks(c: Chan, d: Chan, sub: Sub)
    requires c.pc.Stopping? && ServerStep(c, d)
    ensures Work(d, sub) < Work(c, sub)
  {
    var todo := c.pc.todo;
    if todo == [] {
      assert d.pc.Reply?;
    } else {
      assert d.pc == Stopping(c.pc.kind, todo[1..]) || d.pc == SendError(c.pc.kind, todo);
    }
  }

  lemma LoopWorks(c: Chan, d: Chan, sub: Sub)
    requires !c.pc.AtCmd? && !c.pc.AtPayload? && !c.pc.Busy?
    requires !c.pc.Stopping? && !c.pc.SendError? && !c.pc.SendReason? && !c.pc.AwaitOk?
    requires ServerStep(c, d) && (!Receiving(c.pc) ==> c.c2s == [])
    ensures Work(d, sub) < Work(c, sub)
  {
  }

  /** A step inside wait_for_ready that does not end it. */
  lemma AwaitWorks(c: Chan, sub: Sub, rest: seq<Op>, c': Chan, sub': Sub)
    requires Healthy(c, sub, rest) && ControllerStep(c, sub, rest, c', sub', rest)
    requires rest != [] && rest[0].Await?
    ensures Work(c', sub') < Work(c, sub)
  {
    assert rest != rest[1..];
    if sub != AtOk {
      ReplyWaits(c, sub, rest);
    }
    AwaitPoint(c.pc, ToServer(c), ToController(c), sub, rest);
    if ToServer(c) == [] {
      EmptyQueue(c);
    }
    if sub == AtReply {
      RecvInStep(c.sSent, c.cGot, c.s2c, 2);
    }
  }

  /** Only an error report keeps the controller inside wait_for_ready. */
  lemma AwaitPoint(pc: Pc, pq: seq<Msg>, rq: seq<Msg>, sub: Sub, rest: seq<Op>)
    requires Fits(pc, pq, rq, sub, rest) && rest != [] && rest[0].Await?
    ensures sub == AtReply && rq != [] ==>
              |Wire(rq[0])| == 2 &&
              (Wire(rq[0]) == ERROR ==> pq == [] && (pc.SendReason? || pc.AwaitOk?) && pc.todo != [])
    ensures sub == AtReason && rq != [] ==> pq == [] && pc.AwaitOk? && pc.todo != []
    ensures sub == AtOk ==> pq == [] && pc.AwaitOk? && pc.todo != []
  {
  }

  ghost predicate CanStep(c: Chan) {
    exists d :: ServerStep(c, d)
  }

  ghost predicate ControllerCanStep(c: Chan, sub: Sub, rest: seq<Op>) {
    exists c', sub', rest' :: ControllerStep(c, sub, rest, c', sub', rest')
  }

  /** When the server is not at a recv it can always go on. */
  lemma LocalCanStep(c: Chan)
    requires WaitsForOwn(c) && !Receiving(c.pc) && c.pc != Stopped && c.pc != Crashed
    ensures CanStep(c)
  {
    match c.pc
    case SetupAck => assert ServerStep(c, SSend(c, Data(READY)).(pc := SetupCmd));
    case SetupDone => assert ServerStep(c, SSend(c, Data(READY)).(pc := AtCmd));
    case Busy(cmd, payload) => BusyCanStep(c);
    case Stopping(k, todo) => StoppingCanStep(c);
    case SendError(k, todo) => assert ServerStep(c, SSend(c, Data(ERROR)).(pc := SendReason(k, todo)));
    case SendReason(k, todo) =>
      var reason: Bytes := "v";
      assert ServerStep(c, SSend(c, Data(reason)).(pc := AwaitOk(k, todo)));
    case Reply(cmd, payload) =>
      assert ServerStep(c, SSend(c, Data(READY)).(pc := AtCmd, log := c.log + [(cmd, payload)]));
    case ReplyUnknown => assert ServerStep(c, SSend(c, Data(READY)).(pc := AtCmd));
    case LatencyAck(n) => assert ServerStep(c, SSend(c, Data(READY)).(pc := LatencyCmd(n)));
    case LatencySend(n) => LatencyCanStep(c);
  }

  lemma StoppingCanStep(c: Chan)
    requires WaitsForOwn(c) && c.pc.Stopping?
    ensures CanStep(c)
  {
    var k, todo := c.pc.kind, c.pc.todo;
    if todo == [] {
      assert ServerStep(c, c.(pc := Reply(StopOf(k), [])));
    } else {
      TailWithin(todo, c.tables.Of(k).Keys);
      assert ServerStep(c, c.(pc := Stopping(k, todo[1..]))) || ServerStep(c, c.(pc := SendError(k, todo)));
    }
  }

  lemma LatencyCanStep(c: Chan)
    requires c.pc.LatencySend?
    ensures CanStep(c)
  {
    if c.pc.n == 0 {
      assert ServerStep(c, c.(pc := Reply(MeasureLatency, [])));
    } else {
      var latency: Bytes := "   1.714";
      assert ServerStep(c, SSend(c, Data(latency)).(pc := LatencyWait(c.pc.n - 1)));
    }
  }

  lemma {:induction false} KeyOrderExists(keys: set<Name>) returns (todo: seq<Name>)
    ensures NoDup(todo) && ToSet(todo) == keys
  {
    if keys == {} {
      todo := [];
    } else {
      var n :| n in keys;
      var rest := KeyOrderExists(keys - {n});
      todo := [n] + rest;
      assert ToSet(todo) == {n} + ToSet(rest);
    }
  }

  lemma BusyCanStep(c: Chan)
    requires c.pc.Busy?
    ensures CanStep(c)
  {
    var cmd, payload := c.pc.cmd, c.pc.payload;
    if IsStop(cmd) {
      var todo := KeyOrderExists(c.tables.Of(StopKind(cmd)).Keys);
      assert ServerStep(c, c.(pc := Stopping(StopKind(cmd), todo)));
    } else {
      var c1 := c.(pc := Reply(cmd, payload));
      var d :=
        match cmd
        case SetScenario => c1.(scenario := ReadInt(payload))
        case RunProxies => c1.(tables := c1.tables.With(Proxy, Launched(c1.tables.proxies, c1.scenario)))
        case RunReceivers => c1.(tables := c1.tables.With(Receiver, Launched(c1.tables.receivers, c1.scenario)))
        case RunSenders => c1.(tables := c1.tables.With(Sender, Launched(c1.tables.senders, c1.scenario)))
        case _ => c1;
      assert Effect(cmd, payload, c1, d);
      assert ServerStep(c, d);
    }
  }

  lemma ReceivingCanStep(c: Chan)
    requires Receiving(c.pc) && c.c2s != [] && (c.pc.AwaitOk? ==> c.pc.todo != [])
    ensures CanStep(c)
  {
    match c.pc
    case AtId => assert ServerStep(c, SRecv(c, 2).(pc := if IsDecimal(Take(c.c2s, 2)) then SetupCmd else Crashed));
    case SetupCmd => assert ServerStep(c, SRecv(c, 2).(pc := if Take(c.c2s, 2) != END then SetupIp else SetupDone));
    case SetupIp => assert ServerStep(c, SRecv(c, 20).(pc := SetupAck));
    case AtCmd => assert ServerStep(c, Dispatch(SRecv(c, 2), Take(c.c2s, 2)));
    case AtPayload(cmd) =>
      var p := Take(c.c2s, PayloadSize(cmd));
      assert ServerStep(c, SRecv(c, PayloadSize(cmd))
                               .(pc := if cmd == MakeExp || IsDecimal(p) then Busy(cmd, p) else Crashed));
    case AwaitOk(k, todo) => assert ServerStep(c, Collect(SRecv(c, 2), k, todo[0]).(pc := Stopping(k, todo[1..])));
    case LatencyCmd(n) =>
      assert ServerStep(c, SRecv(c, 2).(pc := if Take(c.c2s, 2) != END then LatencyIp(n) else LatencySend(n)));
    case LatencyIp(n) => assert ServerStep(c, SRecv(c, 20).(pc := LatencyAck(n + 1)));
    case LatencyWait(n) => assert ServerStep(c, SRecv(c, 2).(pc := LatencySend(n)));
  }

  /** No recv on a connection waits for ever: one of the two ends can take a step. */
  lemma SomeoneCanStep(c: Chan, sub: Sub, rest: seq<Op>)
    requires Healthy(c, sub, rest) && rest != []
    ensures ControllerCanStep(c, sub, rest) || CanStep(c)
  {
    if rest[0].Send? {
      assert ControllerStep(c, sub, rest, CSend(c, rest[0].msg), sub, rest[1..]);
    } else if rest[0].Await? && sub == AtOk {
      assert ControllerStep(c, sub, rest, CSend(c, Data(OK)), AtReply, rest);
    } else if c.s2c != [] {
      if rest[0].Recv? {
        assert ControllerStep(c, sub, rest, CRecv(c, rest[0].size), sub, rest[1..]);
      } else if sub == AtReason {
        assert ControllerStep(c, sub, rest, CRecv(c, 200), AtOk, rest);
      } else if Take(c.s2c, 2) == ERROR {
        assert ControllerStep(c, sub, rest, CRecv(c, 2), AtReason, rest);
      } else {
        assert ControllerStep(c, sub, rest, CRecv(c, 2), AtReply, rest[1..]);
      }
    } else if Receiving(c.pc) {
      WaitingHasRequest(c, sub, rest);
      ReceivingCanStep(c);
    } else {
      LocalCanStep(c);
    }
  }

  lemma IdleServer(pc: Pc, sub: Sub, rest: seq<Op>)
    requires Fits(pc, [], [], sub, rest) && Receiving(pc) && rest != []
    ensures rest[0].Send? || sub == AtOk
  {
    assert Sends([]) + rest == rest;
  }

  lemma QueueMessages(pc: Pc, pq: seq<Msg>, rq: seq<Msg>, sub: Sub, rest: seq<Op>)
    requires Fits(pc, pq, rq, sub, rest)
    ensures rq != [] ==> Wire(rq[0]) != []
    ensures pc.AwaitOk? ==> pc.todo != []
    ensures pq != [] && Receiving(pc) ==> Wire(pq[0]) != []
  {
    if pq != [] {
      SendsHead(pq, rest);
    }
  }

  /** A controller at recv and a server at recv: a message is on its way to the server. */
  lemma WaitingHasRequest(c: Chan, sub: Sub, rest: seq<Op>)
    requires Healthy(c, sub, rest) && rest != [] && !rest[0].Send? && sub != AtOk
    requires Receiving(c.pc) && c.s2c == []
    ensures c.c2s != [] && (c.pc.AwaitOk? ==> c.pc.todo != [])
  {
    QueueMessages(c.pc, ToServer(c), ToController(c), sub, rest);
    assert ToController(c) == [];
    if ToServer(c) == [] {
      IdleServer(c.pc, sub, rest);
    }
  }
}
