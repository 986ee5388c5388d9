/** Bytes, commands and the two ends of one controller-to-server connection. */
module WanWire {
  import opened Collections

  type Bytes = seq<char>
  type Name = string

  datatype Cmd =
    | Quit | SetBandwidth | TrafficControl | ClearAll | ClearSockets | ClearResults | MakeExp | SetScenario
    | RunProxies | StopProxies | RunReceivers | StopReceivers | RunSenders | StopSenders | MeasureLatency

  function Code(c: Cmd): Bytes {
    match c
    case Quit => "q\n"
    case SetBandwidth => "bw"
    case TrafficControl => "tc"
    case ClearAll => "c\n"
    case ClearSockets => "cs"
    case ClearResults => "cr"
    case MakeExp => "e\n"
    case SetScenario => "sc"
    case RunProxies => "p\n"
    case StopProxies => "tp"
    case RunReceivers => "r\n"
    case StopReceivers => "tr"
    case RunSenders => "s\n"
    case StopSenders => "ts"
    case MeasureLatency => "ml"
  }

  /** The server's chain of comparisons; None when no branch matches. */
  function Decode(b: Bytes): Option<Cmd> {
    if b == "q\n" then Some(Quit)
    else if b == "bw" then Some(SetBandwidth)
    else if b == "tc" then Some(TrafficControl)
    else if b == "c\n" then Some(ClearAll)
    else if b == "cs" then Some(ClearSockets)
    else if b == "cr" then Some(ClearResults)
    else if b == "e\n" then Some(MakeExp)
    else if b == "sc" then Some(SetScenario)
    else if b == "p\n" then Some(RunProxies)
    else if b == "tp" then Some(StopProxies)
    else if b == "r\n" then Some(RunReceivers)
    else if b == "tr" then Some(StopReceivers)
    else if b == "s\n" then Some(RunSenders)
    else if b == "ts" then Some(StopSenders)
    else if b == "ml" then Some(MeasureLatency)
    else None
  }

  lemma DecodeCode(c: Cmd)
    ensures |Code(c)| == 2 && Decode(Code(c)) == Some(c)
  {
  }

  /** The codes are told apart by the server's comparisons, and nothing else is a command. */
  lemma DecodeExact(b: Bytes, c: Cmd)
    ensures Decode(b) == Some(c) <==> b == Code(c)
  {
    DecodeCode(c);
  }

  const READY: Bytes := "r\n"
  const ERROR: Bytes := "e\n"
  const OK: Bytes := "ok"
  const MORE: Bytes := "nw"
  const END: Bytes := "ed"

  datatype Kind = Proxy | Receiver | Sender

  function StartOf(k: Kind): Cmd {
    match k case Proxy => RunProxies case Receiver => RunReceivers case Sender => RunSenders
  }

  function StopOf(k: Kind): Cmd {
    match k case Proxy => StopProxies case Receiver => StopReceivers case Sender => StopSenders
  }

  predicate HasPayload(c: Cmd) {
    c == SetBandwidth || c == MakeExp || c == SetScenario
  }

  /** The size the server passes to recv for a command's payload. */
  function PayloadSize(c: Cmd): nat {
    match c
    case SetBandwidth => 6
    case MakeExp => 40
    case _ => 2
  }

  predicate IsStop(c: Cmd) {
    c == StopProxies || c == StopReceivers || c == StopSenders
  }

  predicate IsDecimal(b: Bytes) {
    b != [] && forall i :: 0 <= i < |b| ==> IsDigit(b[i])
  }

  /** int() of what was received; a server that receives anything but digits has crashed. */
  function ReadInt(b: Bytes): nat {
    if IsDecimal(b) then Number(b) else 0
  }

  /** What one send call carries. The split into kinds is for the model; only the bytes travel. */
  datatype Msg = Command(cmd: Cmd) | Data(bytes: Bytes)

  function Wire(m: Msg): Bytes {
    match m
    case Command(c) => Code(c)
    case Data(b) => b
  }

  function Flat(ms: seq<Msg>): Bytes {
    if ms == [] then [] else Wire(ms[0]) + Flat(ms[1..])
  }

  lemma {:induction false} FlatSnoc(ms: seq<Msg>, m: Msg)
    ensures Flat(ms + [m]) == Flat(ms) + Wire(m)
  {
    if ms == [] {
      assert ms + [m] == [m];
      assert Flat([m]) == Wire(m) + Flat([]);
    } else {
      assert (ms + [m])[1..] == ms[1..] + [m];
      FlatSnoc(ms[1..], m);
    }
  }

  /** One controller action on a connection; Await is the body of wait_for_ready. */
  datatype Op = Send(msg: Msg) | Recv(size: nat) | Await

  /** Where the controller stands inside wait_for_ready. */
  datatype Sub = AtReply | AtReason | AtOk

  type Processes = map<Name, Option<nat>>
  datatype Tables = Tables(proxies: Processes, receivers: Processes, senders: Processes) {
    function Of(k: Kind): Processes {
      match k case Proxy => proxies case Receiver => receivers case Sender => senders
    }

    function With(k: Kind, p: Processes): Tables {
      match k
      case Proxy => this.(proxies := p)
      case Receiver => this.(receivers := p)
      case Sender => this.(senders := p)
    }

    function Size(): nat {
      |proxies| + |receivers| + |senders|
    }
  }

  /** Where the server stands: each recv and each send of its code is one point. */
  datatype Pc =
    | AtId
    | SetupCmd | SetupIp | SetupAck | SetupDone
    | AtCmd
    | AtPayload(cmd: Cmd)
    | Busy(cmd: Cmd, payload: Bytes)
    | Stopping(kind: Kind, todo: seq<Name>)
    | SendError(kind: Kind, todo: seq<Name>)
    | SendReason(kind: Kind, todo: seq<Name>)
    | AwaitOk(kind: Kind, todo: seq<Name>)
    | Reply(cmd: Cmd, payload: Bytes) | ReplyUnknown
    | LatencyCmd(n: nat) | LatencyIp(n: nat) | LatencyAck(n: nat)
    | LatencySend(n: nat) | LatencyWait(n: nat)
    | Stopped
    | Crashed

  /**
   * One connection with its server: byte streams both ways, the server's variables, and
   * the history of what each end passed to send or got from recv.
   */
  datatype Chan = Chan(
    pc: Pc, c2s: Bytes, s2c: Bytes,
    tables: Tables, scenario: nat, log: seq<(Cmd, Bytes)>,
    cSent: seq<Msg>, sGot: seq<Bytes>, sSent: seq<Msg>, cGot: seq<Bytes>)

  function Take(stream: Bytes, n: nat): Bytes {
    if |stream| <= n then stream else stream[..n]
  }

  // ----- the four ways in which a stream changes

  function CSend(c: Chan, m: Msg): Chan {
    c.(c2s := c.c2s + Wire(m), cSent := c.cSent + [m])
  }

  function SSend(c: Chan, m: Msg): Chan {
    c.(s2c := c.s2c + Wire(m), sSent := c.sSent + [m])
  }

  function SRecv(c: Chan, n: nat): Chan {
    var got := Take(c.c2s, n);
    c.(c2s := c.c2s[|got|..], sGot := c.sGot + [got])
  }

  function CRecv(c: Chan, n: nat): Chan {
    var got := Take(c.s2c, n);
    c.(s2c := c.s2c[|got|..], cGot := c.cGot + [got])
  }

  // ----- the server

  ghost predicate AllIdle(p: Processes) {
    forall n :: n in p ==> p[n] == None
  }

  /** The effect of a command's branch on the server's variables, for commands that only run or set things. */
  ghost predicate Effect(cmd: Cmd, payload: Bytes, c: Chan, d: Chan) {
    match cmd
    case SetScenario => d == c.(scenario := ReadInt(payload))
    case MakeExp =>
      // either the directory cannot be entered, or the new programs are found
      || d == c
      || (d == c.(tables := d.tables)
          && AllIdle(d.tables.proxies) && AllIdle(d.tables.receivers) && AllIdle(d.tables.senders))
    case RunProxies => d == c.(tables := c.tables.With(Proxy, Launched(c.tables.proxies, c.scenario)))
    case RunReceivers => d == c.(tables := c.tables.With(Receiver, Launched(c.tables.receivers, c.scenario)))
    case RunSenders => d == c.(tables := c.tables.With(Sender, Launched(c.tables.senders, c.scenario)))
    case _ => d == c
  }

  function Launched(p: Processes, scenario: nat): Processes {
    map n | n in p :: Some(scenario)
  }

  function StopKind(c: Cmd): Kind
    requires IsStop(c)
  {
    if c == StopProxies then Proxy else if c == StopReceivers then Receiver else Sender
  }

  /** The waiting list of a termination branch: the keys of its dictionary, in some order. */
  ghost predicate IsKeyOrder(todo: seq<Name>, p: Processes) {
    NoDup(todo) && ToSet(todo) == p.Keys
  }

  function Collect(c: Chan, k: Kind, n: Name): Chan {
    var p := c.tables.Of(k);
    c.(tables := c.tables.With(k, p[n := None]))
  }

  /** After the last comparison: the command was read and its branch is entered. */
  function Enter(c: Chan, cmd: Option<Cmd>): Chan {
    match cmd
    case None => c.(pc := ReplyUnknown)
    case Some(Quit) => c.(pc := Stopped)
    case Some(MeasureLatency) => c.(pc := LatencyCmd(0))
    case Some(cmd) => c.(pc := if HasPayload(cmd) then AtPayload(cmd) else Busy(cmd, []))
  }

  function Dispatch(c: Chan, b: Bytes): Chan {
    Enter(c, Decode(b))
  }

  ghost predicate ServerStep(c: Chan, d: Chan) {
    match c.pc
    case AtId =>
      c.c2s != [] && d == SRecv(c, 2).(pc := if IsDecimal(Take(c.c2s, 2)) then SetupCmd else Crashed)
    case SetupCmd =>
      c.c2s != [] && d == SRecv(c, 2).(pc := if Take(c.c2s, 2) != END then SetupIp else SetupDone)
    case SetupIp =>
      c.c2s != [] && d == SRecv(c, 20).(pc := SetupAck)
    case SetupAck => d == SSend(c, Data(READY)).(pc := SetupCmd)
    case SetupDone => d == SSend(c, Data(READY)).(pc := AtCmd)
    case AtCmd => c.c2s != [] && d == Dispatch(SRecv(c, 2), Take(c.c2s, 2))
    case AtPayload(cmd) =>
      && c.c2s != []
      && var p := Take(c.c2s, PayloadSize(cmd));
         d == SRecv(c, PayloadSize(cmd)).(pc := if cmd == MakeExp || IsDecimal(p) then Busy(cmd, p) else Crashed)
    case Busy(cmd, payload) =>
      if IsStop(cmd) then
        && d.pc.Stopping? && d.pc.kind == StopKind(cmd)
        && IsKeyOrder(d.pc.todo, c.tables.Of(StopKind(cmd)))
        && d == c.(pc := d.pc)
      else
        Effect(cmd, payload, c.(pc := Reply(cmd, payload)), d)
    case Stopping(k, todo) =>
      if todo == [] then d == c.(pc := Reply(StopOf(k), []))
      else
        var p := c.tables.Of(k);
        // nothing to wait for, or the process ended cleanly, or it reports an error
        || (todo[0] in p && p[todo[0]] == None && d == c.(pc := Stopping(k, todo[1..])))
        || (todo[0] in p && p[todo[0]] != None &&
            (|| d == Collect(c, k, todo[0]).(pc := Stopping(k, todo[1..]))
             || d == c.(pc := SendError(k, todo))))
    case SendError(k, todo) => d == SSend(c, Data(ERROR)).(pc := SendReason(k, todo))
    case SendReason(k, todo) =>
      exists reason: Bytes :: 1 <= |reason| <= 200 && d == SSend(c, Data(reason)).(pc := AwaitOk(k, todo))
    case AwaitOk(k, todo) =>
      && c.c2s != [] && todo != []
      && d == Collect(SRecv(c, 2), k, todo[0]).(pc := Stopping(k, todo[1..]))
    case Reply(cmd, payload) =>
      d == SSend(c, Data(READY)).(pc := AtCmd, log := c.log + [(cmd, payload)])
    case ReplyUnknown => d == SSend(c, Data(READY)).(pc := AtCmd)
    case LatencyCmd(n) =>
      c.c2s != [] && d == SRecv(c, 2).(pc := if Take(c.c2s, 2) != END then LatencyIp(n) else LatencySend(n))
    case LatencyIp(n) => c.c2s != [] && d == SRecv(c, 20).(pc := LatencyAck(n + 1))
    case LatencyAck(n) => d == SSend(c, Data(READY)).(pc := LatencyCmd(n))
    case LatencySend(n) =>
      if n == 0 then d == c.(pc := Reply(MeasureLatency, []))
      else exists latency: Bytes :: |latency| == 8 && d == SSend(c, Data(latency)).(pc := LatencyWait(n - 1))
    case LatencyWait(n) => c.c2s != [] && d == SRecv(c, 2).(pc := LatencySend(n))
    case Stopped => false
    case Crashed => false
  }
}
