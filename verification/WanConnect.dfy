/** What the servers are told: their numbers, their addresses, the bandwidth, and what to measure. */
module WanConnect {
  import opened WanWire
  import opened WanSession
  import opened WanRun
  import opened WanScript

  function MessageOf(op: Op): seq<Msg> {
    if op.Send? then [op.msg] else []
  }

  /** The messages among some actions, in order. */
  function SentBy(ops: seq<Op>): seq<Msg> {
    if ops == [] then [] else MessageOf(ops[0]) + SentBy(ops[1..])
  }

  lemma Assoc(a: seq<Msg>, b: seq<Msg>, c: seq<Msg>)
    ensures a + b + c == a + (b + c)
  {
  }

  lemma {:induction false} SentByAppend(a: seq<Op>, b: seq<Op>)
    ensures SentBy(a + b) == SentBy(a) + SentBy(b)
  {
    if a == [] {
      assert a + b == b;
    } else {
      assert (a + b)[1..] == a[1..] + b;
      SentByAppend(a[1..], b);
      Assoc(MessageOf(a[0]), SentBy(a[1..]), SentBy(b));
    }
  }

  lemma SentByOne(op: Op)
    ensures SentBy([op]) == MessageOf(op)
  {
    assert [op][1..] == [];
  }

  lemma SentByTwo(a: Op, b: Op)
    ensures SentBy([a, b]) == MessageOf(a) + MessageOf(b)
  {
    SentByOne(b);
    assert [a, b][1..] == [b];
  }

  lemma SentByThree(a: Op, b: Op, c: Op)
    ensures SentBy([a, b, c]) == MessageOf(a) + (MessageOf(b) + MessageOf(c))
  {
    SentByTwo(b, c);
    assert [a, b, c][1..] == [b, c];
  }

  /** Asking for addresses: message 2 * k announces one more, message 2 * k + 1 is address k. */
  predicate AsksFor(asks: seq<Msg>, ips: seq<Bytes>) {
    && |asks| == 2 * |ips|
    && forall k :: 0 <= k < |ips| ==> asks[2 * k] == Data(MORE) && asks[2 * k + 1] == Data(ips[k])
  }

  lemma AsksForMore(ip: Bytes, ips: seq<Bytes>, asks: seq<Msg>)
    requires AsksFor(asks, ips)
    ensures AsksFor([Data(MORE), Data(ip)] + asks, [ip] + ips)
  {
    var all := [Data(MORE), Data(ip)] + asks;
    forall k | 0 <= k < |[ip] + ips| ensures all[2 * k] == Data(MORE) && all[2 * k + 1] == Data(([ip] + ips)[k]) {
      if k > 0 {
        assert all[2 * k] == asks[2 * (k - 1)] && all[2 * k + 1] == asks[2 * (k - 1) + 1];
      }
    }
  }

  lemma {:induction false} AddressesSent(ips: seq<Bytes>)
    ensures AsksFor(SentBy(AskIps(ips)), ips)
  {
    if ips != [] {
      AddressesSent(ips[1..]);
      SentByAppend([Send(Data(MORE)), Send(Data(ips[0])), Recv(2)], AskIps(ips[1..]));
      SentByThree(Send(Data(MORE)), Send(Data(ips[0])), Recv(2));
      assert SentBy(AskIps(ips)) == [Data(MORE), Data(ips[0])] + SentBy(AskIps(ips[1..]));
      AsksForMore(ips[0], ips[1..], SentBy(AskIps(ips[1..])));
      assert ips == [ips[0]] + ips[1..];
    }
  }

  lemma AskAt(asks: seq<Msg>, ips: seq<Bytes>, k: nat)
    requires AsksFor(asks, ips) && 1 <= k <= 2 * |ips|
    ensures asks[k - 1] == Data(if k % 2 == 1 then MORE else ips[k / 2 - 1])
  {
    if k % 2 == 1 {
      assert k - 1 == 2 * ((k - 1) / 2);
    } else {
      assert k - 1 == 2 * (k / 2 - 1) + 1;
    }
  }

  lemma ThreeParts(a: seq<Msg>, b: seq<Msg>, c: seq<Msg>, k: nat)
    requires k < |a| + |b| + |c|
    ensures |a + b + c| == |a| + |b| + |c|
    ensures (a + b + c)[k] == if k < |a| then a[k] else if k < |a| + |b| then b[k - |a|] else c[k - |a| - |b|]
  {
  }

  // ----- connecting

  function IdOps(i: nat): seq<Op>
    requires i < 100
  {
    [Send(Data(TwoDigits(i)))]
  }

  function BandwidthOps(bandwidth: Bytes): seq<Op> {
    [Recv(2), Send(Command(SetBandwidth)), Send(Data(bandwidth))]
  }

  /** What is said to server j while it is connected. */
  function SaidFirst(p: Plan, j: nat): seq<Msg>
    requires PlanOk(p) && j < |p.ips|
  {
    SentBy(Rest(ConnectScript(p), j))
  }

  lemma SaidInParts(id: seq<Op>, asks: seq<Op>, end: seq<Op>, bandwidth: seq<Op>, last: seq<Op>)
    ensures SentBy((id + asks + end) + bandwidth + last)
            == SentBy(id) + SentBy(asks) + (SentBy(end) + (SentBy(bandwidth) + SentBy(last)))
  {
    SentByAppend((id + asks + end) + bandwidth, last);
    SentByAppend(id + asks + end, bandwidth);
    SentByAppend(id + asks, end);
    SentByAppend(id, asks);
    Regroup(SentBy(id) + SentBy(asks), SentBy(end), SentBy(bandwidth), SentBy(last));
  }

  lemma Regroup(a: seq<Msg>, b: seq<Msg>, c: seq<Msg>, d: seq<Msg>)
    ensures a + b + c + d == a + (b + (c + d))
  {
  }

  lemma SaidInWords(id: seq<Op>, asks: seq<Op>, end: seq<Op>, bandwidth: seq<Op>, last: seq<Op>, a: Msg, b: Msg, c: Msg,
                    d: Msg)
    requires SentBy(id) == [a] && SentBy(end) == [b] && SentBy(bandwidth) == [c, d] && SentBy(last) == []
    ensures SentBy((id + asks + end) + bandwidth + last) == [a] + SentBy(asks) + [b, c, d]
  {
    SaidInParts(id, asks, end, bandwidth, last);
    assert [b] + ([c, d] + []) == [b, c, d];
  }

  lemma SaidFirstIs(p: Plan, j: nat)
    requires PlanOk(p) && j < |p.ips|
    ensures SaidFirst(p, j) == [Data(TwoDigits(j))] + SentBy(AskIps(p.ips[j]))
                               + [Data(END), Command(SetBandwidth), Data(p.bandwidth)]
  {
    RestConnect(p, j);
    SentByOne(Send(Data(TwoDigits(j))));
    SentByOne(Send(Data(END)));
    SentByOne(Recv(2));
    SentByThree(Recv(2), Send(Command(SetBandwidth)), Send(Data(p.bandwidth)));
    SaidInWords(IdOps(j), AskIps(p.ips[j]), [Send(Data(END))], BandwidthOps(p.bandwidth), [Recv(2)],
                Data(TwoDigits(j)), Data(END), Command(SetBandwidth), Data(p.bandwidth));
  }

  /** Message k of the introduction: the server's number, its addresses, the end mark, the bandwidth. */
  predicate Introduces(p: Plan, j: nat, k: nat, got: Bytes)
    requires j < |p.ips|
  {
    var n := |p.ips[j]|;
    if k == 0 then |got| == 2 && IsDecimal(got) && ReadInt(got) == j
    else if k <= 2 * n then got == if k % 2 == 1 then MORE else p.ips[j][k / 2 - 1]
    else if k == 2 * n + 1 then got == END
    else if k == 2 * n + 2 then got == Code(SetBandwidth)
    else k == 2 * n + 3 && got == p.bandwidth
  }

  lemma IntroducesAt(p: Plan, j: nat, k: nat, id: Bytes, asks: seq<Msg>, said: seq<Msg>)
    requires j < |p.ips| && |id| == 2 && IsDecimal(id) && ReadInt(id) == j && AsksFor(asks, p.ips[j])
    requires said == [Data(id)] + asks + [Data(END), Command(SetBandwidth), Data(p.bandwidth)] && k < |said|
    ensures Introduces(p, j, k, Wire(said[k]))
  {
    ThreeParts([Data(id)], asks, [Data(END), Command(SetBandwidth), Data(p.bandwidth)], k);
    if 1 <= k <= 2 * |p.ips[j]| {
      AskAt(asks, p.ips[j], k);
    }
  }

  lemma SaidFirstIntroduces(p: Plan, j: nat, k: nat)
    requires PlanOk(p) && j < |p.ips| && k < 2 * |p.ips[j]| + 4
    ensures |SaidFirst(p, j)| == 2 * |p.ips[j]| + 4
    ensures Introduces(p, j, k, Wire(SaidFirst(p, j)[k]))
  {
    SaidFirstIs(p, j);
    AddressesSent(p.ips[j]);
    TwoDigitsRead(j);
    IntroducesAt(p, j, k, TwoDigits(j), SentBy(AskIps(p.ips[j])), SaidFirst(p, j));
  }

  // ----- what has been said so far, in every run

  predicate NoAwait(ops: seq<Op>) {
    forall i :: 0 <= i < |ops| ==> ops[i] != Await
  }

  /** Either the introduction `said` is complete, or what is left of it stands before the actions `tail`. */
  predicate Introduced(c: Chan, rest: seq<Op>, tail: seq<Op>, said: seq<Msg>) {
    || said <= c.cSent
    || (&& |tail| <= |rest| && rest[|rest| - |tail|..] == tail && NoAwait(rest[..|rest| - |tail|])
        && c.cSent + SentBy(rest[..|rest| - |tail|]) == said)
  }

  lemma FirstSaid(pre: seq<Op>, sent: seq<Msg>)
    requires pre != []
    ensures pre[0].Send? ==> sent + SentBy(pre) == sent + [pre[0].msg] + SentBy(pre[1..])
    ensures !pre[0].Send? ==> SentBy(pre) == SentBy(pre[1..])
  {
  }

  lemma StepIntroduces(c: Chan, sub: Sub, rest: seq<Op>, c': Chan, sub': Sub, rest': seq<Op>, tail: seq<Op>,
                       said: seq<Msg>)
    requires ControllerStep(c, sub, rest, c', sub', rest') && Introduced(c, rest, tail, said)
    ensures Introduced(c', rest', tail, said)
  {
    assert c.cSent <= c'.cSent;
    if !(said <= c.cSent) {
      var pre := rest[..|rest| - |tail|];
      assert pre != [] by {
        assert c.cSent + [] == c.cSent;
      }
      assert pre[0] == rest[0] != Await;
      assert rest' == rest[1..] && rest'[..|rest'| - |tail|] == pre[1..];
      assert rest'[|rest'| - |tail|..] == tail;
      FirstSaid(pre, c.cSent);
    }
  }

  ghost predicate IntroducedAt(s: Sys, j: nat, tail: seq<Op>, said: seq<Msg>)
    requires j < |s.chans|
  {
    Introduced(s.chans[j], Rest(s.todo, j), tail, said)
  }

  lemma MoveIntroduces(s: Sys, t: Sys, j: nat, tail: seq<Op>, said: seq<Msg>)
    requires ControllerMoves(s, t) && j < |s.chans| && IntroducedAt(s, j, tail, said)
    ensures IntroducedAt(t, j, tail, said)
  {
    var i := s.todo[0].0;
    var rest := Rest(s.todo, i);
    var rest' :| ControllerStep(s.chans[i], s.sub, rest, t.chans[i], t.sub, rest') &&
                 t.todo == (if rest' == rest then s.todo else s.todo[1..]);
    assert rest[1..] == Rest(s.todo[1..], i) && |rest[1..]| < |rest|;
    if j == i {
      StepIntroduces(s.chans[i], s.sub, rest, t.chans[i], t.sub, rest', tail, said);
    }
  }

  lemma ServerSaysNothing(c: Chan, d: Chan)
    requires ServerStep(c, d)
    ensures d.cSent == c.cSent
  {
    if Receiving(c.pc) {
      ReceivingTakesOne(c, d);
    } else {
      SendsOrMoves(c, d);
    }
  }

  lemma {:induction false} RunIntroduces(run: seq<Sys>, i: nat, j: nat, tail: seq<Op>, said: seq<Msg>)
    requires IsRun(run) && i < |run| && j < |run[0].chans| && IntroducedAt(run[0], j, tail, said)
    ensures |run[i].chans| == |run[0].chans| && IntroducedAt(run[i], j, tail, said)
  {
    if i > 0 {
      RunIntroduces(run, i - 1, j, tail, said);
      assert Consecutive(run, i - 1);
      var s, t := run[i - 1], run[i];
      if ControllerMoves(s, t) {
        MoveIntroduces(s, t, j, tail, said);
      } else {
        var k: nat :| ServerMoves(s, t, k);
        ServerSaysNothing(s.chans[k], t.chans[k]);
      }
    }
  }

  lemma {:induction false} AskIpsNoAwait(ips: seq<Bytes>)
    ensures NoAwait(AskIps(ips))
  {
    if ips != [] {
      AskIpsNoAwait(ips[1..]);
    }
  }

  lemma StartIntroduces(p: Plan, s: Sys, j: nat)
    requires PlanOk(p) && Init(s) && |s.chans| == |p.ips| && s.todo == SessionScript(p) && j < |p.ips|
    ensures IntroducedAt(s, j, Rest(TasksScript(|p.ips|, p.tasks, p.testProxy) + QuitAll(|p.ips|), j), SaidFirst(p, j))
  {
    var later := TasksScript(|p.ips|, p.tasks, p.testProxy) + QuitAll(|p.ips|);
    var pre, tail := Rest(ConnectScript(p), j), Rest(later, j);
    RestAppend(ConnectScript(p), later, j);
    ConnectNoAwait(p, j);
    FreshIntroduces(s.chans[j], pre, tail);
  }

  lemma ConnectNoAwait(p: Plan, j: nat)
    requires PlanOk(p) && j < |p.ips|
    ensures NoAwait(Rest(ConnectScript(p), j))
  {
    RestConnect(p, j);
    AskIpsNoAwait(p.ips[j]);
    NoAwaitInParts(IdOps(j), AskIps(p.ips[j]), [Send(Data(END))], BandwidthOps(p.bandwidth), [Recv(2)]);
  }

  lemma NoAwaitInParts(id: seq<Op>, asks: seq<Op>, end: seq<Op>, bandwidth: seq<Op>, last: seq<Op>)
    requires NoAwait(id) && NoAwait(asks) && NoAwait(end) && NoAwait(bandwidth) && NoAwait(last)
    ensures NoAwait((id + asks + end) + bandwidth + last)
  {
    NoAwaitAppend(id, asks);
    NoAwaitAppend(id + asks, end);
    NoAwaitAppend(id + asks + end, bandwidth);
    NoAwaitAppend((id + asks + end) + bandwidth, last);
  }

  lemma NoAwaitAppend(a: seq<Op>, b: seq<Op>)
    requires NoAwait(a) && NoAwait(b)
    ensures NoAwait(a + b)
  {
  }

  lemma FreshIntroduces(c: Chan, pre: seq<Op>, tail: seq<Op>)
    requires NoAwait(pre) && c.cSent == []
    ensures Introduced(c, pre + tail, tail, SentBy(pre))
  {
    var rest := pre + tail;
    assert rest[|rest| - |tail|..] == tail && rest[..|rest| - |tail|] == pre;
    assert [] + SentBy(pre) == SentBy(pre);
  }

  /** What was received is what was said, as far as both go. */
  lemma GotIsSaid(c: Chan, rest: seq<Op>, tail: seq<Op>, said: seq<Msg>, k: nat)
    requires Framed(c) && Introduced(c, rest, tail, said) && k < |c.sGot| && k < |said|
    ensures c.sGot[k] == Wire(said[k])
  {
    if !(said <= c.cSent) {
      assert (c.cSent + SentBy(rest[..|rest| - |tail|]))[k] == c.cSent[k];
    }
  }

  /**
   * In every state of every conforming session, what server j has received first is, as far as
   * it goes: the number j, its addresses in their order, and the bandwidth of the plan.
   */
  lemma ServersAreIntroduced(p: Plan, run: seq<Sys>, i: nat, j: nat, k: nat)
    requires SessionRun(p, run) && Conforms(p) && i < |run| && j < |p.ips|
    requires j < |run[i].chans| && k < |run[i].chans[j].sGot| && k < 2 * |p.ips[j]| + 4
    ensures Introduces(p, j, k, run[i].chans[j].sGot[k])
  {
    var tail := Rest(TasksScript(|p.ips|, p.tasks, p.testProxy) + QuitAll(|p.ips|), j);
    StartIntroduces(p, run[0], j);
    RunIntroduces(run, i, j, tail, SaidFirst(p, j));
    SaidFirstIntroduces(p, j, k);
    SessionFollowsProtocol(p);
    Framing(run, i, j);
    GotIsSaid(run[i].chans[j], Rest(run[i].todo, j), tail, SaidFirst(p, j), k);
  }

  // ----- the latency measurement

  lemma {:induction false} ResultsSent(n: nat)
    ensures |SentBy(Results(n))| == n && forall k :: 0 <= k < n ==> SentBy(Results(n))[k] == Data(OK)
  {
    if n > 0 {
      ResultsSent(n - 1);
      SentByAppend([Recv(8), Send(Data(OK))], Results(n - 1));
      SentByTwo(Recv(8), Send(Data(OK)));
    }
  }

  /** Message k to server j in a latency measurement: the command, its own addresses, the end mark, the receipts. */
  predicate Measures(ips: seq<Bytes>, k: nat, m: Msg) {
    var n := |ips|;
    if k == 0 then m == Command(MeasureLatency)
    else if k <= 2 * n then m == Data(if k % 2 == 1 then MORE else ips[k / 2 - 1])
    else m == Data(if k == 2 * n + 1 then END else OK)
  }

  lemma LatencySays(ips: seq<seq<Bytes>>, j: nat)
    requires j < |ips|
    ensures SentBy(Rest(LatencyScript(ips), j))
            == [Command(MeasureLatency)] + SentBy(AskIps(ips[j])) + ([Data(END)] + SentBy(Results(|ips[j]|)))
  {
    RestLatency(ips, j);
    LatencyInParts([Send(Command(MeasureLatency))], AskIps(ips[j]), [Send(Data(END))], Results(|ips[j]|), [Await]);
    SentByOne(Send(Command(MeasureLatency)));
    SentByOne(Send(Data(END)));
    SentByOne(Await);
    assert SentBy(Results(|ips[j]|)) + [] == SentBy(Results(|ips[j]|));
  }

  lemma LatencyInParts(cmd: seq<Op>, asks: seq<Op>, end: seq<Op>, results: seq<Op>, last: seq<Op>)
    ensures SentBy(cmd + (asks + end) + results + last)
            == SentBy(cmd) + SentBy(asks) + (SentBy(end) + (SentBy(results) + SentBy(last)))
  {
    assert cmd + (asks + end) == cmd + asks + end;
    SaidInParts(cmd, asks, end, results, last);
  }

  lemma MeasuresAt(ips: seq<Bytes>, k: nat, asks: seq<Msg>, results: seq<Msg>, said: seq<Msg>)
    requires AsksFor(asks, ips) && |results| == |ips| && forall i :: 0 <= i < |results| ==> results[i] == Data(OK)
    requires said == [Command(MeasureLatency)] + asks + ([Data(END)] + results) && k < |said|
    ensures Measures(ips, k, said[k])
  {
    ThreeParts([Command(MeasureLatency)], asks, [Data(END)] + results, k);
    if 1 <= k <= 2 * |ips| {
      AskAt(asks, ips, k);
    }
  }

  /** A latency measurement asks each server for its own addresses in their order, and takes one result for each. */
  lemma LatencyAsks(ips: seq<seq<Bytes>>, j: nat, k: nat)
    requires j < |ips| && k < 3 * |ips[j]| + 2
    ensures |SentBy(Rest(LatencyScript(ips), j))| == 3 * |ips[j]| + 2
    ensures Measures(ips[j], k, SentBy(Rest(LatencyScript(ips), j))[k])
  {
    LatencySays(ips, j);
    AddressesSent(ips[j]);
    ResultsSent(|ips[j]|);
    MeasuresAt(ips[j], k, SentBy(AskIps(ips[j])), SentBy(Results(|ips[j]|)), SentBy(Rest(LatencyScript(ips), j)));
  }
}
