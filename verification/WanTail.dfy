/** Runs with another end of the script: a step never looks past the first action. */
module WanTail {
  import opened WanSession
  import opened WanRun

  ghost predicate EndsIn(s: Sys, b: Script) {
    |b| <= |s.todo| && s.todo[|s.todo| - |b|..] == b
  }

  /** The state s, whose script ends in b, with c in the place of b. */
  function Retail(s: Sys, b: Script, c: Script): Sys
    requires |b| <= |s.todo|
  {
    s.(todo := s.todo[..|s.todo| - |b|] + c)
  }

  ghost predicate SendsFirst(b: Script) {
    b != [] ==> b[0].1.Send?
  }

  /** The controller's next action stands before the end b, or a step from here would use b up. */
  ghost predicate Ahead(s: Sys, b: Script) {
    |s.todo| > |b| || SendsFirst(b)
  }

  lemma StepShortens(s: Sys, t: Sys)
    requires Step(s, t)
    ensures t.todo == s.todo || (s.todo != [] && t.todo == s.todo[1..])
    ensures |t.chans| == |s.chans|
  {
  }

  lemma RestHead(s: Script, a: Script, i: nat)
    requires s != [] && a != [] && s[0] == a[0] && s[0].0 == i
    ensures Rest(s, i) != [] && Rest(a, i) != [] && Rest(s, i)[0] == Rest(a, i)[0] == s[0].1
    ensures Rest(s, i)[1..] == Rest(s[1..], i) && Rest(a, i)[1..] == Rest(a[1..], i)
  {
  }

  /** A first send is used up by the controller's step. */
  lemma SendIsUsedUp(s: Sys, t: Sys)
    requires ControllerMoves(s, t) && s.todo[0].1.Send?
    ensures t.todo == s.todo[1..]
  {
    var i := s.todo[0].0;
    var rest := Rest(s.todo, i);
    assert |rest[1..]| < |rest|;
  }

  lemma ControllerIsBefore(s: Sys, t: Sys, b: Script)
    requires ControllerMoves(s, t) && EndsIn(s, b) && EndsIn(t, b) && Ahead(s, b)
    ensures |s.todo| > |b|
  {
    if |s.todo| == |b| {
      SendIsUsedUp(s, t);
      assert false;
    }
  }

  lemma ControllerIgnoresTail(s: Sys, t: Sys, b: Script, c: Script)
    requires ControllerMoves(s, t) && EndsIn(s, b) && EndsIn(t, b) && |s.todo| > |b|
    ensures ControllerMoves(Retail(s, b, c), Retail(t, b, c))
  {
    var s', t' := Retail(s, b, c), Retail(t, b, c);
    var i := s.todo[0].0;
    var rest := Rest(s.todo, i);
    var rest1 :| ControllerStep(s.chans[i], s.sub, rest, t.chans[i], t.sub, rest1) &&
                 t.todo == (if rest1 == rest then s.todo else s.todo[1..]);
    assert |rest[1..]| < |rest|;
    RestHead(s.todo, s'.todo, i);
    var rest' := Rest(s'.todo, i);
    var rest1' := if rest1 == rest then rest' else rest'[1..];
    assert |rest'[1..]| < |rest'|;
    assert ControllerStep(s'.chans[i], s'.sub, rest', t'.chans[i], t'.sub, rest1');
    assert t'.todo == if rest1' == rest' then s'.todo else s'.todo[1..];
  }

  lemma StepIgnoresTail(s: Sys, t: Sys, b: Script, c: Script)
    requires Step(s, t) && EndsIn(s, b) && EndsIn(t, b) && Ahead(s, b)
    ensures Step(Retail(s, b, c), Retail(t, b, c))
  {
    if ControllerMoves(s, t) {
      ControllerIsBefore(s, t, b);
      ControllerIgnoresTail(s, t, b, c);
    } else {
      var j: nat :| ServerMoves(s, t, j);
      assert ServerMoves(Retail(s, b, c), Retail(t, b, c), j);
    }
  }

  // ----- ends of scripts along a run

  lemma {:induction false} RunShortens(run: seq<Sys>, i: nat, a: nat, b: Script)
    requires IsRun(run) && a <= i < |run| && EndsIn(run[i], b)
    ensures EndsIn(run[a], b)
    decreases i - a
  {
    if a < i {
      assert Consecutive(run, i - 1);
      StepShortens(run[i - 1], run[i]);
      RunShortens(run, i - 1, a, b);
    }
  }

  lemma {:induction false} RunKeepsSize(run: seq<Sys>, i: nat)
    requires IsRun(run) && i < |run|
    ensures |run[i].chans| == |run[0].chans|
  {
    if i > 0 {
      RunKeepsSize(run, i - 1);
      assert Consecutive(run, i - 1);
      StepShortens(run[i - 1], run[i]);
    }
  }

  lemma RunPrefix(run: seq<Sys>, i: nat)
    requires IsRun(run) && i < |run|
    ensures IsRun(run[..i + 1])
  {
    var prefix := run[..i + 1];
    forall k: nat | k + 1 < |prefix| ensures Consecutive(prefix, k) {
      assert Consecutive(run, k);
    }
  }

  lemma RunSnoc(run: seq<Sys>, i: nat, t: Sys)
    requires IsRun(run) && |run| == i + 1 && Step(run[i], t)
    ensures IsRun(run + [t]) && (run + [t])[0] == run[0] && (run + [t])[i + 1] == t
  {
    var longer := run + [t];
    forall k: nat | k + 1 < |longer| ensures Consecutive(longer, k) {
      if k < i {
        assert Consecutive(run, k);
      }
    }
  }

  lemma SplitEnd(x: Script, a: Script, b: Script)
    requires x == a + b
    ensures |b| <= |x| && x[|x| - |b|..] == b && x[..|x| - |b|] == a
  {
  }

  lemma EndOfEnd(s: Sys, b: Script, a: Script, c: Script)
    requires EndsIn(s, b) && b == a + c
    ensures EndsIn(s, c)
  {
    assert s.todo[|s.todo| - |c|..] == b[|a|..];
  }

  lemma TwoEnds(s: Sys, t: Sys, b: Script)
    requires EndsIn(s, t.todo) && EndsIn(s, b) && |b| <= |t.todo|
    ensures EndsIn(t, b)
  {
    assert t.todo[|t.todo| - |b|..] == s.todo[|s.todo| - |b|..];
  }

  /** As long as the script is not shorter than its end b, it still ends in b. */
  lemma StillEndsIn(run: seq<Sys>, i: nat, b: Script)
    requires IsRun(run) && i < |run| && EndsIn(run[0], b) && |b| <= |run[i].todo|
    ensures EndsIn(run[i], b)
  {
    RunShortens(run, i, 0, run[i].todo);
    TwoEnds(run[0], run[i], b);
  }

  /** A run whose script has shrunk to the length of its end b or below has begun b; a is the first time. */
  lemma {:induction false} PassesThrough(run: seq<Sys>, b: Script, i: nat) returns (a: nat)
    requires IsRun(run) && i < |run| && EndsIn(run[0], b) && |run[i].todo| <= |b|
    ensures a <= i && run[a].todo == b
    ensures forall k: nat :: k < a ==> |run[k].todo| > |b|
  {
    if i > 0 && |run[i - 1].todo| <= |b| {
      a := PassesThrough(run, b, i - 1);
    } else {
      a := i;
      if i > 0 {
        assert Consecutive(run, i - 1);
        StepShortens(run[i - 1], run[i]);
      }
      StillEndsIn(run, i, b);
      forall k: nat | k < a ensures |run[k].todo| > |b| {
        RunShortens(run, i - 1, k, run[i - 1].todo);
      }
    }
  }

  /** The run with c in the place of the end b of every script. */
  lemma {:induction false} RetailRun(run: seq<Sys>, b: Script, c: Script) returns (other: seq<Sys>)
    requires IsRun(run) && EndsIn(run[|run| - 1], b)
    requires forall k: nat {:trigger Ahead(run[k], b)} :: k + 1 < |run| ==> Ahead(run[k], b)
    ensures EndsIn(run[0], b)
    ensures IsRun(other) && |other| == |run|
    ensures other[0] == Retail(run[0], b, c) && other[|run| - 1] == Retail(run[|run| - 1], b, c)
  {
    var last := run[|run| - 1];
    if |run| == 1 {
      other := [Retail(last, b, c)];
    } else {
      var before := run[..|run| - 1];
      RunPrefix(run, |run| - 2);
      RunShortens(run, |run| - 1, |run| - 2, b);
      assert Consecutive(run, |run| - 2);
      forall k: nat | k + 1 < |before| ensures Ahead(before[k], b) {
        assert Ahead(run[k], b);
      }
      var shorter := RetailRun(before, b, c);
      assert Ahead(run[|run| - 2], b);
      StepIgnoresTail(run[|run| - 2], last, b, c);
      RunSnoc(shorter, |run| - 2, Retail(last, b, c));
      other := shorter + [Retail(last, b, c)];
    }
  }
}
