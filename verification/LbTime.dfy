/** Time and timers: time can always pass, and while it passes the timers do their work. An input that
    moves the clock is refused as long as a timer would run out before, so nothing here follows from
    the clock alone. */
module LbTime {
  import opened CellIds
  import opened LbModel
  import opened LbInvariants
  import opened LbSessions
  import opened LbFates
  import opened LbAnswers
  import opened LbPeers

  // ----- What timers do when nothing else happens -----

  /** The input is the expiry of a timer or the passage of time. */
  predicate IsTime(i: Input) {
    i.ev.RequestTimer? || i.ev.PeerTimer? || i.ev.Advance?
  }

  predicate OnlyTime(ins: seq<Input>) {
    forall k :: 0 <= k < |ins| ==> IsTime(ins[k])
  }

  function TimedOut(id: nat, env: Env): Fate {
    Ends(SentOn(env, id, LocFailure(SystemFailure)))
  }

  /** Between s and s', c has timed out by the given input: it is gone after it sent the failure, if that
      could be encoded then, and the disconnect. */
  ghost predicate HasTimedOutBy(s: Sys, s': Sys, c: Conn, i: Input) {
    s'.clock >= c.deadline && i.ev == RequestTimer(c.id) && Meets(s, s', c, TimedOut(c.id, i.env))
  }

  /** c has timed out by one of the inputs. */
  ghost predicate HasTimedOut(s: Sys, s': Sys, c: Conn, ins: seq<Input>) {
    exists m: nat :: m < |ins| && HasTimedOutBy(s, s', c, ins[m])
  }

  ghost predicate ConnWaitsOrTimedOut(s: Sys, s': Sys, c: Conn, ins: seq<Input>) {
    Meets(s, s', c, Stays) || HasTimedOut(s, s', c, ins)
  }

  /** The peer is as it was, or its timer has led it back to WAIT_RX_RESET. */
  ghost predicate PeerWaitsOrTimedOut(s: Sys, s': Sys, addr: Addr) {
    var v := View(s, addr);
    || View(s', addr) == v
    || (v.Some? && v.value.deadline.Some? && s'.clock >= v.value.deadline.value
        && View(s', addr) == Some(Peer(addr, WaitRxReset, None)))
  }

  ghost predicate OnlyTimersRan(s: Sys, s': Sys, ins: seq<Input>) {
    && Inv(s') && s'.stopped == s.stopped && s'.clock >= s.clock
    && (forall c :: c in s'.conns ==> c in s.conns)
    && (forall c :: c in s.conns ==> ConnWaitsOrTimedOut(s, s', c, ins))
    && (forall addr :: PeerWaitsOrTimedOut(s, s', addr))
  }

  lemma {:induction false} RequestTimerElsewhere(s: Sys, j: nat, env: Env, id: nat)
    requires Inv(s) && j < |s.conns| && !Live(s, id)
    ensures var s' := Close(s, j, Transmit(env, s.conns[j].id, LocFailure(SystemFailure)));
            !Live(s', id) && About(s'.trace, id) == About(s.trace, id)
  {
    var cid := s.conns[j].id;
    var outs := Transmit(env, cid, LocFailure(SystemFailure)) + [Disconnect(cid, ByClose)];
    LiveIff(s, j);
    AboutAppend(s.trace, outs, id);
    AboutSilent(outs, id);
    LiveAfterClose(s, j, id);
  }

  /** A timer of another connection does not speak for a connection that is gone. */
  lemma {:induction false} GoneStaysSilent(s: Sys, timer: nat, env: Env, id: nat)
    requires Inv(s) && !Live(s, id)
    ensures var s' := OnRequestTimer(s, timer, env);
            !Live(s', id) && About(s'.trace, id) == About(s.trace, id)
  {
    var j := IndexOfConn(s.conns, timer);
    if j < |s.conns| && s.clock >= s.conns[j].deadline {
      RequestTimerElsewhere(s, j, env, id);
    }
  }

  lemma {:induction false} StillOrGone(s: Sys, c: Conn)
    requires c in s.conns
    ensures Live(s, c.id)
  {
    var k :| 0 <= k < |s.conns| && s.conns[k] == c;
    LiveIff(s, k);
  }

  /** A connection that waits keeps waiting, or times out by this timer. */
  lemma {:induction false} TimerOnWaiting(s: Sys, s1: Sys, i: Input, c: Conn)
    requires Inv(s1) && Meets(s, s1, c, Stays) && i.ev.RequestTimer?
    ensures var s' := OnRequestTimer(s1, i.ev.id, i.env);
            Meets(s, s', c, Stays) || HasTimedOutBy(s, s', c, i)
  {
    var k :| 0 <= k < |s1.conns| && s1.conns[k] == c;
    TimerMeets(s1, i.ev.id, i.env, k);
  }

  /** A connection that has timed out stays gone and silent. */
  lemma {:induction false} TimerOnGone(s: Sys, s1: Sys, i: Input, c: Conn, cause: Input)
    requires Inv(s1) && HasTimedOutBy(s, s1, c, cause) && i.ev.RequestTimer?
    ensures HasTimedOutBy(s, OnRequestTimer(s1, i.ev.id, i.env), c, cause)
  {
    GoneStaysSilent(s1, i.ev.id, i.env, c.id);
  }

  lemma {:induction false} QuietTimer(s: Sys, s1: Sys, front: seq<Input>, i: Input, c: Conn)
    requires Inv(s1) && ConnWaitsOrTimedOut(s, s1, c, front) && i.ev.RequestTimer?
    ensures ConnWaitsOrTimedOut(s, OnRequestTimer(s1, i.ev.id, i.env), c, front + [i])
  {
    var ins := front + [i];
    if Meets(s, s1, c, Stays) {
      TimerOnWaiting(s, s1, i, c);
      assert ins[|front|] == i;
    } else {
      var m: nat :| m < |front| && HasTimedOutBy(s, s1, c, front[m]);
      TimerOnGone(s, s1, i, c, front[m]);
      assert ins[m] == front[m];
    }
  }

  lemma {:induction false} QuietConn(s: Sys, s1: Sys, front: seq<Input>, i: Input, s': Sys, c: Conn)
    requires Inv(s1) && !s1.stopped && IsTime(i) && s' == Step(s1, i)
    requires ConnWaitsOrTimedOut(s, s1, c, front)
    ensures ConnWaitsOrTimedOut(s, s', c, front + [i])
  {
    if i.ev.RequestTimer? {
      QuietTimer(s, s1, front, i, c);
    } else if !Meets(s, s1, c, Stays) {
      var m: nat :| m < |front| && HasTimedOutBy(s, s1, c, front[m]);
      assert (front + [i])[m] == front[m];
    }
  }

  lemma {:induction false} QuietPeer(s: Sys, s1: Sys, i: Input, s': Sys, addr: Addr)
    requires Inv(s1) && !s1.stopped && IsTime(i) && s' == Step(s1, i)
    requires PeerWaitsOrTimedOut(s, s1, addr)
    ensures PeerWaitsOrTimedOut(s, s', addr)
  {
    StepView(s1, i, addr);
  }

  lemma {:induction false} QuietStep(s: Sys, s1: Sys, front: seq<Input>, i: Input, s': Sys)
    requires OnlyTimersRan(s, s1, front) && !s.stopped && IsTime(i) && s' == Step(s1, i)
    ensures OnlyTimersRan(s, s', front + [i])
  {
    StepInv(s1, i);
    forall c | c in s'.conns ensures c in s.conns {
      if c !in s1.conns {
        NewConn(s1, i, s', c);
      }
    }
    forall c | c in s.conns ensures ConnWaitsOrTimedOut(s, s', c, front + [i]) {
      QuietConn(s, s1, front, i, s', c);
    }
    forall addr ensures PeerWaitsOrTimedOut(s, s', addr) {
      QuietPeer(s, s1, i, s', addr);
    }
  }

  /** However the timers are interleaved with the passage of time: a connection is where it was or has
      timed out, and a peer is as it was or has gone back to WAIT_RX_RESET. */
  lemma {:induction false} QuietRun(s: Sys, ins: seq<Input>)
    requires Inv(s) && !s.stopped && OnlyTime(ins)
    ensures OnlyTimersRan(s, Run(s, ins), ins)
  {
    if |ins| == 0 {
      forall c | c in s.conns ensures ConnWaitsOrTimedOut(s, s, c, ins) {
        Unaffected(s, s, c, []);
      }
    } else {
      var front, i := ins[..|ins| - 1], ins[|ins| - 1];
      QuietRun(s, front);
      QuietStep(s, Run(s, front), front, i, Run(s, ins));
      assert front + [i] == ins;
    }
  }

  /** A peer that awaits an acknowledgement until an earlier time is back in WAIT_RX_RESET, and one that
      does not, or until later, is as it was. */
  ghost predicate PeerTimerHasRun(s: Sys, s': Sys, addr: Addr) {
    var v := View(s, addr);
    if v.None? || v.value.deadline.None? then View(s', addr) == v
    else
      && (v.value.deadline.value < s'.clock ==> View(s', addr) == Some(Peer(addr, WaitRxReset, None)))
      && (v.value.deadline.value > s'.clock ==> View(s', addr) == v)
  }

  lemma {:induction false} DuePeerHasRun(s: Sys, ins: seq<Input>, s': Sys, addr: Addr)
    requires OnlyTimersRan(s, s', ins)
    ensures PeerTimerHasRun(s, s', addr)
  {
    assert PeerWaitsOrTimedOut(s, s', addr);
    var k := IndexOfPeer(s'.peers, addr);
    if k < |s'.peers| {
      assert PeerInv(s'.clock, s'.peers[k]);
    }
  }

  /** Whatever is due before the time that a quiet run reaches has happened, and nothing that is due
      later: every connection with an earlier deadline has timed out by an input of the run, those with a
      later one still wait and nothing was sent on them, and the timers of the peers likewise. */
  lemma {:induction false} DueTimersHaveRun(s: Sys, ins: seq<Input>, s': Sys)
    requires Inv(s) && !s.stopped && OnlyTime(ins) && s' == Run(s, ins)
    ensures forall c :: c in s.conns && c.deadline < s'.clock ==> HasTimedOut(s, s', c, ins)
    ensures forall c :: c in s.conns && c.deadline > s'.clock ==> Meets(s, s', c, Stays)
    ensures forall addr :: PeerTimerHasRun(s, s', addr)
  {
    QuietRun(s, ins);
    forall addr ensures PeerTimerHasRun(s, s', addr) {
      DuePeerHasRun(s, ins, s', addr);
    }
    forall k | 0 <= k < |s'.conns| ensures s'.conns[k].deadline >= s'.clock {
      assert ConnInv(s'.clock, s'.peers, s'.conns[k]);
    }
    forall c | c in s.conns
      ensures c.deadline < s'.clock ==> HasTimedOut(s, s', c, ins)
      ensures c.deadline > s'.clock ==> Meets(s, s', c, Stays)
    {
      assert ConnWaitsOrTimedOut(s, s', c, ins);
    }
  }

  // ----- Time can always pass -----

  /** How many peers have a timer running. */
  function Timers(ps: seq<Peer>): nat {
    if |ps| == 0 then 0 else (if ps[0].deadline.Some? then 1 else 0) + Timers(ps[1..])
  }

  lemma {:induction false} OneTimerLess(ps: seq<Peer>, k: nat, p: Peer)
    requires k < |ps| && ps[k].deadline.Some? && p.deadline.None?
    ensures Timers(ps[k := p]) == Timers(ps) - 1
  {
    if k == 0 {
    } else {
      assert ps[k := p][1..] == ps[1..][k - 1 := p];
      OneTimerLess(ps[1..], k - 1, p);
    }
  }

  lemma {:induction false} RunFirst(s: Sys, i: Input, rest: seq<Input>)
    ensures Run(s, [i] + rest) == Run(Step(s, i), rest)
  {
    if |rest| == 0 {
      assert [i] + rest == [i] && [i][..0] == [];
      assert Run(s, [i]) == Step(Run(s, [i][..0]), i);
    } else {
      var all, front := [i] + rest, rest[..|rest| - 1];
      assert all[..|all| - 1] == [i] + front;
      RunFirst(s, i, front);
    }
  }

  /** A due request timer takes a connection off the list, a due peer timer stops. */
  lemma {:induction false} DueRequest(s: Sys, k: nat, env: Env)
    requires Inv(s) && k < |s.conns| && s.conns[k].deadline == s.clock
    ensures var s' := OnRequestTimer(s, s.conns[k].id, env);
            s'.clock == s.clock && s'.stopped == s.stopped && s'.peers == s.peers && |s'.conns| < |s.conns|
  {
    ConnAt(s.conns, k);
  }

  lemma {:induction false} DuePeer(s: Sys, k: nat)
    requires Inv(s) && k < |s.peers| && s.peers[k].deadline == Some(s.clock)
    ensures var s' := OnPeerTimer(s, s.peers[k].addr);
            s'.clock == s.clock && s'.stopped == s.stopped && s'.conns == s.conns && Timers(s'.peers) < Timers(s.peers)
  {
    PeerAt(s.peers, k);
    OneTimerLess(s.peers, k, Peer(s.peers[k].addr, WaitRxReset, None));
  }

  /** The next input on the way to a later time: a timer that is due, or else one unit of time. */
  lemma {:induction false} NextTick(s: Sys, env: Env) returns (i: Input)
    requires Inv(s) && !s.stopped
    ensures var s' := Step(s, i);
            && IsTime(i) && i.env == env && !s'.stopped
            && (s'.clock == s.clock + 1
                || (s'.clock == s.clock && |s'.conns| + Timers(s'.peers) < |s.conns| + Timers(s.peers)))
  {
    if k: nat :| k < |s.conns| && s.conns[k].deadline == s.clock {
      i := Input(RequestTimer(s.conns[k].id), env);
      DueRequest(s, k, env);
    } else if k: nat :| k < |s.peers| && s.peers[k].deadline == Some(s.clock) {
      i := Input(PeerTimer(s.peers[k].addr), env);
      DuePeer(s, k);
    } else {
      i := Input(Advance(s.clock + 1), env);
      NothingDue(s);
    }
  }

  lemma {:induction false} NothingDue(s: Sys)
    requires Inv(s)
    requires forall k :: 0 <= k < |s.conns| ==> s.conns[k].deadline != s.clock
    requires forall k :: 0 <= k < |s.peers| ==> s.peers[k].deadline != Some(s.clock)
    ensures NoTimerBefore(s, s.clock + 1)
  {
    forall k | 0 <= k < |s.conns| ensures s.clock + 1 <= s.conns[k].deadline {
      assert ConnInv(s.clock, s.peers, s.conns[k]);
    }
    forall k | 0 <= k < |s.peers| && s.peers[k].deadline.Some? ensures s.clock + 1 <= s.peers[k].deadline.value {
      assert PeerInv(s.clock, s.peers[k]);
    }
  }

  lemma {:induction false} ReachTime(s: Sys, time: nat, envs: nat -> Env) returns (ins: seq<Input>)
    requires Inv(s) && !s.stopped && s.clock <= time
    ensures OnlyTime(ins) && Run(s, ins).clock == time
    ensures forall k: nat :: k < |ins| ==> ins[k].env == envs(k)
    decreases time - s.clock, |s.conns| + Timers(s.peers)
  {
    if s.clock == time {
      ins := [];
    } else {
      var i := NextTick(s, envs(0));
      StepInv(s, i);
      var rest := ReachTime(Step(s, i), time, (k: nat) => envs(k + 1));
      ReachFirst(s, i, rest, time, envs);
      ins := [i] + rest;
    }
  }

  lemma {:induction false} ReachFirst(s: Sys, i: Input, rest: seq<Input>, time: nat, envs: nat -> Env)
    requires IsTime(i) && i.env == envs(0) && OnlyTime(rest) && Run(Step(s, i), rest).clock == time
    requires forall k: nat :: k < |rest| ==> rest[k].env == envs(k + 1)
    ensures var ins := [i] + rest;
            && OnlyTime(ins) && Run(s, ins).clock == time
            && forall k: nat :: k < |ins| ==> ins[k].env == envs(k)
  {
    RunFirst(s, i, rest);
    var ins := [i] + rest;
    forall k: nat | k < |ins| ensures IsTime(ins[k]) && ins[k].env == envs(k) {
      if k > 0 {
        assert ins[k] == rest[k - 1] && rest[k - 1].env == envs(k - 1 + 1);
      }
    }
  }

  /** From every state that the program can be in, and whatever the libraries answer on the way, time can
      pass to any later point by nothing but timers and the passage of time, without stopping; and then
      every request that was due before has timed out, every request that is due later still waits, and
      every peer that awaited an acknowledgement for too long is back in WAIT_RX_RESET. */
  lemma {:induction false} TimePasses(s: Sys, time: nat, envs: nat -> Env) returns (ins: seq<Input>, s': Sys)
    requires Inv(s) && !s.stopped && s.clock <= time
    ensures OnlyTime(ins) && s' == Run(s, ins) && s'.clock == time && !s'.stopped
    ensures forall k: nat :: k < |ins| ==> ins[k].env == envs(k)
    ensures forall c :: c in s.conns && c.deadline < time ==> HasTimedOut(s, s', c, ins)
    ensures forall c :: c in s.conns && c.deadline > time ==> Meets(s, s', c, Stays)
    ensures forall addr :: PeerTimerHasRun(s, s', addr)
  {
    ins := ReachTime(s, time, envs);
    s' := Run(s, ins);
    QuietRun(s, ins);
    DueTimersHaveRun(s, ins, s');
  }
}
