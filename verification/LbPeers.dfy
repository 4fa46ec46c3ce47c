/** The RESET procedure with each peer, and what a RESET does to the connections. */
module LbPeers {
  import opened CellIds
  import opened LbModel
  import opened LbInvariants

  // ----- One peer, one input -----

  /** What is known of the peer with an address: its state and timer, if it has been heard of. */
  function View(s: Sys, addr: Addr): Option<Peer> {
    var k := IndexOfPeer(s.peers, addr);
    if k < |s.peers| then Some(s.peers[k]) else None
  }

  predicate Sends(env: Env, pdu: Pdu) {
    env.encodes(pdu) && env.unitdataRc == 0
  }

  /** What an input does to a peer, from the peer, the time and whether the connection id is in use. */
  function NextView(clock: nat, idInUse: bool, v: Option<Peer>, addr: Addr, i: Input): Option<Peer> {
    match i.ev
    case NConnect(_, calling, l2) =>
      if calling != addr || l2.None? || idInUse || (v.Some? && v.value.state.Ready?) then v
      else if Sends(i.env, Reset) then Some(Peer(addr, WaitRxResetAck, Some(clock + 5)))
      else Some(Peer(addr, WaitRxReset, None))
    case NUnitdata(calling, cl) =>
      if calling != addr then v
      else if cl.RxReset? then Some(Peer(addr, if Sends(i.env, ResetAck) then Ready else WaitRxReset, None))
      else if v.None? then Some(Peer(addr, WaitRxReset, None))
      else if cl.RxResetAck? && v.value.state.WaitRxResetAck? then Some(Peer(addr, Ready, None))
      else v
    case PeerTimer(a) =>
      if a == addr && v.Some? && v.value.deadline.Some? && v.value.deadline.value <= clock
      then Some(Peer(addr, WaitRxReset, None)) else v
    case _ => v
  }

  lemma {:induction false} ViewAfterSet(s: Sys, addr: Addr, st: PeerState, deadline: Option<nat>, other: Addr)
    requires UniqueAddrs(s.peers)
    ensures View(s.WithPeer(addr, st, deadline), other)
         == if other == addr && View(s, addr).Some? then Some(Peer(addr, st, deadline)) else View(s, other)
  {
    SetPeerKeepsOthers(s.peers, addr, st, deadline, other);
  }

  lemma {:induction false} ViewAfterAdd(s: Sys, addr: Addr, other: Addr)
    ensures View(s.(peers := AddPeer(s.peers, addr)), other)
         == if other == addr && View(s, addr).None? then Some(Peer(addr, WaitRxReset, None)) else View(s, other)
  {
    var ps := AddPeer(s.peers, addr);
    if |ps| > |s.peers| {
      assert ps[1..] == s.peers;
    }
  }

  lemma {:induction false} StartResetView(s: Sys, addr: Addr, env: Env, other: Addr)
    requires Inv(s) && !InState(s.peers, addr, Ready)
    ensures View(StartReset(s, addr, env), other)
         == if other != addr || View(s, addr).None? then View(s, other)
            else if Sends(env, Reset) then Some(Peer(addr, WaitRxResetAck, Some(s.clock + 5)))
            else Some(Peer(addr, WaitRxReset, None))
  {
    NotReadyNoConns(s, addr);
    StartResetParts(s, addr, env);
    var s1 := s.WithPeer(addr, WaitRxResetAck, Some(s.clock + T13));
    SetPeerKeepsOthers(s.peers, addr, WaitRxResetAck, Some(s.clock + T13), addr);
    ViewAfterSet(s, addr, WaitRxResetAck, Some(s.clock + T13), other);
    ViewAfterSet(s, addr, WaitRxResetAck, Some(s.clock + T13), addr);
    ViewAfterSet(s1, addr, WaitRxReset, None, other);
  }

  /** A first message of a peer that is known by now. */
  lemma {:induction false} InitialView(s: Sys, id: nat, addr: Addr, msg: CoMsg, env: Env, other: Addr)
    requires Inv(s) && View(s, addr).Some?
    ensures View(OnInitial(s, id, addr, msg, env), other)
         == if other != addr || InState(s.peers, addr, Ready) then View(s, other)
            else if Sends(env, Reset) then Some(Peer(addr, WaitRxResetAck, Some(s.clock + 5)))
            else Some(Peer(addr, WaitRxReset, None))
  {
    var k := IndexOfPeer(s.peers, addr);
    match s.peers[k].state {
      case Ready => OpenKeepsPeers(s, id, addr, msg, env);
      case WaitRxReset => StartResetView(s, addr, env, other);
      case WaitRxResetAck => StartResetView(s.Emit([Disconnect(id, ByPeer)]), addr, env, other);
    }
  }

  lemma {:induction false} OpenKeepsPeers(s: Sys, id: nat, addr: Addr, msg: CoMsg, env: Env)
    ensures Open(s, id, addr, msg, env).peers == s.peers
  {
  }

  lemma {:induction false} OnInitialAdds(s: Sys, id: nat, addr: Addr, msg: CoMsg, env: Env)
    ensures OnInitial(s, id, addr, msg, env) == OnInitial(s.(peers := AddPeer(s.peers, addr)), id, addr, msg, env)
  {
  }

  lemma {:induction false} ConnectView(s: Sys, id: nat, addr: Addr, msg: CoMsg, env: Env, other: Addr)
    requires Inv(s) && !Live(s, id)
    ensures View(OnInitial(s, id, addr, msg, env), other)
         == NextView(s.clock, false, View(s, other), other, Input(NConnect(id, addr, Some(msg)), env))
  {
    AddPeerInv(s, addr);
    OnInitialAdds(s, id, addr, msg, env);
    ViewAfterAdd(s, addr, other);
    ViewAfterAdd(s, addr, addr);
    InitialView(s.(peers := AddPeer(s.peers, addr)), id, addr, msg, env, other);
  }

  lemma {:induction false} ConnectIndView(s: Sys, id: nat, addr: Addr, l2: Option<CoMsg>, env: Env, other: Addr)
    requires Inv(s)
    ensures View(OnConnectInd(s, id, addr, l2, env), other)
         == NextView(s.clock, Live(s, id), View(s, other), other, Input(NConnect(id, addr, l2), env))
  {
    if l2.Some? && !Live(s, id) {
      ConnectView(s.Emit([ConnResp(id)]), id, addr, l2.value, env, other);
    }
  }

  lemma {:induction false} PeerTimerView(s: Sys, addr: Addr, env: Env, other: Addr)
    requires Inv(s)
    ensures View(OnPeerTimer(s, addr), other)
         == NextView(s.clock, false, View(s, other), other, Input(PeerTimer(addr), env))
  {
    ViewAfterSet(s, addr, WaitRxReset, None, other);
  }

  lemma {:induction false} AcceptResetView(s: Sys, addr: Addr, env: Env, other: Addr)
    requires UniqueAddrs(s.peers) && View(s, addr).Some?
    ensures View(AcceptReset(s, addr, env), other)
         == if other != addr then View(s, other)
            else Some(Peer(addr, if Sends(env, ResetAck) then Ready else WaitRxReset, None))
  {
    ViewAfterSet(s, addr, Ready, None, other);
    ViewAfterSet(s, addr, WaitRxReset, None, other);
  }

  lemma {:induction false} UnitdataView(s: Sys, addr: Addr, cl: ClMsg, env: Env, other: Addr)
    requires Inv(s)
    ensures View(OnUnitdata(s, addr, cl, env), other)
         == NextView(s.clock, false, View(s, other), other, Input(NUnitdata(addr, cl), env))
  {
    AddPeerInv(s, addr);
    var s1 := s.(peers := AddPeer(s.peers, addr));
    ViewAfterAdd(s, addr, other);
    ViewAfterAdd(s, addr, addr);
    match cl {
      case RxReset => AcceptResetView(s1, addr, env, other);
      case RxResetAck => ViewAfterSet(s1, addr, Ready, None, other);
      case UnsupportedCl =>
    }
  }

  /** Every step moves every peer on its own: other peers and the connections have no influence on it,
      except that a connection request on an id in use is refused. */
  lemma {:induction false} StepView(s: Sys, i: Input, addr: Addr)
    requires Inv(s) && !s.stopped
    ensures View(Step(s, i), addr) == NextView(s.clock, i.ev.NConnect? && Live(s, i.ev.id), View(s, addr), addr, i)
  {
    match i.ev {
      case NConnect(id, calling, l2) => ConnectIndView(s, id, calling, l2, i.env, addr);
      case NUnitdata(calling, cl) => UnitdataView(s, calling, cl, i.env, addr);
      case PeerTimer(a) => PeerTimerView(s, a, i.env, addr);
      case _ =>
    }
  }

  // ----- Handshake history -----

  /** The handshake is complete: the peer's RESET was acknowledged, or it acknowledged ours while that
      was awaited. */
  predicate Shakes(s: Sys, i: Input, addr: Addr) {
    && !s.stopped && i.ev.NUnitdata? && i.ev.calling == addr
    && ((i.ev.cl.RxReset? && Sends(i.env, ResetAck)) || (i.ev.cl.RxResetAck? && InState(s.peers, addr, WaitRxResetAck)))
  }

  /** The peer's RESET could not be acknowledged. */
  predicate FailsToAck(s: Sys, i: Input, addr: Addr) {
    !s.stopped && i.ev == NUnitdata(addr, RxReset) && !Sends(i.env, ResetAck)
  }

  lemma {:induction false} ReadyStep(s: Sys, i: Input, addr: Addr)
    requires Inv(s)
    ensures InState(Step(s, i).peers, addr, Ready) <==>
      Shakes(s, i, addr) || (InState(s.peers, addr, Ready) && !FailsToAck(s, i, addr))
  {
    if !s.stopped {
      StepView(s, i, addr);
      var k := IndexOfPeer(s.peers, addr);
      if k < |s.peers| {
        assert PeerInv(s.clock, s.peers[k]);
      }
    }
  }

  predicate FailsAt(ins: seq<Input>, n: nat, addr: Addr)
    requires n < |ins|
  {
    FailsToAck(StateAt(ins, n), ins[n], addr)
  }

  /** The n-th input completed the handshake, and every RESET since then has been acknowledged. */
  ghost predicate ShakenAt(ins: seq<Input>, n: nat, addr: Addr)
    requires n < |ins|
  {
    && Shakes(StateAt(ins, n), ins[n], addr)
    && forall m :: n < m < |ins| ==> !FailsAt(ins, m, addr)
  }

  lemma {:induction false} ShakenBefore(ins: seq<Input>, last: nat, n: nat, addr: Addr)
    requires n < last && |ins| == last + 1
    ensures ShakenAt(ins, n, addr) <==> ShakenAt(ins[..last], n, addr) && !FailsAt(ins, last, addr)
  {
    StateAtPrefix(ins, last, n);
    forall m | n < m < last ensures FailsAt(ins[..last], m, addr) <==> FailsAt(ins, m, addr) {
      StateAtPrefix(ins, last, m);
    }
  }

  ghost predicate Shaken(ins: seq<Input>, addr: Addr) {
    exists n: nat :: n < |ins| && ShakenAt(ins, n, addr)
  }

  lemma {:induction false} ShakenStep(ins: seq<Input>, last: nat, addr: Addr)
    requires |ins| == last + 1
    ensures Shaken(ins, addr) <==>
      || Shakes(StateAt(ins, last), ins[last], addr)
      || (Shaken(ins[..last], addr) && !FailsAt(ins, last, addr))
  {
    forall n: nat | n < last
      ensures ShakenAt(ins, n, addr) <==> ShakenAt(ins[..last], n, addr) && !FailsAt(ins, last, addr)
    {
      ShakenBefore(ins, last, n, addr);
    }
    assert ShakenAt(ins, last, addr) <==> Shakes(StateAt(ins, last), ins[last], addr);
  }

  /** Over every run: a peer is READY exactly if a handshake was completed since the last time that its
      RESET could not be acknowledged. */
  lemma {:induction false} ReadyHistory(ins: seq<Input>, addr: Addr)
    ensures InState(Run(INIT, ins).peers, addr, Ready) <==> Shaken(ins, addr)
  {
    if |ins| == 0 {
    } else {
      var last := |ins| - 1;
      ReadyHistory(ins[..last], addr);
      RunInv(ins[..last]);
      StateAtEnd(ins);
      StateAtNext(ins, last);
      ReadyStep(StateAt(ins, last), ins[last], addr);
      ShakenStep(ins, last, addr);
    }
  }

  /** RESET is the last that was sent, and T-13 is started. */
  ghost predicate Asks(s: Sys, s': Sys, addr: Addr) {
    && |s'.trace| > |s.trace| && s'.trace[|s'.trace| - 1] == Unitdata(addr, Reset, 0)
    && View(s', addr) == Some(Peer(addr, WaitRxResetAck, Some(s.clock + 5)))
  }

  /** The n-th input made the program send RESET to the peer and start T-13, and nothing has happened to
      the peer since. */
  ghost predicate AskedAt(ins: seq<Input>, n: nat, addr: Addr)
    requires n < |ins|
  {
    && Asks(StateAt(ins, n), StateAt(ins, n + 1), addr)
    && forall m :: n < m <= |ins| ==> View(StateAt(ins, m), addr) == View(StateAt(ins, n + 1), addr)
  }

  /** Only a first message of a peer that is not READY leads to waiting for an acknowledgement, and RESET
      is then the last that was sent. */
  lemma {:induction false} AskingStep(s: Sys, i: Input, s': Sys, addr: Addr)
    requires Inv(s) && s' == Step(s, i)
    requires View(s', addr) != View(s, addr) && InState(s'.peers, addr, WaitRxResetAck)
    ensures Asks(s, s', addr)
  {
    StepView(s, i, addr);
    AskingConnect(s, i.ev.id, addr, i.ev.l2.value, i.env);
  }

  lemma {:induction false} AskingConnect(s: Sys, id: nat, addr: Addr, msg: CoMsg, env: Env)
    requires Inv(s) && !Live(s, id) && !InState(s.peers, addr, Ready) && Sends(env, Reset)
    ensures Asks(s, OnConnectInd(s, id, addr, Some(msg), env), addr)
  {
    ConnectIndView(s, id, addr, Some(msg), env, addr);
    AskingTrace(s.Emit([ConnResp(id)]), id, addr, msg, env);
  }

  lemma {:induction false} AskingTrace(s: Sys, id: nat, addr: Addr, msg: CoMsg, env: Env)
    requires Inv(s) && !InState(s.peers, addr, Ready) && Sends(env, Reset)
    ensures var s' := OnInitial(s, id, addr, msg, env);
            |s'.trace| > |s.trace| && s'.trace[|s'.trace| - 1] == Unitdata(addr, Reset, 0)
  {
    AddPeerInv(s, addr);
    ViewAfterAdd(s, addr, addr);
    var s1 := s.(peers := AddPeer(s.peers, addr));
    NotReadyNoConns(s1, addr);
    StartResetParts(s1, addr, env);
    StartResetParts(s1.Emit([Disconnect(id, ByPeer)]), addr, env);
  }

  /** Over every run: whenever an acknowledgement is awaited, RESET was handed to SCCP when the wait
      began, and the wait ends at most T-13 after that. */
  lemma {:induction false} AwaitHistory(ins: seq<Input>, addr: Addr) returns (n: nat)
    requires InState(Run(INIT, ins).peers, addr, WaitRxResetAck)
    ensures n < |ins| && AskedAt(ins, n, addr)
    ensures Run(INIT, ins).clock <= StateAt(ins, n).clock + 5
  {
    RunInv(ins);
    StateAtEnd(ins);
    n := AskedIndex(ins, addr);
    var k := IndexOfPeer(Run(INIT, ins).peers, addr);
    assert PeerInv(Run(INIT, ins).clock, Run(INIT, ins).peers[k]);
  }

  lemma {:induction false} AskedIndex(ins: seq<Input>, addr: Addr) returns (n: nat)
    requires InState(Run(INIT, ins).peers, addr, WaitRxResetAck)
    ensures n < |ins| && AskedAt(ins, n, addr)
  {
    var last := |ins| - 1;
    StateAtEnd(ins);
    if View(StateAt(ins, |ins|), addr) == View(StateAt(ins, last), addr) {
      n := AskedIndex(ins[..last], addr);
      AskedLater(ins, last, n, addr);
    } else {
      n := last;
      AskedNow(ins, last, addr);
    }
  }

  lemma {:induction false} AskedNow(ins: seq<Input>, last: nat, addr: Addr)
    requires |ins| == last + 1 && InState(StateAt(ins, last + 1).peers, addr, WaitRxResetAck)
    requires View(StateAt(ins, last + 1), addr) != View(StateAt(ins, last), addr)
    ensures AskedAt(ins, last, addr)
  {
    assert Asks(StateAt(ins, last), StateAt(ins, last + 1), addr) by {
      RunInv(ins[..last]);
      StateAtNext(ins, last);
      AskingStep(StateAt(ins, last), ins[last], StateAt(ins, last + 1), addr);
    }
  }

  lemma {:induction false} AskedLater(ins: seq<Input>, last: nat, n: nat, addr: Addr)
    requires n < last && |ins| == last + 1 && AskedAt(ins[..last], n, addr)
    requires View(StateAt(ins, |ins|), addr) == View(StateAt(ins, last), addr)
    ensures AskedAt(ins, n, addr)
  {
    StateAtPrefix(ins, last, n);
    StateAtPrefix(ins, last, n + 1);
    forall m | n < m <= |ins| ensures View(StateAt(ins, m), addr) == View(StateAt(ins, n + 1), addr) {
      StillAsked(ins, last, n, if m <= last then m else last, addr);
    }
  }

  lemma {:induction false} StillAsked(ins: seq<Input>, last: nat, n: nat, m: nat, addr: Addr)
    requires n < m <= last && |ins| == last + 1 && AskedAt(ins[..last], n, addr)
    ensures View(StateAt(ins, m), addr) == View(StateAt(ins, n + 1), addr)
  {
    StateAtPrefix(ins, last, m);
    StateAtPrefix(ins, last, n + 1);
  }

  // ----- What a RESET does to the connections -----

  /** r is what remains of cs when the connections of the peer are taken out: the others at increasing
      positions, every one of them, and nothing else. */
  ghost predicate Remains(cs: seq<Conn>, r: seq<Conn>, addr: Addr, at: seq<nat>) {
    && |at| == |r|
    && (forall i, j :: 0 <= i < j < |at| ==> at[i] < at[j])
    && (forall i :: 0 <= i < |at| ==> at[i] < |cs| && r[i] == cs[at[i]])
    && (forall k: nat :: k < |cs| ==> (k in at <==> cs[k].addr != addr))
  }

  lemma {:induction false} OneMoreRemains(cs: seq<Conn>, r: seq<Conn>, addr: Addr, at: seq<nat>, c: Conn)
    requires Remains(cs, r, addr, at)
    ensures c.addr == addr ==> Remains(cs + [c], r, addr, at)
    ensures c.addr != addr ==> Remains(cs + [c], r + [c], addr, at + [|cs|])
  {
    assert forall k :: k in at ==> k < |cs|;
    var at' := at + [|cs|];
    assert forall k: nat :: k in at' <==> k in at || k == |cs|;
  }

  lemma {:induction false} OthersRemain(cs: seq<Conn>, addr: Addr) returns (at: seq<nat>)
    ensures Remains(cs, Others(cs, addr), addr, at)
  {
    if |cs| == 0 {
      at := [];
    } else {
      var front, c := cs[..|cs| - 1], cs[|cs| - 1];
      assert cs == front + [c];
      at := OthersRemain(front, addr);
      OneMoreRemains(front, Others(front, addr), addr, at, c);
      OthersAppend(front, c, addr);
      assert Others(front, addr) + [] == Others(front, addr);
      if c.addr != addr {
        at := at + [|front|];
      }
    }
  }

  /** How many connections of the peer are about the given subscriber. */
  function CountOfPeer(cs: seq<Conn>, imsi: Identity, addr: Addr): nat {
    if |cs| == 0 then 0
    else (if cs[0].identity == imsi && cs[0].addr == addr then 1 else 0) + CountOfPeer(cs[1..], imsi, addr)
  }

  lemma {:induction false} OthersCount(cs: seq<Conn>, imsi: Identity, addr: Addr)
    ensures CountOf(Others(cs, addr), imsi) == CountOf(cs, imsi) - CountOfPeer(cs, imsi, addr)
  {
    if |cs| == 0 {
    } else {
      OthersCount(cs[1..], imsi, addr);
      assert Others(cs, addr) == (if cs[0].addr == addr then [] else [cs[0]]) + Others(cs[1..], addr);
    }
  }

  /** Marks of dropped connections: nothing is handed to SCCP. */
  predicate OnlyMarks(outs: seq<Output>) {
    forall k :: 0 <= k < |outs| ==> outs[k].Discarded?
  }

  lemma {:induction false} ResetConns(s: Sys, addr: Addr, env: Env)
    ensures OnUnitdata(s, addr, RxReset, env).conns == Others(s.conns, addr)
  {
  }

  lemma {:induction false} ResetIsQuiet(s: Sys, addr: Addr, env: Env)
    ensures exists marks ::
      && OnUnitdata(s, addr, RxReset, env).trace
         == s.trace + marks + (if env.encodes(ResetAck) then [Unitdata(addr, ResetAck, env.unitdataRc)] else [])
      && OnlyMarks(marks)
  {
    DiscardsOnly(s.conns, addr);
    assert OnlyMarks(Discards(s.conns, addr));
  }

  lemma {:induction false} ResetView(s: Sys, addr: Addr, env: Env, other: Addr)
    requires Inv(s)
    ensures var s' := OnUnitdata(s, addr, RxReset, env);
            && (other != addr ==> View(s', other) == View(s, other))
            && InState(s'.peers, addr, if Sends(env, ResetAck) then Ready else WaitRxReset)
  {
    UnitdataView(s, addr, RxReset, env, other);
    UnitdataView(s, addr, RxReset, env, addr);
  }

  /** A RESET removes all connections of its peer and no other, keeps the order of the others, lowers the
      use of every subscriber by the number of removed connections about it, and sends nothing on any
      connection: only the acknowledgement, if it can be encoded. No other peer moves. */
  lemma {:induction false} ResetDropsOnePeer(s: Sys, addr: Addr, env: Env, s': Sys, other: Addr, imsi: Identity)
    requires Inv(s) && !s.stopped && s' == Step(s, Input(NUnitdata(addr, RxReset), env))
    ensures exists at :: Remains(s.conns, s'.conns, addr, at)
    ensures CountOf(s'.conns, imsi) == CountOf(s.conns, imsi) - CountOfPeer(s.conns, imsi, addr)
    ensures exists marks ::
      && s'.trace
         == s.trace + marks + (if env.encodes(ResetAck) then [Unitdata(addr, ResetAck, env.unitdataRc)] else [])
      && OnlyMarks(marks)
    ensures other != addr ==> View(s', other) == View(s, other)
    ensures InState(s'.peers, addr, if Sends(env, ResetAck) then Ready else WaitRxReset)
  {
    ResetConns(s, addr, env);
    var at := OthersRemain(s.conns, addr);
    OthersCount(s.conns, imsi, addr);
    ResetIsQuiet(s, addr, env);
    ResetView(s, addr, env, other);
  }
}
