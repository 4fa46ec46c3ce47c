/** What every step of the Lb interface keeps. */
module LbInvariants {
  import opened CellIds
  import opened CellConfig
  import opened LbModel

  ghost predicate UniqueIds(cs: seq<Conn>) {
    forall i, j :: 0 <= i < j < |cs| ==> cs[i].id != cs[j].id
  }

  ghost predicate UniqueAddrs(ps: seq<Peer>) {
    forall i, j :: 0 <= i < j < |ps| ==> ps[i].addr != ps[j].addr
  }

  /** A connection belongs to a READY peer, and its deadline is at most T-12 away and has not passed. */
  ghost predicate ConnInv(clock: nat, ps: seq<Peer>, c: Conn) {
    InState(ps, c.addr, Ready) && clock <= c.deadline <= clock + 5
  }

  /** A peer's timer runs exactly while a RESET ACKNOWLEDGE is awaited. */
  ghost predicate PeerInv(clock: nat, p: Peer) {
    && (p.deadline.Some? <==> p.state == WaitRxResetAck)
    && (p.deadline.Some? ==> clock <= p.deadline.value <= clock + 5)
  }

  ghost predicate LinksInv(clock: nat, ps: seq<Peer>, cs: seq<Conn>) {
    && UniqueIds(cs)
    && UniqueAddrs(ps)
    && (forall k :: 0 <= k < |cs| ==> ConnInv(clock, ps, cs[k]))
    && (forall k :: 0 <= k < |ps| ==> PeerInv(clock, ps[k]))
  }

  ghost predicate Inv(s: Sys) {
    LinksInv(s.clock, s.peers, s.conns) && ValidTable(s.config.table)
  }

  // ----- Lists -----

  lemma {:induction false} ConnAt(cs: seq<Conn>, k: nat)
    requires UniqueIds(cs) && k < |cs|
    ensures IndexOfConn(cs, cs[k].id) == k
  {
  }

  lemma {:induction false} PeerAt(ps: seq<Peer>, k: nat)
    requires UniqueAddrs(ps) && k < |ps|
    ensures IndexOfPeer(ps, ps[k].addr) == k
  {
  }

  /** Others keeps exactly the connections of other peers. */
  lemma {:induction false} OthersAre(cs: seq<Conn>, addr: Addr)
    ensures var r := Others(cs, addr);
            && |r| <= |cs|
            && (forall c :: c in r <==> c in cs && c.addr != addr)
  {
    if |cs| == 0 {
    } else {
      OthersAre(cs[1..], addr);
      assert cs == [cs[0]] + cs[1..];
    }
  }

  lemma {:induction false} OthersAppend(cs: seq<Conn>, c: Conn, addr: Addr)
    ensures Others(cs + [c], addr) == Others(cs, addr) + (if c.addr == addr then [] else [c])
    ensures Discards(cs + [c], addr) == Discards(cs, addr) + (if c.addr == addr then [Discarded(c.id)] else [])
  {
    if |cs| == 0 {
      assert cs + [c] == [c];
    } else {
      assert (cs + [c])[1..] == cs[1..] + [c];
      OthersAppend(cs[1..], c, addr);
    }
  }

  lemma {:induction false} OthersUnique(cs: seq<Conn>, addr: Addr)
    requires UniqueIds(cs)
    ensures UniqueIds(Others(cs, addr))
  {
    if |cs| == 0 {
    } else {
      OthersUnique(cs[1..], addr);
      OthersAre(cs[1..], addr);
      var rest := Others(cs[1..], addr);
      forall j | 0 <= j < |rest| ensures rest[j].id != cs[0].id {
        assert rest[j] in cs[1..];
      }
    }
  }

  lemma {:induction false} DiscardsOnly(cs: seq<Conn>, addr: Addr)
    ensures forall k :: 0 <= k < |Discards(cs, addr)| ==> Discards(cs, addr)[k].Discarded?
  {
    if |cs| == 0 {
    } else {
      DiscardsOnly(cs[1..], addr);
    }
  }

  lemma {:induction false} NoOthers(cs: seq<Conn>, addr: Addr)
    requires forall k :: 0 <= k < |cs| ==> cs[k].addr != addr
    ensures Others(cs, addr) == cs && Discards(cs, addr) == []
  {
    if |cs| == 0 {
    } else {
      NoOthers(cs[1..], addr);
    }
  }

  // ----- Counting -----

  /** How many connections are about the given subscriber. */
  function CountOf(cs: seq<Conn>, imsi: Identity): nat {
    if |cs| == 0 then 0 else (if cs[0].identity == imsi then 1 else 0) + CountOf(cs[1..], imsi)
  }

  lemma {:induction false} CountWithout(cs: seq<Conn>, k: nat, imsi: Identity)
    requires k < |cs|
    ensures CountOf(cs, imsi) == CountOf(cs[..k] + cs[k + 1..], imsi) + (if cs[k].identity == imsi then 1 else 0)
  {
    var rest := cs[..k] + cs[k + 1..];
    if k == 0 {
      assert rest == cs[1..];
    } else {
      assert rest[1..] == cs[1..][..k - 1] + cs[1..][k..];
      CountWithout(cs[1..], k - 1, imsi);
    }
  }

  lemma {:induction false} CountZero(cs: seq<Conn>, imsi: Identity)
    requires forall k :: 0 <= k < |cs| ==> cs[k].identity != imsi
    ensures CountOf(cs, imsi) == 0
  {
    if |cs| == 0 {
    } else {
      CountZero(cs[1..], imsi);
    }
  }

  lemma {:induction false} CountPositive(cs: seq<Conn>, k: nat)
    requires k < |cs|
    ensures CountOf(cs, cs[k].identity) > 0
  {
    CountWithout(cs, k, cs[k].identity);
  }

  // ----- Parts of a step -----

  ghost predicate NoConnsOf(s: Sys, addr: Addr) {
    forall k :: 0 <= k < |s.conns| ==> s.conns[k].addr != addr
  }

  lemma {:induction false} NotReadyNoConns(s: Sys, addr: Addr)
    requires Inv(s) && !InState(s.peers, addr, Ready)
    ensures NoConnsOf(s, addr)
  {
    forall k | 0 <= k < |s.conns| ensures s.conns[k].addr != addr {
      assert ConnInv(s.clock, s.peers, s.conns[k]);
    }
  }

  /** Any selection of the connections keeps the invariant. */
  lemma {:induction false} FewerConnsInv(s: Sys, cs: seq<Conn>)
    requires Inv(s) && UniqueIds(cs) && forall c :: c in cs ==> c in s.conns
    ensures Inv(s.(conns := cs))
  {
    forall k | 0 <= k < |cs| ensures ConnInv(s.clock, s.peers, cs[k]) {
      assert cs[k] in s.conns;
    }
  }

  lemma {:induction false} CloseInv(s: Sys, k: nat, outs: seq<Output>)
    requires Inv(s) && k < |s.conns|
    ensures Inv(Close(s, k, outs))
  {
    var cs := s.conns[..k] + s.conns[k + 1..];
    forall c | c in cs ensures c in s.conns {
    }
    FewerConnsInv(s, cs);
  }

  lemma {:induction false} ConcludeInv(s: Sys, k: nat, r: Reaction, env: Env)
    requires Inv(s) && k < |s.conns|
    ensures Inv(Conclude(s, k, r, env))
  {
    match r {
      case Ignore =>
      case Abandon => CloseInv(s, k, []);
      case Answer(pdu) => CloseInv(s, k, Transmit(env, s.conns[k].id, pdu));
    }
  }

  lemma {:induction false} DropInv(s: Sys, addr: Addr)
    requires Inv(s)
    ensures Inv(DropPeerConns(s, addr)) && NoConnsOf(DropPeerConns(s, addr), addr)
  {
    OthersUnique(s.conns, addr);
    OthersAre(s.conns, addr);
    var cs := Others(s.conns, addr);
    forall k | 0 <= k < |cs| ensures cs[k].addr != addr {
      assert cs[k] in cs;
    }
    FewerConnsInv(s, cs);
  }

  lemma {:induction false} SetPeerKeepsOthers(
      ps: seq<Peer>, addr: Addr, st: PeerState, deadline: Option<nat>, other: Addr)
    requires UniqueAddrs(ps)
    ensures var ps' := SetPeer(ps, addr, st, deadline);
            && UniqueAddrs(ps')
            && IndexOfPeer(ps', other) == IndexOfPeer(ps, other)
            && |ps'| == |ps|
            && (forall k :: 0 <= k < |ps| && ps[k].addr != addr ==> ps'[k] == ps[k])
  {
    var ps' := SetPeer(ps, addr, st, deadline);
    assert forall k :: 0 <= k < |ps| ==> ps'[k].addr == ps[k].addr;
    assert IndexOfPeer(ps', other) == IndexOfPeer(ps, other);
  }

  lemma {:induction false} WithPeerInv(s: Sys, addr: Addr, st: PeerState, deadline: Option<nat>)
    requires Inv(s) && PeerInv(s.clock, Peer(addr, st, deadline))
    requires st == Ready || NoConnsOf(s, addr)
    ensures Inv(s.WithPeer(addr, st, deadline))
  {
    var ps := SetPeer(s.peers, addr, st, deadline);
    SetPeerKeepsOthers(s.peers, addr, st, deadline, addr);
    forall k | 0 <= k < |s.conns| ensures ConnInv(s.clock, ps, s.conns[k]) {
      assert ConnInv(s.clock, s.peers, s.conns[k]);
      SetPeerKeepsOthers(s.peers, addr, st, deadline, s.conns[k].addr);
    }
  }

  lemma {:induction false} AddPeerInv(s: Sys, addr: Addr)
    requires Inv(s)
    ensures Inv(s.(peers := AddPeer(s.peers, addr)))
  {
    var ps := AddPeer(s.peers, addr);
    if IndexOfPeer(s.peers, addr) == |s.peers| {
      assert ps[1..] == s.peers;
      forall k | 0 <= k < |s.conns| ensures ConnInv(s.clock, ps, s.conns[k]) {
        assert ConnInv(s.clock, s.peers, s.conns[k]);
      }
    }
  }

  lemma {:induction false} StartResetInv(s: Sys, addr: Addr, env: Env)
    requires Inv(s) && !InState(s.peers, addr, Ready)
    ensures Inv(StartReset(s, addr, env))
  {
    NotReadyNoConns(s, addr);
    StartResetParts(s, addr, env);
    WithPeerInv(s, addr, WaitRxResetAck, Some(s.clock + T13));
    WithPeerInv(s.WithPeer(addr, WaitRxResetAck, Some(s.clock + T13)), addr, WaitRxReset, None);
  }

  /** Without connections to drop, starting a RESET changes the peer and nothing else but the trace. */
  lemma {:induction false} StartResetParts(s: Sys, addr: Addr, env: Env)
    requires NoConnsOf(s, addr)
    ensures var s' := StartReset(s, addr, env);
            var ps := SetPeer(s.peers, addr, WaitRxResetAck, Some(s.clock + T13));
            && s'.conns == s.conns && s'.config == s.config && s'.clock == s.clock && s'.stopped == s.stopped
            && s'.peers == (if env.encodes(Reset) && env.unitdataRc == 0 then ps
                            else SetPeer(ps, addr, WaitRxReset, None))
            && s'.trace == s.trace + (if env.encodes(Reset) then [Unitdata(addr, Reset, env.unitdataRc)] else [])
  {
    NoOthers(s.conns, addr);
    assert s.trace + [] == s.trace;
  }

  lemma {:induction false} AcceptResetInv(s: Sys, addr: Addr, env: Env)
    requires Inv(s)
    ensures Inv(AcceptReset(s, addr, env))
  {
    DropInv(s, addr);
    var s1 := DropPeerConns(s, addr);
    WithPeerInv(s1, addr, WaitRxReset, None);
    WithPeerInv(s1, addr, Ready, None);
  }

  lemma {:induction false} AddConnInv(s: Sys, c: Conn)
    requires Inv(s) && ConnInv(s.clock, s.peers, c) && !Live(s, c.id)
    ensures Inv(s.(conns := [c] + s.conns))
  {
  }

  lemma {:induction false} OpenInv(s: Sys, id: nat, addr: Addr, msg: CoMsg, env: Env)
    requires Inv(s) && !Live(s, id) && InState(s.peers, addr, Ready)
    ensures Inv(Open(s, id, addr, msg, env))
  {
    if msg.PerformLocReq? {
      AddConnInv(s, Conn(id, addr, msg.req.identity, msg.req.cellId, s.clock + T12));
    }
  }

  lemma {:induction false} OnConnectInv(s: Sys, id: nat, addr: Addr, msg: CoMsg, env: Env)
    requires Inv(s)
    ensures Inv(OnConnect(s, id, addr, msg, env))
  {
    AddPeerInv(s, addr);
    var s1 := s.(peers := AddPeer(s.peers, addr));
    if InState(s1.peers, addr, Ready) {
      if !Live(s, id) {
        OpenInv(s1, id, addr, msg, env);
      }
    } else {
      StartResetInv(s1, addr, env);
      StartResetInv(s1.Emit([Disconnect(id, ByPeer)]), addr, env);
    }
  }

  lemma {:induction false} OnDataInv(s: Sys, id: nat, msg: CoMsg, env: Env)
    requires Inv(s)
    ensures Inv(OnData(s, id, msg, env))
  {
    var k := IndexOfConn(s.conns, id);
    if k < |s.conns| {
      ConcludeInv(s, k, React(env, s.config.table, s.conns[k].cellId, msg), env);
    }
  }

  lemma {:induction false} OnUnitdataInv(s: Sys, addr: Addr, cl: ClMsg, env: Env)
    requires Inv(s)
    ensures Inv(OnUnitdata(s, addr, cl, env))
  {
    AddPeerInv(s, addr);
    var s1 := s.(peers := AddPeer(s.peers, addr));
    match cl {
      case RxReset => AcceptResetInv(s1, addr, env);
      case RxResetAck => WithPeerInv(s1, addr, Ready, None);
      case UnsupportedCl =>
    }
  }

  lemma {:induction false} OnPeerTimerInv(s: Sys, addr: Addr)
    requires Inv(s)
    ensures Inv(OnPeerTimer(s, addr))
  {
    var k := IndexOfPeer(s.peers, addr);
    if k < |s.peers| && s.peers[k].deadline.Some? {
      assert PeerInv(s.clock, s.peers[k]);
      NotReadyNoConns(s, addr);
      WithPeerInv(s, addr, WaitRxReset, None);
    }
  }

  lemma {:induction false} OnConnectIndInv(s: Sys, id: nat, addr: Addr, l2: Option<CoMsg>, env: Env)
    requires Inv(s)
    ensures Inv(OnConnectInd(s, id, addr, l2, env))
  {
    if l2.Some? {
      OnConnectInv(s.Emit([ConnResp(id)]), id, addr, l2.value, env);
    }
  }

  lemma {:induction false} OnDisconnectIndInv(s: Sys, id: nat, l2: Option<CoMsg>, env: Env)
    requires Inv(s)
    ensures Inv(OnDisconnectInd(s, id, l2, env))
  {
    if l2.Some? {
      OnDataInv(s, id, l2.value, env);
    }
  }

  lemma {:induction false} OnRequestTimerInv(s: Sys, id: nat, env: Env)
    requires Inv(s)
    ensures Inv(OnRequestTimer(s, id, env))
  {
    var k := IndexOfConn(s.conns, id);
    if k < |s.conns| {
      ConcludeInv(s, k, Answer(LocFailure(SystemFailure)), env);
    }
  }

  lemma {:induction false} AdvanceInv(s: Sys, to: nat)
    requires Inv(s)
    ensures Inv(OnAdvance(s, to))
  {
    if s.clock <= to && NoTimerBefore(s, to) {
      forall k | 0 <= k < |s.conns| ensures ConnInv(to, s.peers, s.conns[k]) {
        assert ConnInv(s.clock, s.peers, s.conns[k]);
      }
      forall k | 0 <= k < |s.peers| ensures PeerInv(to, s.peers[k]) {
        assert PeerInv(s.clock, s.peers[k]);
      }
    }
  }

  /** Every step keeps the invariant. */
  lemma {:induction false} StepInv(s: Sys, i: Input)
    requires Inv(s)
    ensures Inv(Step(s, i))
  {
    match i.ev {
      case NConnect(id, addr, l2) => OnConnectIndInv(s, id, addr, l2, i.env);
      case NData(id, msg) => OnDataInv(s, id, msg, i.env);
      case NDisconnect(id, l2) => OnDisconnectIndInv(s, id, l2, i.env);
      case NUnitdata(addr, cl) => OnUnitdataInv(s, addr, cl, i.env);
      case RequestTimer(id) => OnRequestTimerInv(s, id, i.env);
      case PeerTimer(addr) => OnPeerTimerInv(s, addr);
      case Advance(to) => AdvanceInv(s, to);
      case Configure(line) => ExecKeepsValid(s.config, line);
      case _ =>
    }
  }

  /** The invariant holds after every run. */
  lemma {:induction false} RunInv(ins: seq<Input>)
    ensures Inv(Run(INIT, ins))
  {
    if |ins| == 0 {
    } else {
      RunInv(ins[..|ins| - 1]);
      StepInv(Run(INIT, ins[..|ins| - 1]), ins[|ins| - 1]);
    }
  }

  /** The state after the first n inputs. */
  function StateAt(ins: seq<Input>, n: nat): Sys
    requires n <= |ins|
  {
    Run(INIT, ins[..n])
  }

  lemma {:induction false} StateAtNext(ins: seq<Input>, n: nat)
    requires n < |ins|
    ensures StateAt(ins, n + 1) == Step(StateAt(ins, n), ins[n])
  {
    assert ins[..n + 1][..n] == ins[..n];
  }

  lemma {:induction false} StateAtEnd(ins: seq<Input>)
    ensures StateAt(ins, |ins|) == Run(INIT, ins)
  {
    assert ins[..|ins|] == ins;
  }

  lemma {:induction false} StateAtPrefix(ins: seq<Input>, m: nat, n: nat)
    requires n <= m <= |ins|
    ensures StateAt(ins[..m], n) == StateAt(ins, n)
  {
    assert ins[..m][..n] == ins[..n];
  }
}
