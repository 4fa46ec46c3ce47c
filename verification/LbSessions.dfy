/** The life of a connection as SCCP sees it: what is sent on it over a whole run, and what can end it. */
module LbSessions {
  import opened CellIds
  import opened LbModel
  import opened LbInvariants

  // ----- The language of one connection id -----

  /** Closed: there is no connection with the id. Begun, Asked, Answered: there is one, and nothing, a
      request for the timing advance, or the response has been sent on it. Wrong: out of order. */
  datatype Phase = Closed | Begun | Asked | Answered | Wrong

  predicate IsResponse(pdu: Pdu) {
    pdu.LocEstimate? || pdu.LocFailure?
  }

  /** Whether an output belongs to the life of the connection with the id. A disconnect that only
      answers SCCP (a refused or a reported disconnect) does not. */
  predicate Concerns(out: Output, id: nat) {
    match out
    case Opened(i) => i == id
    case Data(i, _) => i == id
    case Disconnect(i, origin) => i == id && origin == ByClose
    case Discarded(i) => i == id
    case _ => false
  }

  function Next(ph: Phase, out: Output, id: nat): Phase {
    if !Concerns(out, id) then ph else
    match out
    case Opened(_) => if ph.Closed? then Begun else Wrong
    case Data(_, pdu) =>
      if pdu.TaRequest? && ph.Begun? then Asked
      else if IsResponse(pdu) && (ph.Begun? || ph.Asked?) then Answered
      else Wrong
    case Disconnect(_, _) => if ph.Closed? || ph.Wrong? then Wrong else Closed
    case _ => if ph.Begun? || ph.Asked? then Closed else Wrong
  }

  function After(ph: Phase, outs: seq<Output>, id: nat): Phase
    decreases |outs|
  {
    if |outs| == 0 then ph else After(Next(ph, outs[0], id), outs[1..], id)
  }

  lemma {:induction false} AfterAppend(ph: Phase, a: seq<Output>, b: seq<Output>, id: nat)
    ensures After(ph, a + b, id) == After(After(ph, a, id), b, id)
    decreases |a|
  {
    if |a| == 0 {
      assert a + b == b;
    } else {
      assert (a + b)[1..] == a[1..] + b;
      AfterAppend(Next(ph, a[0], id), a[1..], b, id);
    }
  }

  function PhaseOf(s: Sys, id: nat): Phase {
    After(Closed, s.trace, id)
  }

  /** Between two inputs, exactly the live connections are in an open phase, before the response. */
  ghost predicate PhaseOk(s: Sys, id: nat) {
    var ph := PhaseOf(s, id);
    && !ph.Wrong? && !ph.Answered?
    && (!s.stopped ==> (Live(s, id) <==> !ph.Closed?))
  }

  lemma {:induction false} LiveIff(s: Sys, k: nat)
    requires k < |s.conns|
    ensures Live(s, s.conns[k].id)
  {
  }

  predicate Silent(outs: seq<Output>, id: nat) {
    forall k :: 0 <= k < |outs| ==> !Concerns(outs[k], id)
  }

  lemma {:induction false} SilentAfter(ph: Phase, outs: seq<Output>, id: nat)
    requires Silent(outs, id)
    ensures After(ph, outs, id) == ph
    decreases |outs|
  {
    if |outs| == 0 {
    } else {
      SilentAfter(ph, outs[1..], id);
    }
  }

  lemma {:induction false} EmitPhase(s: Sys, outs: seq<Output>, id: nat)
    ensures PhaseOf(s.Emit(outs), id) == After(PhaseOf(s, id), outs, id)
  {
    AfterAppend(Closed, s.trace, outs, id);
  }

  lemma {:induction false} AfterOne(ph: Phase, out: Output, id: nat)
    ensures After(ph, [out], id) == Next(ph, out, id)
  {
    assert [out][1..] == [];
  }

  /** A response, if any, and the disconnect end an open phase of the connection, and no other. */
  lemma {:induction false} ClosedAfter(ph: Phase, data: seq<Output>, cid: nat, id: nat)
    requires data == [] || (|data| == 1 && data[0].Data? && data[0].id == cid && IsResponse(data[0].pdu))
    requires cid == id ==> ph.Begun? || ph.Asked?
    ensures After(ph, data + [Disconnect(cid, ByClose)], id) == if cid == id then Closed else ph
  {
    AfterAppend(ph, data, [Disconnect(cid, ByClose)], id);
    if data != [] {
      assert data == [data[0]];
      AfterOne(ph, data[0], id);
    }
    AfterOne(After(ph, data, id), Disconnect(cid, ByClose), id);
  }

  lemma {:induction false} ClosePhase(s: Sys, k: nat, data: seq<Output>, id: nat)
    requires Inv(s) && !s.stopped && k < |s.conns| && PhaseOk(s, id)
    requires data == [] || (|data| == 1 && data[0].Data? && data[0].id == s.conns[k].id && IsResponse(data[0].pdu))
    ensures PhaseOk(Close(s, k, data), id)
  {
    var c := s.conns[k];
    LiveIff(s, k);
    EmitPhase(s, data + [Disconnect(c.id, ByClose)], id);
    ClosedAfter(PhaseOf(s, id), data, c.id, id);
    LiveAfterClose(s, k, id);
  }

  lemma {:induction false} LiveAfterClose(s: Sys, k: nat, id: nat)
    requires Inv(s) && k < |s.conns|
    ensures Live(s.(conns := s.conns[..k] + s.conns[k + 1..]), id) <==> Live(s, id) && id != s.conns[k].id
  {
    var s' := s.(conns := s.conns[..k] + s.conns[k + 1..]);
    var j := IndexOfConn(s.conns, id);
    if j < |s.conns| && j != k {
      LiveIff(s', if j < k then j else j - 1);
    }
    var j' := IndexOfConn(s'.conns, id);
    if j' < |s'.conns| {
      LiveIff(s, if j' < k then j' else j' + 1);
    }
  }

  lemma {:induction false} ConcludePhase(s: Sys, k: nat, r: Reaction, env: Env, id: nat)
    requires Inv(s) && !s.stopped && k < |s.conns| && PhaseOk(s, id)
    requires r.Answer? ==> IsResponse(r.pdu)
    ensures PhaseOk(Conclude(s, k, r, env), id)
  {
    match r {
      case Ignore =>
      case Abandon => ClosePhase(s, k, [], id);
      case Answer(pdu) => ClosePhase(s, k, Transmit(env, s.conns[k].id, pdu), id);
    }
  }

  /** Each connection of the peer is reported as discarded once, and no other. */
  lemma {:induction false} DiscardsPhase(cs: seq<Conn>, addr: Addr, ph: Phase, id: nat)
    requires UniqueIds(cs)
    ensures var k := IndexOfConn(cs, id);
            After(ph, Discards(cs, addr), id)
            == if k < |cs| && cs[k].addr == addr then Next(ph, Discarded(id), id) else ph
  {
    if |cs| == 0 {
    } else {
      var rest := Discards(cs[1..], addr);
      if cs[0].id == id {
        DiscardsOther(cs[1..], addr, id);
        SilentAfter(Next(ph, Discarded(id), id), rest, id);
        SilentAfter(ph, rest, id);
      } else {
        DiscardsPhase(cs[1..], addr, ph, id);
      }
      assert ([Discarded(cs[0].id)] + rest)[1..] == rest && [] + rest == rest;
    }
  }

  lemma {:induction false} DiscardsOther(cs: seq<Conn>, addr: Addr, id: nat)
    requires forall k :: 0 <= k < |cs| ==> cs[k].id != id
    ensures Silent(Discards(cs, addr), id)
  {
    if |cs| == 0 {
    } else {
      DiscardsOther(cs[1..], addr, id);
    }
  }

  lemma {:induction false} LiveAfterDrop(s: Sys, addr: Addr, id: nat)
    requires Inv(s)
    ensures var k := IndexOfConn(s.conns, id);
            Live(DropPeerConns(s, addr), id) <==> k < |s.conns| && s.conns[k].addr != addr
  {
    var s' := DropPeerConns(s, addr);
    OthersAre(s.conns, addr);
    var k := IndexOfConn(s.conns, id);
    if k < |s.conns| && s.conns[k].addr != addr {
      assert s.conns[k] in s'.conns;
      var j :| 0 <= j < |s'.conns| && s'.conns[j] == s.conns[k];
      LiveIff(s', j);
    }
    var j := IndexOfConn(s'.conns, id);
    if j < |s'.conns| {
      assert s'.conns[j] in s.conns;
      var i :| 0 <= i < |s.conns| && s.conns[i] == s'.conns[j];
      ConnAt(s.conns, i);
    }
  }

  lemma {:induction false} DropPhase(s: Sys, addr: Addr, id: nat)
    requires Inv(s) && !s.stopped && PhaseOk(s, id)
    ensures PhaseOk(DropPeerConns(s, addr), id)
  {
    EmitPhase(s, Discards(s.conns, addr), id);
    DiscardsPhase(s.conns, addr, PhaseOf(s, id), id);
    LiveAfterDrop(s, addr, id);
  }

  lemma {:induction false} SilentPhase(s: Sys, s': Sys, outs: seq<Output>, id: nat)
    requires PhaseOk(s, id) && Silent(outs, id)
    requires s'.trace == s.trace + outs && s'.conns == s.conns && s'.stopped == s.stopped
    ensures PhaseOk(s', id)
  {
    EmitPhase(s, outs, id);
    SilentAfter(PhaseOf(s, id), outs, id);
  }

  lemma {:induction false} OpenedPhase(s: Sys, s': Sys, id0: nat, rest: seq<Output>, id: nat)
    requires s'.trace == s.trace + [Opened(id0)] + rest
    ensures PhaseOf(s', id) == After(Next(PhaseOf(s, id), Opened(id0), id), rest, id)
  {
    var s1 := s.Emit([Opened(id0)]);
    EmitPhase(s, [Opened(id0)], id);
    AfterOne(PhaseOf(s, id), Opened(id0), id);
    EmitPhase(s1, rest, id);
  }

  /** A new connection that is closed within its first input, with or without a response. */
  lemma {:induction false} OpenedAndClosed(s: Sys, s': Sys, id0: nat, data: seq<Output>, id: nat)
    requires !Live(s, id0) && !s.stopped && PhaseOk(s, id)
    requires data == [] || (|data| == 1 && data[0].Data? && data[0].id == id0 && IsResponse(data[0].pdu))
    requires s'.trace == s.trace + [Opened(id0)] + (data + [Disconnect(id0, ByClose)])
    requires s'.conns == s.conns && s'.stopped == s.stopped
    ensures PhaseOk(s', id)
  {
    OpenedPhase(s, s', id0, data + [Disconnect(id0, ByClose)], id);
    ClosedAfter(Next(PhaseOf(s, id), Opened(id0), id), data, id0, id);
  }

  /** A new connection that stays. */
  lemma {:induction false} OpenedAndAsked(s: Sys, s': Sys, c: Conn, data: seq<Output>, id: nat)
    requires !Live(s, c.id) && !s.stopped && PhaseOk(s, id)
    requires data == [] || data == [Data(c.id, TaRequest)]
    requires s'.trace == s.trace + [Opened(c.id)] + data
    requires s'.conns == [c] + s.conns && s'.stopped == s.stopped
    ensures PhaseOk(s', id)
  {
    OpenedPhase(s, s', c.id, data, id);
    AfterOne(Next(PhaseOf(s, id), Opened(c.id), id), Data(c.id, TaRequest), id);
  }

  lemma {:induction false} OpenPhase(s: Sys, id0: nat, addr: Addr, msg: CoMsg, env: Env, id: nat)
    requires Inv(s) && !s.stopped && !Live(s, id0) && PhaseOk(s, id)
    ensures PhaseOk(Open(s, id0, addr, msg, env), id)
  {
    var s' := Open(s, id0, addr, msg, env);
    if NeedsRequest(msg) {
      OpenedPhase(s, s', id0, [], id);
    } else if !msg.PerformLocReq? {
      assert [] + [Disconnect(id0, ByClose)] == [Disconnect(id0, ByClose)];
      OpenedAndClosed(s, s', id0, [], id);
    } else {
      match msg.req.apdu {
        case Some(TaLayer3(ta)) =>
          OpenedAndClosed(s, s', id0, Transmit(env, id0, Locate(env, s.config.table, msg.req.cellId, ta)), id);
        case _ =>
          var c := Conn(id0, addr, msg.req.identity, msg.req.cellId, s.clock + T12);
          OpenedAndAsked(s, s', c, Transmit(env, id0, TaRequest), id);
      }
    }
  }

  lemma {:induction false} SendResetPhase(s: Sys, addr: Addr, env: Env, id: nat)
    requires PhaseOk(s, id)
    ensures PhaseOk(SendReset(s, addr, env), id)
  {
    SilentPhase(s, SendReset(s, addr, env),
                if env.encodes(Reset) then [Unitdata(addr, Reset, env.unitdataRc)] else [], id);
  }

  lemma {:induction false} StartResetPhase(s: Sys, addr: Addr, env: Env, id: nat)
    requires Inv(s) && !s.stopped && PhaseOk(s, id) && !InState(s.peers, addr, Ready)
    ensures PhaseOk(StartReset(s, addr, env), id)
  {
    NotReadyNoConns(s, addr);
    var s1 := s.WithPeer(addr, WaitRxResetAck, Some(s.clock + T13));
    WithPeerInv(s, addr, WaitRxResetAck, Some(s.clock + T13));
    SilentPhase(s, s1, [], id);
    DropPhase(s1, addr, id);
    SendResetPhase(DropPeerConns(s1, addr), addr, env, id);
  }

  lemma {:induction false} AcceptResetPhase(s: Sys, addr: Addr, env: Env, id: nat)
    requires Inv(s) && !s.stopped && PhaseOk(s, id)
    ensures PhaseOk(AcceptReset(s, addr, env), id)
  {
    DropPhase(s, addr, id);
    var s1 := DropPeerConns(s, addr);
    var sent := if env.encodes(ResetAck) then [Unitdata(addr, ResetAck, env.unitdataRc)] else [];
    SilentPhase(s1, AcceptReset(s, addr, env), sent, id);
  }

  lemma {:induction false} OnInitialPhase(s: Sys, id0: nat, addr: Addr, msg: CoMsg, env: Env, id: nat)
    requires Inv(s) && !s.stopped && !Live(s, id0) && PhaseOk(s, id)
    ensures PhaseOk(OnInitial(s, id0, addr, msg, env), id)
  {
    AddPeerInv(s, addr);
    var s1 := s.(peers := AddPeer(s.peers, addr));
    SilentPhase(s, s1, [], id);
    if InState(s1.peers, addr, Ready) {
      OpenPhase(s1, id0, addr, msg, env, id);
    } else {
      var s2 := s1.Emit([Disconnect(id0, ByPeer)]);
      SilentPhase(s1, s2, [Disconnect(id0, ByPeer)], id);
      StartResetPhase(s1, addr, env, id);
      StartResetPhase(s2, addr, env, id);
    }
  }

  lemma {:induction false} OnDataPhase(s: Sys, id0: nat, msg: CoMsg, env: Env, id: nat)
    requires Inv(s) && !s.stopped && PhaseOk(s, id)
    ensures PhaseOk(OnData(s, id0, msg, env), id)
  {
    var k := IndexOfConn(s.conns, id0);
    if k < |s.conns| {
      ConcludePhase(s, k, React(env, s.config.table, s.conns[k].cellId, msg), env, id);
    }
  }

  lemma {:induction false} OnUnitdataPhase(s: Sys, addr: Addr, cl: ClMsg, env: Env, id: nat)
    requires Inv(s) && !s.stopped && PhaseOk(s, id)
    ensures PhaseOk(OnUnitdata(s, addr, cl, env), id)
  {
    AddPeerInv(s, addr);
    var s1 := s.(peers := AddPeer(s.peers, addr));
    SilentPhase(s, s1, [], id);
    match cl {
      case RxReset => AcceptResetPhase(s1, addr, env, id);
      case RxResetAck => SilentPhase(s, OnUnitdata(s, addr, cl, env), [], id);
      case UnsupportedCl =>
    }
  }

  lemma {:induction false} OnConnectIndPhase(s: Sys, id0: nat, addr: Addr, l2: Option<CoMsg>, env: Env, id: nat)
    requires Inv(s) && !s.stopped && PhaseOk(s, id)
    ensures PhaseOk(OnConnectInd(s, id0, addr, l2, env), id)
  {
    if l2.Some? {
      var s1 := s.Emit([ConnResp(id0)]);
      SilentPhase(s, s1, [ConnResp(id0)], id);
      if Live(s, id0) {
        SilentPhase(s1, s1.Emit([Disconnect(id0, BySap)]), [Disconnect(id0, BySap)], id);
      } else {
        OnInitialPhase(s1, id0, addr, l2.value, env, id);
      }
    }
  }

  lemma {:induction false} OnDisconnectIndPhase(s: Sys, id0: nat, l2: Option<CoMsg>, env: Env, id: nat)
    requires Inv(s) && !s.stopped && PhaseOk(s, id)
    ensures PhaseOk(OnDisconnectInd(s, id0, l2, env), id)
  {
    var s1 := if l2.None? then s else OnData(s, id0, l2.value, env);
    if l2.Some? {
      OnDataPhase(s, id0, l2.value, env, id);
    }
    SilentPhase(s1, s1.Emit([Disconnect(id0, BySap)]), [Disconnect(id0, BySap)], id);
  }

  lemma {:induction false} OnRequestTimerPhase(s: Sys, id0: nat, env: Env, id: nat)
    requires Inv(s) && !s.stopped && PhaseOk(s, id)
    ensures PhaseOk(OnRequestTimer(s, id0, env), id)
  {
    var k := IndexOfConn(s.conns, id0);
    if k < |s.conns| {
      ConcludePhase(s, k, Answer(LocFailure(SystemFailure)), env, id);
    }
  }

  lemma {:induction false} StepPhase(s: Sys, i: Input, id: nat)
    requires Inv(s) && PhaseOk(s, id)
    ensures PhaseOk(Step(s, i), id)
  {
    if s.stopped {
      return;
    }
    match i.ev {
      case NConnect(id0, addr, l2) => OnConnectIndPhase(s, id0, addr, l2, i.env, id);
      case NData(id0, msg) => OnDataPhase(s, id0, msg, i.env, id);
      case NDisconnect(id0, l2) => OnDisconnectIndPhase(s, id0, l2, i.env, id);
      case NUnitdata(addr, cl) => OnUnitdataPhase(s, addr, cl, i.env, id);
      case RequestTimer(id0) => OnRequestTimerPhase(s, id0, i.env, id);
      case _ => SilentPhase(s, Step(s, i), [], id);
    }
  }

  /** Over every run and for every id: what is sent on the connections with that id is, one connection
      after the other, at most one request for the timing advance, at most one response, and the
      disconnect of a closed connection; a discarded connection has sent no response. Between two
      inputs the connection is live exactly if its sequence is unfinished. */
  lemma {:induction false} OutputLanguage(ins: seq<Input>, id: nat)
    ensures PhaseOk(Run(INIT, ins), id)
  {
    if |ins| == 0 {
    } else {
      var before := ins[..|ins| - 1];
      OutputLanguage(before, id);
      RunInv(before);
      StepPhase(Run(INIT, before), ins[|ins| - 1], id);
    }
  }
}
