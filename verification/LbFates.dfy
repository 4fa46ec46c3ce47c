/** What ends a connection, and what becomes of every accepted request. */
module LbFates {
  import opened CellIds
  import opened CellLocations
  import opened LbModel
  import opened LbInvariants
  import opened LbSessions

  // ----- One connection, one input -----

  /** A connection stays, is dropped silently, or ends after the given data was sent on it. */
  datatype Fate = Stays | Dropped | Ends(data: seq<Output>)

  /** Data on a connection is sent exactly if it can be encoded. */
  function SentOn(env: Env, id: nat, pdu: Pdu): seq<Output> {
    if env.encodes(pdu) then [Data(id, pdu)] else []
  }

  function FateOfReaction(c: Conn, r: Reaction, env: Env): Fate {
    match r
    case Ignore => Stays
    case Abandon => Ends([])
    case Answer(pdu) => Ends(SentOn(env, c.id, pdu))
  }

  /** What a message for a connection id, if there is one, means for a live connection. */
  function FateOnMessage(table: seq<CellLocation>, c: Conn, id: nat, l2: Option<CoMsg>, env: Env): Fate {
    if id == c.id && l2.Some? then FateOfReaction(c, React(env, table, c.cellId, l2.value), env) else Stays
  }

  /** What an input does to a live connection, from the connection, the time and the table alone. */
  function FateOf(clock: nat, table: seq<CellLocation>, c: Conn, i: Input): Fate {
    match i.ev
    case NUnitdata(addr, cl) => if cl.RxReset? && addr == c.addr then Dropped else Stays
    case NData(id, msg) => FateOnMessage(table, c, id, Some(msg), i.env)
    case NDisconnect(id, l2) => FateOnMessage(table, c, id, l2, i.env)
    case RequestTimer(id) =>
      if id == c.id && clock >= c.deadline then Ends(SentOn(i.env, c.id, LocFailure(SystemFailure))) else Stays
    case _ => Stays
  }

  /** The outputs that belong to the life of a connection. */
  function About(outs: seq<Output>, id: nat): seq<Output> {
    if |outs| == 0 then [] else (if Concerns(outs[0], id) then [outs[0]] else []) + About(outs[1..], id)
  }

  lemma {:induction false} AboutAppend(a: seq<Output>, b: seq<Output>, id: nat)
    ensures About(a + b, id) == About(a, id) + About(b, id)
  {
    if |a| == 0 {
      assert a + b == b;
    } else {
      assert (a + b)[1..] == a[1..] + b;
      AboutAppend(a[1..], b, id);
      var first, x, y := if Concerns(a[0], id) then [a[0]] else [], About(a[1..], id), About(b, id);
      assert first + (x + y) == (first + x) + y;
    }
  }

  lemma {:induction false} AboutSilent(outs: seq<Output>, id: nat)
    requires Silent(outs, id)
    ensures About(outs, id) == []
  {
    if |outs| == 0 {
    } else {
      AboutSilent(outs[1..], id);
    }
  }

  lemma {:induction false} AboutAll(outs: seq<Output>, id: nat)
    requires forall k :: 0 <= k < |outs| ==> Concerns(outs[k], id)
    ensures About(outs, id) == outs
  {
    if |outs| == 0 {
    } else {
      AboutAll(outs[1..], id);
    }
  }

  function LastWords(id: nat, f: Fate): seq<Output> {
    match f
    case Stays => []
    case Dropped => [Discarded(id)]
    case Ends(data) => data + [Disconnect(id, ByClose)]
  }

  /** c met the given fate on the way from s to s'. */
  ghost predicate Meets(s: Sys, s': Sys, c: Conn, f: Fate) {
    && (f.Stays? ==> c in s'.conns)
    && (!f.Stays? ==> !Live(s', c.id))
    && About(s'.trace, c.id) == About(s.trace, c.id) + LastWords(c.id, f)
  }

  lemma {:induction false} Unaffected(s: Sys, s': Sys, c: Conn, outs: seq<Output>)
    requires c in s'.conns && s'.trace == s.trace + outs && Silent(outs, c.id)
    ensures Meets(s, s', c, Stays)
  {
    AboutAppend(s.trace, outs, c.id);
    AboutSilent(outs, c.id);
  }

  /** Silence before or after does not change what happened to c. */
  lemma {:induction false} MeetsThen(s: Sys, s1: Sys, s': Sys, c: Conn, f: Fate, outs: seq<Output>)
    requires Meets(s, s1, c, f) && s'.conns == s1.conns && s'.trace == s1.trace + outs && Silent(outs, c.id)
    ensures Meets(s, s', c, f)
  {
    AboutAppend(s1.trace, outs, c.id);
    AboutSilent(outs, c.id);
  }

  lemma {:induction false} CloseMeets(s: Sys, j: nat, k: nat, data: seq<Output>)
    requires Inv(s) && j < |s.conns| && k < |s.conns|
    requires forall n :: 0 <= n < |data| ==> Concerns(data[n], s.conns[j].id)
    ensures Meets(s, Close(s, j, data), s.conns[k], if j == k then Ends(data) else Stays)
  {
    var c, s' := s.conns[k], Close(s, j, data);
    var outs := data + [Disconnect(s.conns[j].id, ByClose)];
    if j == k {
      AboutAppend(s.trace, outs, c.id);
      AboutAll(outs, c.id);
      LiveAfterClose(s, k, c.id);
    } else {
      assert s'.conns[if k < j then k else k - 1] == c;
      Unaffected(s, s', c, outs);
    }
  }

  lemma {:induction false} ConcludeMeets(s: Sys, j: nat, k: nat, r: Reaction, env: Env)
    requires Inv(s) && j < |s.conns| && k < |s.conns|
    ensures Meets(s, Conclude(s, j, r, env), s.conns[k], if j == k then FateOfReaction(s.conns[k], r, env) else Stays)
  {
    match r {
      case Ignore => assert s.trace + [] == s.trace; Unaffected(s, s, s.conns[k], []);
      case Abandon => CloseMeets(s, j, k, []);
      case Answer(pdu) => CloseMeets(s, j, k, Transmit(env, s.conns[j].id, pdu));
    }
  }

  lemma {:induction false} OnDataMeets(s: Sys, id: nat, msg: CoMsg, env: Env, k: nat)
    requires Inv(s) && k < |s.conns|
    ensures Meets(s, OnData(s, id, msg, env), s.conns[k], FateOnMessage(s.config.table, s.conns[k], id, Some(msg), env))
  {
    ConnAt(s.conns, k);
    var j := IndexOfConn(s.conns, id);
    if j < |s.conns| {
      ConcludeMeets(s, j, k, React(env, s.config.table, s.conns[j].cellId, msg), env);
    } else {
      ConcludeMeets(s, k, k, Ignore, env);
    }
  }

  lemma {:induction false} DisconnectMeets(s: Sys, id: nat, l2: Option<CoMsg>, env: Env, k: nat)
    requires Inv(s) && k < |s.conns|
    ensures Meets(s, OnDisconnectInd(s, id, l2, env), s.conns[k],
                  FateOnMessage(s.config.table, s.conns[k], id, l2, env))
  {
    var c, s' := s.conns[k], OnDisconnectInd(s, id, l2, env);
    if l2.Some? {
      OnDataMeets(s, id, l2.value, env, k);
      MeetsThen(s, OnData(s, id, l2.value, env), s', c,
                FateOnMessage(s.config.table, c, id, l2, env), [Disconnect(id, BySap)]);
    } else {
      Unaffected(s, s', c, [Disconnect(id, BySap)]);
    }
  }

  lemma {:induction false} DiscardsAbout(cs: seq<Conn>, addr: Addr, k: nat)
    requires UniqueIds(cs) && k < |cs|
    ensures About(Discards(cs, addr), cs[k].id) == if cs[k].addr == addr then [Discarded(cs[k].id)] else []
  {
    var first := if cs[0].addr == addr then [Discarded(cs[0].id)] else [];
    var rest := Discards(cs[1..], addr);
    AboutAppend(first, rest, cs[k].id);
    if k == 0 {
      AboutAll(first, cs[k].id);
      DiscardsOther(cs[1..], addr, cs[0].id);
      AboutSilent(rest, cs[0].id);
    } else {
      AboutSilent(first, cs[k].id);
      DiscardsAbout(cs[1..], addr, k - 1);
    }
  }

  lemma {:induction false} DropMeets(s: Sys, addr: Addr, k: nat)
    requires Inv(s) && k < |s.conns|
    ensures Meets(s, DropPeerConns(s, addr), s.conns[k], if s.conns[k].addr == addr then Dropped else Stays)
  {
    AboutAppend(s.trace, Discards(s.conns, addr), s.conns[k].id);
    DiscardsAbout(s.conns, addr, k);
    ConnAt(s.conns, k);
    LiveAfterDrop(s, addr, s.conns[k].id);
    OthersAre(s.conns, addr);
  }

  lemma {:induction false} AcceptResetMeets(s: Sys, addr: Addr, env: Env, k: nat)
    requires Inv(s) && k < |s.conns|
    ensures Meets(s, AcceptReset(s, addr, env), s.conns[k], if s.conns[k].addr == addr then Dropped else Stays)
  {
    DropMeets(s, addr, k);
    var f := if s.conns[k].addr == addr then Dropped else Stays;
    var sent := if env.encodes(ResetAck) then [Unitdata(addr, ResetAck, env.unitdataRc)] else [];
    MeetsThen(s, DropPeerConns(s, addr), AcceptReset(s, addr, env), s.conns[k], f, sent);
  }

  lemma {:induction false} OpenMeets(s: Sys, id: nat, addr: Addr, msg: CoMsg, env: Env, k: nat)
    requires Inv(s) && k < |s.conns| && !Live(s, id)
    ensures Meets(s, Open(s, id, addr, msg, env), s.conns[k], Stays)
  {
    var s', c := Open(s, id, addr, msg, env), s.conns[k];
    var s1 := s.Emit([Opened(id)]);
    var more := s'.trace[|s1.trace|..];
    assert s'.trace == s.trace + ([Opened(id)] + more);
    assert c in s'.conns;
    Unaffected(s, s', c, [Opened(id)] + more);
  }

  /** Starting a RESET with a peer that is not READY says nothing about any connection. */
  lemma {:induction false} StartResetMeets(s: Sys, s1: Sys, refused: seq<Output>, addr: Addr, env: Env, c: Conn)
    requires Inv(s1) && !InState(s1.peers, addr, Ready) && c in s.conns
    requires s1.conns == s.conns && s1.trace == s.trace + refused && Silent(refused, c.id)
    ensures Meets(s, StartReset(s1, addr, env), c, Stays)
  {
    NotReadyNoConns(s1, addr);
    StartResetParts(s1, addr, env);
    var sent := if env.encodes(Reset) then [Unitdata(addr, Reset, env.unitdataRc)] else [];
    Unaffected(s, StartReset(s1, addr, env), c, refused + sent);
  }

  lemma {:induction false} OnInitialMeets(s: Sys, id: nat, addr: Addr, msg: CoMsg, env: Env, k: nat)
    requires Inv(s) && k < |s.conns| && !Live(s, id)
    ensures Meets(s, OnInitial(s, id, addr, msg, env), s.conns[k], Stays)
  {
    AddPeerInv(s, addr);
    var s1, c := s.(peers := AddPeer(s.peers, addr)), s.conns[k];
    if InState(s1.peers, addr, Ready) {
      OpenMeets(s1, id, addr, msg, env, k);
    } else if InState(s1.peers, addr, WaitRxReset) {
      StartResetMeets(s, s1, [], addr, env, c);
    } else {
      StartResetMeets(s, s1.Emit([Disconnect(id, ByPeer)]), [Disconnect(id, ByPeer)], addr, env, c);
    }
  }

  lemma {:induction false} ConnectMeets(s: Sys, id: nat, addr: Addr, l2: Option<CoMsg>, env: Env, k: nat)
    requires Inv(s) && k < |s.conns|
    ensures Meets(s, OnConnectInd(s, id, addr, l2, env), s.conns[k], Stays)
  {
    var c, s1 := s.conns[k], s.Emit([ConnResp(id)]);
    if l2.None? {
      Unaffected(s, s, c, []);
    } else if Live(s, id) {
      Unaffected(s, OnConnectInd(s, id, addr, l2, env), c, [ConnResp(id)] + [Disconnect(id, BySap)]);
    } else {
      OnInitialMeets(s1, id, addr, l2.value, env, k);
      AboutAppend(s.trace, [ConnResp(id)], c.id);
    }
  }

  lemma {:induction false} UnitdataMeets(s: Sys, addr: Addr, cl: ClMsg, env: Env, k: nat)
    requires Inv(s) && k < |s.conns|
    ensures Meets(s, OnUnitdata(s, addr, cl, env), s.conns[k],
                  if cl.RxReset? && addr == s.conns[k].addr then Dropped else Stays)
  {
    AddPeerInv(s, addr);
    if cl.RxReset? {
      AcceptResetMeets(s.(peers := AddPeer(s.peers, addr)), addr, env, k);
    } else {
      Unaffected(s, OnUnitdata(s, addr, cl, env), s.conns[k], []);
    }
  }

  lemma {:induction false} TimerMeets(s: Sys, id: nat, env: Env, k: nat)
    requires Inv(s) && k < |s.conns|
    ensures var c := s.conns[k];
            Meets(s, OnRequestTimer(s, id, env), c,
                  if id == c.id && s.clock >= c.deadline then Ends(SentOn(env, c.id, LocFailure(SystemFailure)))
                  else Stays)
  {
    ConnAt(s.conns, k);
    var j := IndexOfConn(s.conns, id);
    if j < |s.conns| && s.clock >= s.conns[j].deadline {
      ConcludeMeets(s, j, k, Answer(LocFailure(SystemFailure)), env);
    } else {
      Unaffected(s, OnRequestTimer(s, id, env), s.conns[k], []);
    }
  }

  /** Every live connection meets its fate in every step: other connections, peers and pending inputs
      have no influence on it, and whatever ends it is the last that is sent on it. */
  lemma {:induction false} StepFate(s: Sys, i: Input, k: nat)
    requires Inv(s) && !s.stopped && k < |s.conns|
    ensures Meets(s, Step(s, i), s.conns[k], FateOf(s.clock, s.config.table, s.conns[k], i))
  {
    var c, s' := s.conns[k], Step(s, i);
    match i.ev {
      case NConnect(id, addr, l2) => ConnectMeets(s, id, addr, l2, i.env, k);
      case NData(id, msg) => OnDataMeets(s, id, msg, i.env, k);
      case NDisconnect(id, l2) => DisconnectMeets(s, id, l2, i.env, k);
      case NUnitdata(addr, cl) => UnitdataMeets(s, addr, cl, i.env, k);
      case RequestTimer(id) => TimerMeets(s, id, i.env, k);
      case _ => Unaffected(s, s', c, []);
    }
  }

  // ----- What becomes of the accepted requests -----

  function CountWhere(f: Output -> bool, outs: seq<Output>): nat {
    if |outs| == 0 then 0 else (if f(outs[0]) then 1 else 0) + CountWhere(f, outs[1..])
  }

  lemma {:induction false} CountAppend(f: Output -> bool, a: seq<Output>, b: seq<Output>)
    ensures CountWhere(f, a + b) == CountWhere(f, a) + CountWhere(f, b)
  {
    if |a| == 0 {
      assert a + b == b;
    } else {
      assert (a + b)[1..] == a[1..] + b;
      CountAppend(f, a[1..], b);
    }
  }

  predicate Responds(out: Output) {
    out.Data? && IsResponse(out.pdu)
  }

  predicate Drops(out: Output) {
    out.Discarded?
  }

  /** The request comes with the timing advance. */
  predicate CarriesTa(req: LocReq) {
    req.apdu.Some? && req.apdu.value.TaLayer3?
  }

  /** The input makes the program accept a location request. */
  predicate Accepts(s: Sys, i: Input) {
    && !s.stopped && i.ev.NConnect? && i.ev.l2.Some? && i.ev.l2.value.PerformLocReq?
    && !Live(s, i.ev.id) && InState(s.peers, i.ev.calling, Ready)
  }

  /** The input aborts a pending request. */
  predicate Aborts(s: Sys, i: Input) {
    && !s.stopped
    && match i.ev
       case NData(id, msg) => msg.PerformLocAbort? && Live(s, id)
       case NDisconnect(id, Some(msg)) => msg.PerformLocAbort? && Live(s, id)
       case _ => false
  }

  /** How many inputs of the run, each in its state, are of the given kind. */
  function CountInputs(f: (Sys, Input) -> bool, ins: seq<Input>): nat {
    if |ins| == 0 then 0 else
    var before := ins[..|ins| - 1];
    CountInputs(f, before) + if f(Run(INIT, before), ins[|before|]) then 1 else 0
  }

  /** Every response can be encoded. */
  ghost predicate EncodesResponses(env: Env) {
    forall pdu :: IsResponse(pdu) ==> env.encodes(pdu)
  }

  /** How the response, discard and connection counts move in a step. */
  ghost predicate Moves(s: Sys, s': Sys, responses: int, drops: int, conns: int) {
    && CountWhere(Responds, s'.trace) == CountWhere(Responds, s.trace) + responses
    && CountWhere(Drops, s'.trace) == CountWhere(Drops, s.trace) + drops
    && |s'.conns| == |s.conns| + conns
  }

  lemma {:induction false} MovesBy(s: Sys, s': Sys, outs: seq<Output>)
    requires s'.trace == s.trace + outs
    ensures Moves(s, s', CountWhere(Responds, outs), CountWhere(Drops, outs), |s'.conns| - |s.conns|)
  {
    CountAppend(Responds, s.trace, outs);
    CountAppend(Drops, s.trace, outs);
  }

  lemma {:induction false} CountNone(outs: seq<Output>)
    requires forall k :: 0 <= k < |outs| ==> !Responds(outs[k]) && !Drops(outs[k])
    ensures CountWhere(Responds, outs) == 0 && CountWhere(Drops, outs) == 0
  {
    if |outs| == 0 {
    } else {
      CountNone(outs[1..]);
    }
  }

  lemma {:induction false} MovesNothing(s: Sys, s': Sys, outs: seq<Output>)
    requires s'.trace == s.trace + outs && |s'.conns| == |s.conns|
    requires forall k :: 0 <= k < |outs| ==> !Responds(outs[k]) && !Drops(outs[k])
    ensures Moves(s, s', 0, 0, 0)
  {
    MovesBy(s, s', outs);
    CountNone(outs);
  }

  /** A response, if it was sent, and the disconnect. */
  lemma {:induction false} LastWordsCount(data: seq<Output>, end: Output)
    requires data == [] || (|data| == 1 && Responds(data[0]))
    requires !Responds(end) && !Drops(end)
    ensures CountWhere(Responds, data + [end]) == |data| && CountWhere(Drops, data + [end]) == 0
  {
    CountAppend(Responds, data, [end]);
    CountAppend(Drops, data, [end]);
    CountNone([end]);
    assert data != [] ==> data[1..] == [];
  }

  lemma {:induction false} CloseMoves(s: Sys, k: nat, data: seq<Output>)
    requires k < |s.conns|
    requires data == [] || (|data| == 1 && Responds(data[0]))
    ensures Moves(s, Close(s, k, data), |data|, 0, -1)
  {
    var end := Disconnect(s.conns[k].id, ByClose);
    MovesBy(s, Close(s, k, data), data + [end]);
    LastWordsCount(data, end);
  }

  lemma {:induction false} DiscardsCount(cs: seq<Conn>, addr: Addr)
    ensures CountWhere(Responds, Discards(cs, addr)) == 0
    ensures CountWhere(Drops, Discards(cs, addr)) == |cs| - |Others(cs, addr)|
  {
    if |cs| == 0 {
    } else {
      DiscardsCount(cs[1..], addr);
      var rest := Discards(cs[1..], addr);
      assert [Discarded(cs[0].id)] + rest != [] && ([Discarded(cs[0].id)] + rest)[1..] == rest && [] + rest == rest;
    }
  }

  /** Responses sent, connections dropped by RESET, and connections whose request still waits. */
  function Total(s: Sys): nat {
    CountWhere(Responds, s.trace) + CountWhere(Drops, s.trace) + |s.conns|
  }

  /** The total grows by the given number, less what could not be encoded. */
  ghost predicate Grows(s: Sys, s': Sys, env: Env, d: int) {
    && Total(s') <= Total(s) + d
    && (EncodesResponses(env) ==> Total(s') == Total(s) + d)
  }

  lemma {:induction false} ConcludeTotal(s: Sys, k: nat, r: Reaction, env: Env)
    requires k < |s.conns| && (r.Answer? ==> IsResponse(r.pdu))
    ensures Grows(s, Conclude(s, k, r, env), env, if r.Abandon? then -1 else 0)
  {
    match r {
      case Ignore =>
      case Abandon => CloseMoves(s, k, []);
      case Answer(pdu) => CloseMoves(s, k, Transmit(env, s.conns[k].id, pdu));
    }
  }

  lemma {:induction false} OpenTotal(s: Sys, id: nat, addr: Addr, msg: CoMsg, env: Env)
    ensures Grows(s, Open(s, id, addr, msg, env), env, if msg.PerformLocReq? then 1 else 0)
  {
    var s', s1 := Open(s, id, addr, msg, env), s.Emit([Opened(id)]);
    MovesNothing(s, s1, [Opened(id)]);
    if msg.PerformLocReq? {
      match msg.req.apdu {
        case Some(TaLayer3(ta)) =>
          var data := Transmit(env, id, Locate(env, s.config.table, msg.req.cellId, ta));
          MovesBy(s1, s', data + [Disconnect(id, ByClose)]);
          LastWordsCount(data, Disconnect(id, ByClose));
        case _ =>
          MovesBy(s1, s', Transmit(env, id, TaRequest));
          CountNone(Transmit(env, id, TaRequest));
      }
    } else if !NeedsRequest(msg) {
      MovesNothing(s1, s', [Disconnect(id, ByClose)]);
    }
  }

  lemma {:induction false} AcceptResetTotal(s: Sys, addr: Addr, env: Env)
    ensures Total(AcceptReset(s, addr, env)) == Total(s)
  {
    var s1 := DropPeerConns(s, addr);
    MovesBy(s, s1, Discards(s.conns, addr));
    DiscardsCount(s.conns, addr);
    var sent := if env.encodes(ResetAck) then [Unitdata(addr, ResetAck, env.unitdataRc)] else [];
    MovesNothing(s1, AcceptReset(s, addr, env), sent);
  }

  lemma {:induction false} StartResetTotal(s: Sys, addr: Addr, env: Env)
    requires NoConnsOf(s, addr)
    ensures Total(StartReset(s, addr, env)) == Total(s)
  {
    StartResetParts(s, addr, env);
    var sent := if env.encodes(Reset) then [Unitdata(addr, Reset, env.unitdataRc)] else [];
    MovesNothing(s, StartReset(s, addr, env), sent);
  }

  lemma {:induction false} OnInitialTotal(s: Sys, id: nat, addr: Addr, msg: CoMsg, env: Env)
    requires Inv(s)
    ensures Grows(s, OnInitial(s, id, addr, msg, env), env,
                  if InState(s.peers, addr, Ready) && msg.PerformLocReq? then 1 else 0)
  {
    AddPeerInv(s, addr);
    var s1 := s.(peers := AddPeer(s.peers, addr));
    if InState(s1.peers, addr, Ready) {
      OpenTotal(s1, id, addr, msg, env);
    } else {
      NotReadyNoConns(s1, addr);
      var s2 := s1.Emit([Disconnect(id, ByPeer)]);
      MovesNothing(s1, s2, [Disconnect(id, ByPeer)]);
      StartResetTotal(s1, addr, env);
      StartResetTotal(s2, addr, env);
    }
  }

  lemma {:induction false} ConnectTotal(s: Sys, id: nat, addr: Addr, l2: Option<CoMsg>, env: Env)
    requires Inv(s) && !s.stopped
    ensures Grows(s, OnConnectInd(s, id, addr, l2, env), env,
                  if Accepts(s, Input(NConnect(id, addr, l2), env)) then 1 else 0)
  {
    if l2.Some? {
      var s1 := s.Emit([ConnResp(id)]);
      MovesNothing(s, s1, [ConnResp(id)]);
      if Live(s, id) {
        MovesNothing(s1, s1.Emit([Disconnect(id, BySap)]), [Disconnect(id, BySap)]);
      } else {
        OnInitialTotal(s1, id, addr, l2.value, env);
      }
    }
  }

  lemma {:induction false} OnDataTotal(s: Sys, id: nat, msg: CoMsg, env: Env)
    ensures Grows(s, OnData(s, id, msg, env), env, if msg.PerformLocAbort? && Live(s, id) then -1 else 0)
  {
    var k := IndexOfConn(s.conns, id);
    if k < |s.conns| {
      ConcludeTotal(s, k, React(env, s.config.table, s.conns[k].cellId, msg), env);
    }
  }

  lemma {:induction false} DisconnectTotal(s: Sys, id: nat, l2: Option<CoMsg>, env: Env)
    ensures Grows(s, OnDisconnectInd(s, id, l2, env), env,
                  if l2.Some? && l2.value.PerformLocAbort? && Live(s, id) then -1 else 0)
  {
    var s1 := if l2.None? then s else OnData(s, id, l2.value, env);
    if l2.Some? {
      OnDataTotal(s, id, l2.value, env);
    }
    MovesNothing(s1, s1.Emit([Disconnect(id, BySap)]), [Disconnect(id, BySap)]);
  }

  lemma {:induction false} TimerTotal(s: Sys, id: nat, env: Env)
    ensures Grows(s, OnRequestTimer(s, id, env), env, 0)
  {
    var k := IndexOfConn(s.conns, id);
    if k < |s.conns| {
      ConcludeTotal(s, k, Answer(LocFailure(SystemFailure)), env);
    }
  }

  lemma {:induction false} StepTotal(s: Sys, i: Input)
    requires Inv(s)
    ensures Grows(s, Step(s, i), i.env, (if Accepts(s, i) then 1 else 0) - (if Aborts(s, i) then 1 else 0))
  {
    if s.stopped {
      return;
    }
    match i.ev {
      case NConnect(id, addr, l2) => ConnectTotal(s, id, addr, l2, i.env);
      case NData(id, msg) => OnDataTotal(s, id, msg, i.env);
      case NDisconnect(id, l2) => DisconnectTotal(s, id, l2, i.env);
      case NUnitdata(addr, cl) => AcceptResetTotal(s.(peers := AddPeer(s.peers, addr)), addr, i.env);
      case RequestTimer(id) => TimerTotal(s, id, i.env);
      case _ =>
    }
  }

  function Settled(ins: seq<Input>): nat {
    Total(Run(INIT, ins)) + CountInputs(Aborts, ins)
  }

  ghost predicate CanEncodeAll(ins: seq<Input>) {
    forall k :: 0 <= k < |ins| ==> EncodesResponses(ins[k].env)
  }

  lemma {:induction false} OneMoreInput(front: seq<Input>, i: Input)
    ensures Run(INIT, front + [i]) == Step(Run(INIT, front), i)
    ensures CountInputs(Accepts, front + [i])
         == CountInputs(Accepts, front) + if Accepts(Run(INIT, front), i) then 1 else 0
    ensures CountInputs(Aborts, front + [i])
         == CountInputs(Aborts, front) + if Aborts(Run(INIT, front), i) then 1 else 0
  {
    var ins := front + [i];
    assert ins[..|ins| - 1] == front && ins[|front|] == i;
  }

  lemma {:induction false} OneMoreBalances(front: seq<Input>, i: Input)
    ensures Settled(front + [i]) - CountInputs(Accepts, front + [i]) <= Settled(front) - CountInputs(Accepts, front)
    ensures EncodesResponses(i.env) ==>
      Settled(front + [i]) - CountInputs(Accepts, front + [i]) == Settled(front) - CountInputs(Accepts, front)
  {
    RunInv(front);
    OneMoreInput(front, i);
    StepTotal(Run(INIT, front), i);
  }

  /** Conservation, in numbers: over every run there are never more responses, connections dropped by
      RESET, aborted requests and waiting requests together than requests were accepted, and exactly as
      many if the responses can be encoded. What becomes of each single request is said by
      LbOutcomes.OutcomeOfRequest. */
  lemma {:induction false} RequestsBalance(ins: seq<Input>)
    ensures var s := Run(INIT, ins);
            var settled := CountWhere(Responds, s.trace) + CountWhere(Drops, s.trace)
                         + CountInputs(Aborts, ins) + |s.conns|;
            && settled <= CountInputs(Accepts, ins)
            && ((forall k :: 0 <= k < |ins| ==> EncodesResponses(ins[k].env)) ==> settled == CountInputs(Accepts, ins))
  {
    SettledBalances(ins);
  }

  lemma {:induction false} SettledBalances(ins: seq<Input>)
    ensures Settled(ins) <= CountInputs(Accepts, ins)
    ensures CanEncodeAll(ins) ==> Settled(ins) == CountInputs(Accepts, ins)
  {
    if |ins| == 0 {
    } else {
      var front, i := ins[..|ins| - 1], ins[|ins| - 1];
      assert front + [i] == ins;
      SettledBalances(front);
      OneMoreBalances(front, i);
    }
  }
}
