/** The Lb interface seen from outside: what the location server does with each SCCP primitive, timer
    expiry and configuration command, without use counts, callbacks or linked lists. One step takes a
    state to the next and appends what was handed to SCCP to a trace. The program in module Smlc is
    proved to take exactly these steps. */
module LbModel {
  import opened CellIds
  import opened CellLocations
  import opened CellConfig

  // ----- Messages -----

  datatype Addr = Addr(ri: nat)

  datatype Identity = Imsi(digits: string) | OtherIdentity

  datatype Bsslap =
    | TaLayer3(ta: Uint8)
    | TaResponse(ta: Uint8, ci: Uint16)
    | BsslapReset(ta: Uint8, ci: Uint16)
    | BsslapAbort
    | BsslapReject
    | OtherBsslap

  datatype LocReq = LocReq(identity: Identity, cellId: CellId, apdu: Option<Bsslap>)

  /** A received connection-oriented message, as far as the decoder gets. */
  datatype CoMsg =
    | PerformLocReq(req: LocReq)
    | PerformLocAbort
    | ConnOrientedInfo(apdu: Bsslap)
    | UnsupportedBssmap
    | OtherDiscriminator
    | Undecodable

  datatype ClMsg = RxReset | RxResetAck | UnsupportedCl

  /** Ellipsoid point with uncertainty circle. */
  datatype Gad = Gad(lat: int, lon: int, unc: nat)

  datatype Cause = RequestAborted | SystemFailure | FacilityNotSupported

  datatype Pdu =
    | TaRequest
    | LocEstimate(gad: Gad)
    | LocFailure(cause: Cause)
    | Reset
    | ResetAck

  // ----- Inputs and outputs -----

  /** What the libraries answer during one step: which PDUs and estimates they can encode, how an
      uncertainty radius is rounded, and the result of sending connection-less data. */
  datatype Env = Env(encodes: Pdu -> bool, gadEncodes: Gad -> bool, quantise: nat -> nat, unitdataRc: int)

  datatype Event =
    | NConnect(id: nat, calling: Addr, l2: Option<CoMsg>)
    | NData(id: nat, msg: CoMsg)
    | NDisconnect(id: nat, l2: Option<CoMsg>)
    | NUnitdata(calling: Addr, cl: ClMsg)
    | OtherPrimitive
    | RequestTimer(id: nat)
    | PeerTimer(peer: Addr)
    | Advance(to: nat)
    | Configure(line: Line)

  datatype Input = Input(ev: Event, env: Env)

  datatype Origin = ByClose | ByPeer | BySap

  /** What is handed to SCCP, and two marks: a connection object was created or silently discarded. */
  datatype Output =
    | ConnResp(id: nat)
    | Data(id: nat, pdu: Pdu)
    | Unitdata(addr: Addr, pdu: Pdu, rc: int)
    | Disconnect(id: nat, origin: Origin)
    | Opened(id: nat)
    | Discarded(id: nat)

  // ----- State -----

  datatype PeerState = WaitRxReset | WaitRxResetAck | Ready

  datatype Peer = Peer(addr: Addr, state: PeerState, deadline: Option<nat>)

  /** A connection with its location request, which waits for a timing advance until the deadline. */
  datatype Conn = Conn(id: nat, addr: Addr, identity: Identity, cellId: CellId, deadline: nat)

  datatype Sys = Sys(
    stopped: bool, clock: nat, peers: seq<Peer>, conns: seq<Conn>, config: Config, trace: seq<Output>)
  {
    function Emit(outs: seq<Output>): Sys {
      this.(trace := trace + outs)
    }

    function WithPeer(addr: Addr, st: PeerState, deadline: Option<nat>): Sys {
      this.(peers := SetPeer(peers, addr, st, deadline))
    }
  }

  const T12: nat := 5
  const T13: nat := 5

  const INIT := Sys(false, 0, [], [], EMPTY, [])

  function IndexOfConn(cs: seq<Conn>, id: nat): (k: nat)
    ensures k <= |cs|
    ensures k < |cs| ==> cs[k].id == id
    ensures forall j :: 0 <= j < k ==> cs[j].id != id
  {
    if |cs| == 0 || cs[0].id == id then 0 else 1 + IndexOfConn(cs[1..], id)
  }

  function IndexOfPeer(ps: seq<Peer>, addr: Addr): (k: nat)
    ensures k <= |ps|
    ensures k < |ps| ==> ps[k].addr == addr
    ensures forall j :: 0 <= j < k ==> ps[j].addr != addr
  {
    if |ps| == 0 || ps[0].addr == addr then 0 else 1 + IndexOfPeer(ps[1..], addr)
  }

  predicate Live(s: Sys, id: nat) {
    IndexOfConn(s.conns, id) < |s.conns|
  }

  predicate InState(ps: seq<Peer>, addr: Addr, st: PeerState) {
    var k := IndexOfPeer(ps, addr);
    k < |ps| && ps[k].state == st
  }

  function AddPeer(ps: seq<Peer>, addr: Addr): seq<Peer> {
    if IndexOfPeer(ps, addr) < |ps| then ps else [Peer(addr, WaitRxReset, None)] + ps
  }

  function SetPeer(ps: seq<Peer>, addr: Addr, st: PeerState, deadline: Option<nat>): seq<Peer> {
    var k := IndexOfPeer(ps, addr);
    if k < |ps| then ps[k := Peer(addr, st, deadline)] else ps
  }

  /** The connections of other peers, in order. */
  function Others(cs: seq<Conn>, addr: Addr): seq<Conn> {
    if |cs| == 0 then [] else
    if cs[0].addr == addr then Others(cs[1..], addr) else [cs[0]] + Others(cs[1..], addr)
  }

  function Discards(cs: seq<Conn>, addr: Addr): seq<Output> {
    if |cs| == 0 then [] else
    (if cs[0].addr == addr then [Discarded(cs[0].id)] else []) + Discards(cs[1..], addr)
  }

  // ----- Answering a location request -----

  function TaToMetres(ta: Uint8): nat {
    ta * 550
  }

  /** The answer once the timing advance is known. */
  function Locate(env: Env, table: seq<CellLocation>, cellId: CellId, ta: Uint8): Pdu {
    var k := Lookup(table, cellId);
    if k == |table| then LocFailure(FacilityNotSupported) else
    var gad := Gad(table[k].lat, table[k].lon, env.quantise(TaToMetres(ta) * 1000));
    if !env.gadEncodes(gad) then LocFailure(FacilityNotSupported)
    else if !env.encodes(LocEstimate(gad)) then LocFailure(SystemFailure)
    else LocEstimate(gad)
  }

  datatype Reaction = Ignore | Abandon | Answer(pdu: Pdu)

  /** What a message means to a request that waits for the timing advance. */
  function React(env: Env, table: seq<CellLocation>, cellId: CellId, msg: CoMsg): Reaction {
    match msg
    case PerformLocAbort => Abandon
    case ConnOrientedInfo(TaResponse(ta, ci)) => Answer(Locate(env, table, UpdateCi(cellId, ToInt16(ci)), ta))
    case ConnOrientedInfo(BsslapReset(ta, ci)) => Answer(Locate(env, table, UpdateCi(cellId, ToInt16(ci)), ta))
    case ConnOrientedInfo(BsslapAbort) => Answer(LocFailure(RequestAborted))
    case ConnOrientedInfo(BsslapReject) => Answer(LocFailure(RequestAborted))
    case _ => Ignore
  }

  /** A PDU that cannot be encoded is not sent. */
  function Transmit(env: Env, id: nat, pdu: Pdu): seq<Output> {
    if env.encodes(pdu) then [Data(id, pdu)] else []
  }

  // ----- Steps -----

  function Close(s: Sys, k: nat, outs: seq<Output>): Sys
    requires k < |s.conns|
  {
    s.(conns := s.conns[..k] + s.conns[k + 1..]).Emit(outs + [Disconnect(s.conns[k].id, ByClose)])
  }

  function Conclude(s: Sys, k: nat, r: Reaction, env: Env): Sys
    requires k < |s.conns|
  {
    match r
    case Ignore => s
    case Abandon => Close(s, k, [])
    case Answer(pdu) => Close(s, k, Transmit(env, s.conns[k].id, pdu))
  }

  function OnData(s: Sys, id: nat, msg: CoMsg, env: Env): Sys {
    var k := IndexOfConn(s.conns, id);
    if k == |s.conns| then s
    else Conclude(s, k, React(env, s.config.table, s.conns[k].cellId, msg), env)
  }

  function DropPeerConns(s: Sys, addr: Addr): Sys {
    s.(conns := Others(s.conns, addr)).Emit(Discards(s.conns, addr))
  }

  /** Send RESET; without success the peer falls back to waiting for one. */
  function SendReset(s: Sys, addr: Addr, env: Env): Sys {
    if !env.encodes(Reset) then s.WithPeer(addr, WaitRxReset, None) else
    var s1 := s.Emit([Unitdata(addr, Reset, env.unitdataRc)]);
    if env.unitdataRc != 0 then s1.WithPeer(addr, WaitRxReset, None) else s1
  }

  /** The peer awaits an acknowledgement and has no connections. */
  function ClearPeer(s: Sys, addr: Addr): Sys {
    DropPeerConns(s.WithPeer(addr, WaitRxResetAck, Some(s.clock + T13)), addr)
  }

  /** Start the RESET procedure with a peer. */
  function StartReset(s: Sys, addr: Addr, env: Env): Sys {
    SendReset(ClearPeer(s, addr), addr, env)
  }

  /** A peer asks for RESET: its connections are gone, and it is READY once the acknowledgement is sent. */
  function AcceptReset(s: Sys, addr: Addr, env: Env): Sys {
    var s1 := DropPeerConns(s, addr);
    if !env.encodes(ResetAck) then s1.WithPeer(addr, WaitRxReset, None) else
    var s2 := s1.Emit([Unitdata(addr, ResetAck, env.unitdataRc)]);
    if env.unitdataRc != 0 then s2.WithPeer(addr, WaitRxReset, None)
    else s2.WithPeer(addr, Ready, None)
  }

  /** Messages that are handed to the location request of their connection without asking whether
      there is one. */
  predicate NeedsRequest(msg: CoMsg) {
    || msg.PerformLocAbort?
    || (msg.ConnOrientedInfo? && !msg.apdu.TaLayer3? && !msg.apdu.OtherBsslap?)
  }

  /** The timing advance, if the request came with it. */
  function TaInRequest(req: LocReq): Option<Uint8> {
    match req.apdu case Some(TaLayer3(ta)) => Some(ta) case _ => None
  }

  /** First message of a new connection from a READY peer. */
  function Open(s: Sys, id: nat, addr: Addr, msg: CoMsg, env: Env): Sys {
    var s1 := s.Emit([Opened(id)]);
    if NeedsRequest(msg) then s1.(stopped := true)
    else if !msg.PerformLocReq? then s1.Emit([Disconnect(id, ByClose)])
    else
      var req := msg.req;
      match req.apdu
      case Some(TaLayer3(ta)) =>
        s1.Emit(Transmit(env, id, Locate(env, s.config.table, req.cellId, ta)) + [Disconnect(id, ByClose)])
      case _ =>
        s1.(conns := [Conn(id, addr, req.identity, req.cellId, s.clock + T12)] + s.conns)
          .Emit(Transmit(env, id, TaRequest))
  }

  /** First message of a new connection, whatever the state of the peer. */
  function OnInitial(s: Sys, id: nat, addr: Addr, msg: CoMsg, env: Env): Sys {
    var s1 := s.(peers := AddPeer(s.peers, addr));
    if InState(s1.peers, addr, Ready) then Open(s1, id, addr, msg, env)
    else if InState(s1.peers, addr, WaitRxReset) then StartReset(s1, addr, env)
    else StartReset(s1.Emit([Disconnect(id, ByPeer)]), addr, env)
  }

  function OnConnect(s: Sys, id: nat, addr: Addr, msg: CoMsg, env: Env): Sys {
    if Live(s, id) then s.Emit([Disconnect(id, BySap)]) else OnInitial(s, id, addr, msg, env)
  }

  /** A connection is confirmed before its first message is looked at; without one it is ignored. */
  function OnConnectInd(s: Sys, id: nat, addr: Addr, l2: Option<CoMsg>, env: Env): Sys {
    match l2
    case Some(msg) => OnConnect(s.Emit([ConnResp(id)]), id, addr, msg, env)
    case None => s
  }

  function OnDisconnectInd(s: Sys, id: nat, l2: Option<CoMsg>, env: Env): Sys {
    (match l2 case Some(msg) => OnData(s, id, msg, env) case None => s).Emit([Disconnect(id, BySap)])
  }

  function OnUnitdata(s: Sys, addr: Addr, cl: ClMsg, env: Env): Sys {
    var s1 := s.(peers := AddPeer(s.peers, addr));
    match cl
    case RxReset => AcceptReset(s1, addr, env)
    case RxResetAck => if InState(s1.peers, addr, WaitRxResetAck) then s1.WithPeer(addr, Ready, None) else s1
    case UnsupportedCl => s1
  }

  /** Time may pass up to the next deadline: the main loop runs timers that are due before it waits. */
  predicate NoTimerBefore(s: Sys, to: nat) {
    && (forall k :: 0 <= k < |s.conns| ==> to <= s.conns[k].deadline)
    && (forall k :: 0 <= k < |s.peers| && s.peers[k].deadline.Some? ==> to <= s.peers[k].deadline.value)
  }

  function OnRequestTimer(s: Sys, id: nat, env: Env): Sys {
    var k := IndexOfConn(s.conns, id);
    if k == |s.conns| || s.clock < s.conns[k].deadline then s
    else Conclude(s, k, Answer(LocFailure(SystemFailure)), env)
  }

  function OnPeerTimer(s: Sys, addr: Addr): Sys {
    var k := IndexOfPeer(s.peers, addr);
    if k == |s.peers| || s.peers[k].deadline.None? || s.clock < s.peers[k].deadline.value then s
    else s.WithPeer(addr, WaitRxReset, None)
  }

  function OnAdvance(s: Sys, to: nat): Sys {
    if s.clock <= to && NoTimerBefore(s, to) then s.(clock := to) else s
  }

  function Step(s: Sys, i: Input): Sys {
    if s.stopped then s else
    match i.ev
    case NConnect(id, addr, l2) => OnConnectInd(s, id, addr, l2, i.env)
    case NData(id, msg) => OnData(s, id, msg, i.env)
    case NDisconnect(id, l2) => OnDisconnectInd(s, id, l2, i.env)
    case NUnitdata(addr, cl) => OnUnitdata(s, addr, cl, i.env)
    case OtherPrimitive => s
    case RequestTimer(id) => OnRequestTimer(s, id, i.env)
    case PeerTimer(addr) => OnPeerTimer(s, addr)
    case Advance(to) => OnAdvance(s, to)
    case Configure(line) => s.(config := Exec(s.config, line))
  }

  /** The state after all inputs; the latest input is the last of the sequence. */
  function Run(s: Sys, ins: seq<Input>): Sys {
    if |ins| == 0 then s else Step(Run(s, ins[..|ins| - 1]), ins[|ins| - 1])
  }
}
