/** The answer to a location request, from the request that was accepted to the response that is sent:
    over whole runs, the program computes a small pure function of the request, what was learned about
    the phone, and the table of cell positions. */
module LbAnswers {
  import opened CellIds
  import opened CellLocations
  import opened LbModel
  import opened LbInvariants
  import opened LbFates

  // ----- The pure function -----

  /** What settles a request: the timing advance came with it, was reported together with the serving
      cell, was refused by the BSC, or was not reported in time. */
  datatype Evidence = InRequest(ta: Uint8) | Reported(ta: Uint8, ci: Uint16) | Refused | Expired

  /** The cell of the request, corrected by a newly reported CI if it names a CI at all. */
  function ServingCell(cellId: CellId, ev: Evidence): CellId {
    if !ev.Reported? then cellId else
    match cellId
    case Cgi(plmn, lac, _) => Cgi(plmn, lac, ev.ci)
    case LacCi(lac, _) => LacCi(lac, ev.ci)
    case Ci(_) => Ci(ev.ci)
    case _ => cellId
  }

  /** The entry for a cell: the first one with exactly that identifier or, without one, the first that
      agrees with it. */
  ghost predicate IsEntryFor(t: seq<CellLocation>, id: CellId, k: nat) {
    && k < |t|
    && (if t[k].cellId == id then forall j :: 0 <= j < k ==> t[j].cellId != id
        else
          && (forall j :: 0 <= j < |t| ==> t[j].cellId != id)
          && Matches(t[k].cellId, id, false)
          && (forall j :: 0 <= j < k ==> !Matches(t[j].cellId, id, false)))
  }

  ghost predicate IsUnknown(t: seq<CellLocation>, id: CellId) {
    forall j :: 0 <= j < |t| ==> t[j].cellId != id && !Matches(t[j].cellId, id, false)
  }

  /** The circle of the uncertainty that the timing advance leaves around the position of the cell. */
  function Circle(env: Env, e: CellLocation, ta: Uint8): Gad {
    Gad(e.lat, e.lon, env.quantise(ta * 550_000))
  }

  ghost predicate IsAnswer(env: Env, t: seq<CellLocation>, cellId: CellId, ev: Evidence, pdu: Pdu) {
    match ev
    case Refused => pdu == LocFailure(RequestAborted)
    case Expired => pdu == LocFailure(SystemFailure)
    case _ =>
      var cell := ServingCell(cellId, ev);
      || (IsUnknown(t, cell) && pdu == LocFailure(FacilityNotSupported))
      || (exists k: nat :: IsEntryFor(t, cell, k) &&
            var gad := Circle(env, t[k], ev.ta);
            pdu == if !env.gadEncodes(gad) then LocFailure(FacilityNotSupported)
                   else if !env.encodes(LocEstimate(gad)) then LocFailure(SystemFailure)
                   else LocEstimate(gad))
  }

  lemma {:induction false} LookupFindsEntry(t: seq<CellLocation>, id: CellId)
    ensures var k := Lookup(t, id);
            if k < |t| then IsEntryFor(t, id, k) else IsUnknown(t, id)
  {
    var e := Scan(t, id, true);
    if e < |t| {
      assert forall j :: 0 <= j < e ==> !Matches(t[j].cellId, id, true);
    } else {
      assert forall j :: 0 <= j < |t| ==> !Matches(t[j].cellId, id, true);
    }
  }

  /** There is never more than one answer. */
  lemma {:induction false} AnswerIsUnique(env: Env, t: seq<CellLocation>, cellId: CellId, ev: Evidence, p: Pdu, q: Pdu)
    requires IsAnswer(env, t, cellId, ev, p) && IsAnswer(env, t, cellId, ev, q)
    ensures p == q
  {
    if ev.InRequest? || ev.Reported? {
      var cell := ServingCell(cellId, ev);
      forall i: nat, j: nat | IsEntryFor(t, cell, i) && IsEntryFor(t, cell, j) ensures i == j {
        assert t[i].cellId == cell <==> t[j].cellId == cell;
      }
    }
  }

  lemma {:induction false} LocateAnswers(env: Env, t: seq<CellLocation>, cellId: CellId, ev: Evidence)
    requires ev.InRequest? || ev.Reported?
    ensures IsAnswer(env, t, cellId, ev, Locate(env, t, ServingCell(cellId, ev), ev.ta))
  {
    LookupFindsEntry(t, ServingCell(cellId, ev));
  }

  function EvidenceIn(msg: CoMsg): Option<Evidence> {
    match msg
    case ConnOrientedInfo(TaResponse(ta, ci)) => Some(Reported(ta, ci))
    case ConnOrientedInfo(BsslapReset(ta, ci)) => Some(Reported(ta, ci))
    case ConnOrientedInfo(BsslapAbort) => Some(Refused)
    case ConnOrientedInfo(BsslapReject) => Some(Refused)
    case _ => None
  }

  /** Messages that end a waiting request. */
  predicate EndsRequest(msg: CoMsg) {
    msg.PerformLocAbort? || EvidenceIn(msg).Some?
  }

  /** A waiting request answers a message exactly if the message settles it, and gives the answer. */
  lemma {:induction false} ReactionAnswers(env: Env, t: seq<CellLocation>, cellId: CellId, msg: CoMsg)
    ensures var r := React(env, t, cellId, msg);
            && (r.Answer? <==> EvidenceIn(msg).Some?)
            && (r.Answer? ==> IsAnswer(env, t, cellId, EvidenceIn(msg).value, r.pdu))
            && (r.Abandon? <==> msg.PerformLocAbort?)
  {
    match EvidenceIn(msg) {
      case Some(Reported(ta, ci)) =>
        assert ToUint16(ToInt16(ci)) == ci;
        assert UpdateCi(cellId, ToInt16(ci)) == ServingCell(cellId, Reported(ta, ci));
        LocateAnswers(env, t, cellId, Reported(ta, ci));
      case _ =>
    }
  }

  /** Which answer is given, cause by cause. */
  lemma {:induction false} CausesOfAnswers(env: Env, t: seq<CellLocation>, cellId: CellId, ev: Evidence, pdu: Pdu)
    requires IsAnswer(env, t, cellId, ev, pdu)
    requires forall p :: env.encodes(p)
    ensures pdu == LocFailure(RequestAborted) <==> ev.Refused?
    ensures pdu == LocFailure(SystemFailure) <==> ev.Expired?
    ensures pdu.LocEstimate? <==>
      && (ev.InRequest? || ev.Reported?)
      && exists k: nat :: IsEntryFor(t, ServingCell(cellId, ev), k) && env.gadEncodes(Circle(env, t[k], ev.ta))
    ensures pdu.LocEstimate? ==>
      exists k: nat :: IsEntryFor(t, ServingCell(cellId, ev), k) && pdu.gad == Circle(env, t[k], ev.ta)
  {
    if ev.InRequest? || ev.Reported? {
      forall k: nat | IsEntryFor(t, ServingCell(cellId, ev), k) && env.gadEncodes(Circle(env, t[k], ev.ta))
        ensures pdu == LocEstimate(Circle(env, t[k], ev.ta))
      {
        AnswerIsUnique(env, t, cellId, ev, pdu, LocEstimate(Circle(env, t[k], ev.ta)));
      }
    }
  }

  /** In a table that configuration commands can build, the answer for a full CGI does not depend on the
      order of the table: any entry that agrees with the serving cell is the one used. */
  lemma {:induction false} OrderDoesNotMatter(
      env: Env, t: seq<CellLocation>, cellId: CellId, ev: Evidence, k: nat, pdu: Pdu)
    requires Disjoint(t) && cellId.Cgi? && (ev.InRequest? || ev.Reported?)
    requires k < |t| && Matches(t[k].cellId, ServingCell(cellId, ev), false)
    requires IsAnswer(env, t, cellId, ev, pdu) && forall p :: env.encodes(p)
    ensures pdu == if env.gadEncodes(Circle(env, t[k], ev.ta)) then LocEstimate(Circle(env, t[k], ev.ta))
                   else LocFailure(FacilityNotSupported)
  {
    var cell := ServingCell(cellId, ev);
    forall j: nat | j < |t| && j != k ensures !Matches(t[j].cellId, cell, false) && t[j].cellId != cell {
      CgiMatchesAtMostOne(t, cell, j, k);
    }
    assert IsEntryFor(t, cell, k);
    var circle := Circle(env, t[k], ev.ta);
    var answer := if env.gadEncodes(circle) then LocEstimate(circle) else LocFailure(FacilityNotSupported);
    AnswerIsUnique(env, t, cellId, ev, pdu, answer);
  }

  // ----- Where a connection comes from -----

  /** The input is accepted as the request that c waits for, for the five seconds of T-12. */
  ghost predicate Brings(s: Sys, i: Input, c: Conn) {
    && Accepts(s, i) && i.ev.id == c.id && i.ev.calling == c.addr
    && c == Conn(c.id, c.addr, i.ev.l2.value.req.identity, i.ev.l2.value.req.cellId, s.clock + 5)
    && !CarriesTa(i.ev.l2.value.req)
  }

  /** The n-th input brought c, and c has been there, unchanged, ever since. */
  ghost predicate ComesFrom(ins: seq<Input>, n: nat, c: Conn)
    requires n < |ins|
  {
    && Brings(StateAt(ins, n), ins[n], c)
    && forall m :: n < m <= |ins| ==> c in StateAt(ins, m).conns
  }

  /** A first message on a peer that is not READY leads to no connection and to no data. */
  lemma {:induction false} NotReadyInitial(s: Sys, id: nat, addr: Addr, msg: CoMsg, env: Env)
    requires Inv(s) && !InState(s.peers, addr, Ready)
    ensures var s' := OnInitial(s, id, addr, msg, env);
            && s'.conns == s.conns && |s.trace| <= |s'.trace|
            && forall j :: |s.trace| <= j < |s'.trace| ==> !s'.trace[j].Data?
  {
    AddPeerInv(s, addr);
    var s1 := s.(peers := AddPeer(s.peers, addr));
    NotReadyNoConns(s1, addr);
    StartResetParts(s1, addr, env);
    StartResetParts(s1.Emit([Disconnect(id, ByPeer)]), addr, env);
  }

  /** No connection was added. */
  ghost predicate NoneAdded(s: Sys, s': Sys) {
    forall c :: c in s'.conns ==> c in s.conns
  }

  lemma {:induction false} NoneAddedByClose(s: Sys, k: nat, r: Reaction, env: Env)
    requires k < |s.conns|
    ensures NoneAdded(s, Conclude(s, k, r, env))
  {
    var rest := s.conns[..k] + s.conns[k + 1..];
    forall c | c in rest ensures c in s.conns {
      var j :| 0 <= j < |rest| && rest[j] == c;
      assert c == s.conns[if j < k then j else j + 1];
    }
  }

  lemma {:induction false} NoneAddedByData(s: Sys, id: nat, msg: CoMsg, env: Env)
    ensures NoneAdded(s, OnData(s, id, msg, env))
  {
    var k := IndexOfConn(s.conns, id);
    if k < |s.conns| {
      NoneAddedByClose(s, k, React(env, s.config.table, s.conns[k].cellId, msg), env);
    }
  }

  lemma {:induction false} NoneAddedByTimer(s: Sys, id: nat, env: Env)
    ensures NoneAdded(s, OnRequestTimer(s, id, env))
  {
    var k := IndexOfConn(s.conns, id);
    if k < |s.conns| {
      NoneAddedByClose(s, k, Answer(LocFailure(SystemFailure)), env);
    }
  }

  lemma {:induction false} NoneAddedByUnitdata(s: Sys, addr: Addr, cl: ClMsg, env: Env)
    ensures NoneAdded(s, OnUnitdata(s, addr, cl, env))
  {
    OthersAre(s.conns, addr);
  }

  lemma {:induction false} AddedByOpen(s: Sys, id: nat, addr: Addr, msg: CoMsg, env: Env, c: Conn)
    requires c in Open(s, id, addr, msg, env).conns && c !in s.conns
    ensures msg.PerformLocReq? && TaInRequest(msg.req).None?
    ensures c == Conn(id, addr, msg.req.identity, msg.req.cellId, s.clock + T12)
  {
  }

  lemma {:induction false} AddedByConnect(s: Sys, id: nat, addr: Addr, l2: Option<CoMsg>, env: Env, c: Conn)
    requires Inv(s) && !s.stopped && c in OnConnectInd(s, id, addr, l2, env).conns && c !in s.conns
    ensures Brings(s, Input(NConnect(id, addr, l2), env), c)
  {
    if l2.Some? && !Live(s, id) {
      var s1 := s.Emit([ConnResp(id)]);
      if InState(s.peers, addr, Ready) {
        AddedByOpen(s1.(peers := AddPeer(s.peers, addr)), id, addr, l2.value, env, c);
      } else {
        NotReadyInitial(s1, id, addr, l2.value, env);
      }
    }
  }

  /** A connection is added only by an accepted request without timing advance. */
  lemma {:induction false} NewConn(s: Sys, i: Input, s': Sys, c: Conn)
    requires Inv(s) && s' == Step(s, i) && c in s'.conns && c !in s.conns
    ensures Brings(s, i, c)
  {
    match i.ev {
      case NConnect(id, addr, l2) => AddedByConnect(s, id, addr, l2, i.env, c);
      case NData(id, msg) => NoneAddedByData(s, id, msg, i.env);
      case NDisconnect(id, l2) =>
        if l2.Some? {
          NoneAddedByData(s, id, l2.value, i.env);
        }
      case NUnitdata(addr, cl) => NoneAddedByUnitdata(s, addr, cl, i.env);
      case RequestTimer(id) => NoneAddedByTimer(s, id, i.env);
      case _ =>
    }
  }

  lemma {:induction false} AcceptedIsNew(s: Sys, i: Input)
    requires Inv(s) && Accepts(s, i) && !CarriesTa(i.ev.l2.value.req)
    ensures exists c :: Brings(s, i, c) && Step(s, i).conns == [c] + s.conns
  {
    var req := i.ev.l2.value.req;
    var c := Conn(i.ev.id, i.ev.calling, req.identity, req.cellId, s.clock + 5);
    assert Brings(s, i, c);
  }

  lemma {:induction false} OriginIndex(ins: seq<Input>, c: Conn) returns (n: nat)
    requires c in Run(INIT, ins).conns
    ensures n < |ins| && ComesFrom(ins, n, c)
  {
    var last := |ins| - 1;
    StateAtEnd(ins);
    if c in StateAt(ins, last).conns {
      n := OriginIndex(ins[..last], c);
      OriginLater(ins, last, n, c);
    } else {
      n := last;
      OriginNow(ins, last, c);
    }
  }

  lemma {:induction false} OriginNow(ins: seq<Input>, last: nat, c: Conn)
    requires |ins| == last + 1 && c in StateAt(ins, last + 1).conns && c !in StateAt(ins, last).conns
    ensures ComesFrom(ins, last, c)
  {
    assert Brings(StateAt(ins, last), ins[last], c) by {
      RunInv(ins[..last]);
      StateAtNext(ins, last);
      NewConn(StateAt(ins, last), ins[last], StateAt(ins, last + 1), c);
    }
  }

  lemma {:induction false} OriginLater(ins: seq<Input>, last: nat, n: nat, c: Conn)
    requires n < last && |ins| == last + 1 && ComesFrom(ins[..last], n, c) && c in StateAt(ins, last + 1).conns
    ensures ComesFrom(ins, n, c)
  {
    StateAtPrefix(ins, last, n);
    forall m | n < m <= |ins| ensures c in StateAt(ins, m).conns {
      if m <= last {
        StillThere(ins, last, n, m, c);
      }
    }
  }

  lemma {:induction false} StillThere(ins: seq<Input>, last: nat, n: nat, m: nat, c: Conn)
    requires n < m <= last && |ins| == last + 1 && ComesFrom(ins[..last], n, c)
    ensures c in StateAt(ins, m).conns
  {
    StateAtPrefix(ins, last, m);
  }

  /** Every live connection has been live, with the same data and the same deadline, since the request
      that it waits for was accepted, which is at most the five seconds of T-12 ago. */
  lemma {:induction false} Origin(ins: seq<Input>, c: Conn)
    requires c in Run(INIT, ins).conns
    ensures exists n: nat :: n < |ins| && ComesFrom(ins, n, c) && Run(INIT, ins).clock <= StateAt(ins, n).clock + 5
  {
    RunInv(ins);
    var s := Run(INIT, ins);
    var n := OriginIndex(ins, c);
    var k :| 0 <= k < |s.conns| && s.conns[k] == c;
    assert ConnInv(s.clock, s.peers, s.conns[k]);
  }

  // ----- From request to response -----

  /** Where a response can come from in one step: a request is accepted that carries the timing
      advance, or a waiting request is settled; the response is all that is sent on the connection. */
  ghost predicate Sourced(s: Sys, i: Input, out: Output)
    requires Responds(out)
  {
    || (Accepts(s, i) && out.id == i.ev.id && CarriesTa(i.ev.l2.value.req)
        && out.pdu == Locate(i.env, s.config.table, i.ev.l2.value.req.cellId, i.ev.l2.value.req.apdu.value.ta))
    || (Live(s, out.id)
        && FateOf(s.clock, s.config.table, s.conns[IndexOfConn(s.conns, out.id)], i) == Ends([out]))
  }

  lemma {:induction false} OpenSource(s: Sys, id: nat, addr: Addr, msg: CoMsg, env: Env, j: nat)
    requires |s.trace| <= j < |Open(s, id, addr, msg, env).trace| && Responds(Open(s, id, addr, msg, env).trace[j])
    ensures msg.PerformLocReq? && TaInRequest(msg.req).Some?
    ensures Open(s, id, addr, msg, env).trace[j]
         == Data(id, Locate(env, s.config.table, msg.req.cellId, TaInRequest(msg.req).value))
  {
  }

  lemma {:induction false} InitialSource(s: Sys, id: nat, addr: Addr, msg: CoMsg, env: Env, s': Sys, j: nat)
    requires Inv(s) && s' == OnInitial(s, id, addr, msg, env) && |s.trace| <= j < |s'.trace| && Responds(s'.trace[j])
    ensures InState(s.peers, addr, Ready) && msg.PerformLocReq? && TaInRequest(msg.req).Some?
    ensures s'.trace[j] == Data(id, Locate(env, s.config.table, msg.req.cellId, TaInRequest(msg.req).value))
  {
    if InState(s.peers, addr, Ready) {
      OpenSource(s.(peers := AddPeer(s.peers, addr)), id, addr, msg, env, j);
    } else {
      NotReadyInitial(s, id, addr, msg, env);
    }
  }

  lemma {:induction false} InitialGrows(s: Sys, id: nat, addr: Addr, msg: CoMsg, env: Env)
    ensures s.trace <= OnInitial(s, id, addr, msg, env).trace
  {
  }

  lemma {:induction false} ConnectSource(s: Sys, id: nat, addr: Addr, msg: CoMsg, env: Env, s': Sys, j: nat)
    requires Inv(s) && s' == OnConnect(s.Emit([ConnResp(id)]), id, addr, msg, env)
    requires |s.trace| <= j < |s'.trace| && Responds(s'.trace[j])
    ensures !Live(s, id) && InState(s.peers, addr, Ready) && msg.PerformLocReq? && TaInRequest(msg.req).Some?
    ensures s'.trace[j] == Data(id, Locate(env, s.config.table, msg.req.cellId, TaInRequest(msg.req).value))
  {
    var s1 := s.Emit([ConnResp(id)]);
    if !Live(s, id) {
      InitialGrows(s1, id, addr, msg, env);
      assert s'.trace[|s.trace|] == s1.trace[|s.trace|] == ConnResp(id);
      InitialSource(s1, id, addr, msg, env, s', j);
    }
  }

  lemma {:induction false} DataSource(s: Sys, id: nat, msg: CoMsg, env: Env, j: nat)
    requires |s.trace| <= j < |OnData(s, id, msg, env).trace| && Responds(OnData(s, id, msg, env).trace[j])
    ensures var k, out := IndexOfConn(s.conns, id), OnData(s, id, msg, env).trace[j];
            && k < |s.conns| && out.id == id
            && FateOfReaction(s.conns[k], React(env, s.config.table, s.conns[k].cellId, msg), env) == Ends([out])
  {
  }

  lemma {:induction false} UnitdataSource(s: Sys, addr: Addr, cl: ClMsg, env: Env, j: nat)
    requires |s.trace| <= j < |OnUnitdata(s, addr, cl, env).trace|
    ensures !OnUnitdata(s, addr, cl, env).trace[j].Data?
  {
    DiscardsOnly(s.conns, addr);
  }

  lemma {:induction false} TimerSource(s: Sys, id: nat, env: Env, j: nat)
    requires |s.trace| <= j < |OnRequestTimer(s, id, env).trace| && Responds(OnRequestTimer(s, id, env).trace[j])
    ensures var k, out := IndexOfConn(s.conns, id), OnRequestTimer(s, id, env).trace[j];
            && k < |s.conns| && out.id == id && s.clock >= s.conns[k].deadline
            && Transmit(env, id, LocFailure(SystemFailure)) == [out]
  {
  }

  lemma {:induction false} DisconnectSource(s: Sys, id: nat, l2: Option<CoMsg>, env: Env, j: nat)
    requires |s.trace| <= j < |OnDisconnectInd(s, id, l2, env).trace|
    requires Responds(OnDisconnectInd(s, id, l2, env).trace[j])
    ensures var k, out := IndexOfConn(s.conns, id), OnDisconnectInd(s, id, l2, env).trace[j];
            && k < |s.conns| && out.id == id
            && FateOnMessage(s.config.table, s.conns[k], id, l2, env) == Ends([out])
  {
    if l2.Some? {
      DataSource(s, id, l2.value, env, j);
    }
  }

  lemma {:induction false} ResponseSource(s: Sys, i: Input, s': Sys, j: nat)
    requires Inv(s) && !s.stopped && s' == Step(s, i)
    requires |s.trace| <= j < |s'.trace| && Responds(s'.trace[j])
    ensures Sourced(s, i, s'.trace[j])
  {
    match i.ev {
      case NConnect(id, addr, l2) =>
        if l2.Some? {
          ConnectSource(s, id, addr, l2.value, i.env, s', j);
        }
      case NData(id, msg) => DataSource(s, id, msg, i.env, j);
      case NDisconnect(id, l2) => DisconnectSource(s, id, l2, i.env, j);
      case NUnitdata(addr, cl) => UnitdataSource(s, addr, cl, i.env, j);
      case RequestTimer(id) => TimerSource(s, id, i.env, j);
      case _ =>
    }
  }

  /** The input settles the request of c. */
  predicate Settles(clock: nat, c: Conn, i: Input, ev: Evidence) {
    match i.ev
    case NData(id, msg) => id == c.id && EvidenceIn(msg) == Some(ev)
    case NDisconnect(id, Some(msg)) => id == c.id && EvidenceIn(msg) == Some(ev)
    case RequestTimer(id) => id == c.id && clock >= c.deadline && ev.Expired?
    case _ => false
  }

  /** A waiting request that is settled is answered: the answer is sent if it can be encoded, and the
      connection is closed. */
  lemma {:induction false} SettledIsAnswered(s: Sys, i: Input, k: nat, ev: Evidence, pdu: Pdu)
    requires Inv(s) && !s.stopped && k < |s.conns| && Settles(s.clock, s.conns[k], i, ev)
    requires IsAnswer(i.env, s.config.table, s.conns[k].cellId, ev, pdu)
    ensures Meets(s, Step(s, i), s.conns[k], Ends(SentOn(i.env, s.conns[k].id, pdu)))
  {
    StepFate(s, i, k);
    FateAnswers(s, i, k, ev, pdu);
  }

  lemma {:induction false} FateAnswers(s: Sys, i: Input, k: nat, ev: Evidence, pdu: Pdu)
    requires k < |s.conns| && Settles(s.clock, s.conns[k], i, ev)
    requires IsAnswer(i.env, s.config.table, s.conns[k].cellId, ev, pdu)
    ensures FateOf(s.clock, s.config.table, s.conns[k], i) == Ends(SentOn(i.env, s.conns[k].id, pdu))
  {
    if !i.ev.RequestTimer? {
      var msg := if i.ev.NData? then i.ev.msg else i.ev.l2.value;
      var r := React(i.env, s.config.table, s.conns[k].cellId, msg);
      ReactionAnswers(i.env, s.config.table, s.conns[k].cellId, msg);
      AnswerIsUnique(i.env, s.config.table, s.conns[k].cellId, ev, pdu, r.pdu);
    }
  }

  /** The other way round: data is sent at the end of a connection only as the answer to what settled it. */
  lemma {:induction false} FateIsAnswer(s: Sys, i: Input, c: Conn, out: Output) returns (ev: Evidence)
    requires out.Data? && out.id == c.id && FateOf(s.clock, s.config.table, c, i) == Ends([out])
    ensures Settles(s.clock, c, i, ev) && IsAnswer(i.env, s.config.table, c.cellId, ev, out.pdu)
  {
    if i.ev.RequestTimer? {
      ev := Expired;
    } else {
      var msg := if i.ev.NData? then i.ev.msg else i.ev.l2.value;
      ReactionAnswers(i.env, s.config.table, c.cellId, msg);
      ev := EvidenceIn(msg).value;
    }
  }

  /** The response that the n-th input gives rise to answers the request accepted at the a-th: either
      that request came with the timing advance, or it has been waiting since, and the n-th input
      settles it. The table is the one configured when the answer is given. */
  ghost predicate AnswersRequest(ins: seq<Input>, a: nat, n: nat, ev: Evidence, out: Output)
    requires a <= n < |ins| && out.Data?
  {
    var s, i := StateAt(ins, n), ins[n];
    && Accepts(StateAt(ins, a), ins[a]) && ins[a].ev.id == out.id
    && var req := ins[a].ev.l2.value.req;
    && IsAnswer(i.env, s.config.table, req.cellId, ev, out.pdu)
    && (if a == n then ev.InRequest? && req.apdu == Some(TaLayer3(ev.ta))
        else
          exists c ::
            && Brings(StateAt(ins, a), ins[a], c)
            && (forall m :: a < m <= n ==> c in StateAt(ins, m).conns)
            && Settles(s.clock, c, i, ev))
  }

  ghost predicate IsAnswered(ins: seq<Input>, n: nat, out: Output)
    requires n < |ins| && out.Data?
  {
    exists a: nat, ev :: a <= n && AnswersRequest(ins, a, n, ev, out)
  }

  lemma {:induction false} LiveSource(ins: seq<Input>, n: nat, c: Conn, out: Output) returns (a: nat, ev: Evidence)
    requires n < |ins| && out.Data? && out.id == c.id && c in StateAt(ins, n).conns
    requires FateOf(StateAt(ins, n).clock, StateAt(ins, n).config.table, c, ins[n]) == Ends([out])
    ensures a < n && AnswersRequest(ins, a, n, ev, out)
  {
    ev := FateIsAnswer(StateAt(ins, n), ins[n], c, out);
    a := OriginIndex(ins[..n], c);
    StateAtPrefix(ins, n, a);
    forall m | a < m <= n ensures c in StateAt(ins, m).conns {
      StateAtPrefix(ins, n, m);
    }
  }

  /** End to end, over every run: each response that leaves the program is the one answer, by the pure
      function, to a request that was accepted on that connection id and had not been answered. */
  lemma {:induction false} EveryResponseAnswersItsRequest(ins: seq<Input>, n: nat, j: nat)
    requires n < |ins|
    requires |StateAt(ins, n).trace| <= j < |StateAt(ins, n + 1).trace| && Responds(StateAt(ins, n + 1).trace[j])
    ensures IsAnswered(ins, n, StateAt(ins, n + 1).trace[j])
  {
    var s, s', i := StateAt(ins, n), StateAt(ins, n + 1), ins[n];
    var out := s'.trace[j];
    RunInv(ins[..n]);
    StateAtNext(ins, n);
    ResponseSource(s, i, s', j);
    if Accepts(s, i) && out.id == i.ev.id {
      var ev := InRequest(i.ev.l2.value.req.apdu.value.ta);
      LocateAnswers(i.env, s.config.table, i.ev.l2.value.req.cellId, ev);
      assert AnswersRequest(ins, n, n, ev, out);
    } else {
      var a, ev := LiveSource(ins, n, s.conns[IndexOfConn(s.conns, out.id)], out);
    }
  }
}
