/** What is handed to SCCP, input by input: one table of the outputs, in terms of the messages, the
    connections and the peers alone. It is stated apart from the steps of LbModel, and every step is
    proved to follow it. */
module LbSteps {
  import opened CellIds
  import opened CellConfig
  import opened LbModel
  import opened LbInvariants
  import opened LbSessions
  import opened LbFates
  import opened LbAnswers
  import opened LbOutcomes
  import opened LbPeers

  // ----- The table -----

  /** A connection-less message is handed to SCCP exactly if it can be encoded. */
  function SentTo(env: Env, addr: Addr, pdu: Pdu): seq<Output> {
    if env.encodes(pdu) then [Unitdata(addr, pdu, env.unitdataRc)] else []
  }

  /** What follows once the first message of a new connection of a READY peer is read. */
  ghost predicate SaysOnFirst(s: Sys, id: nat, msg: CoMsg, env: Env, outs: seq<Output>) {
    if EndsRequest(msg) then outs == []
    else if !msg.PerformLocReq? then outs == [Disconnect(id, ByClose)]
    else if CarriesTa(msg.req) then
      exists pdu ::
        && IsAnswer(env, s.config.table, msg.req.cellId, InRequest(msg.req.apdu.value.ta), pdu)
        && outs == SentOn(env, id, pdu) + [Disconnect(id, ByClose)]
    else outs == SentOn(env, id, TaRequest)
  }

  /** The outputs for a connection with a first message: it is confirmed in any case. */
  ghost predicate SaysOnConnect(s: Sys, id: nat, addr: Addr, msg: CoMsg, env: Env, outs: seq<Output>) {
    var v := View(s, addr);
    if Live(s, id) then outs == [ConnResp(id), Disconnect(id, BySap)]
    else if v.None? || v.value.state == WaitRxReset then outs == [ConnResp(id)] + SentTo(env, addr, Reset)
    else if v.value.state == WaitRxResetAck then
      outs == [ConnResp(id), Disconnect(id, ByPeer)] + SentTo(env, addr, Reset)
    else exists rest :: outs == [ConnResp(id), Opened(id)] + rest && SaysOnFirst(s, id, msg, env, rest)
  }

  /** The outputs for a message on a connection id, by the request that waits there. */
  ghost predicate SaysOnMessage(s: Sys, id: nat, msg: CoMsg, env: Env, outs: seq<Output>) {
    var k := IndexOfConn(s.conns, id);
    if k == |s.conns| || !EndsRequest(msg) then outs == []
    else if msg.PerformLocAbort? then outs == [Disconnect(id, ByClose)]
    else
      exists pdu ::
        && IsAnswer(env, s.config.table, s.conns[k].cellId, EvidenceIn(msg).value, pdu)
        && outs == SentOn(env, id, pdu) + [Disconnect(id, ByClose)]
  }

  /** N-DISCONNECT is answered last, whatever its message did. */
  ghost predicate SaysOnDisconnect(s: Sys, id: nat, l2: Option<CoMsg>, env: Env, outs: seq<Output>) {
    exists said ::
      && outs == said + [Disconnect(id, BySap)]
      && (if l2.Some? then SaysOnMessage(s, id, l2.value, env, said) else said == [])
  }

  /** RESET: the marks of the connections that are dropped, then the acknowledgement. */
  ghost predicate SaysOnReset(s: Sys, addr: Addr, env: Env, outs: seq<Output>) {
    exists marks ::
      && outs == marks + SentTo(env, addr, ResetAck)
      && marks == Discards(s.conns, addr) && forall k :: 0 <= k < |marks| ==> marks[k].Discarded?
  }

  ghost predicate SaysOnTimer(s: Sys, id: nat, env: Env, outs: seq<Output>) {
    var k := IndexOfConn(s.conns, id);
    if k == |s.conns| || s.clock < s.conns[k].deadline then outs == []
    else outs == SentOn(env, id, LocFailure(SystemFailure)) + [Disconnect(id, ByClose)]
  }

  ghost predicate Says(s: Sys, i: Input, outs: seq<Output>) {
    if s.stopped then outs == [] else
    match i.ev
    case NConnect(id, addr, l2) => if l2.Some? then SaysOnConnect(s, id, addr, l2.value, i.env, outs) else outs == []
    case NData(id, msg) => SaysOnMessage(s, id, msg, i.env, outs)
    case NDisconnect(id, l2) => SaysOnDisconnect(s, id, l2, i.env, outs)
    case NUnitdata(addr, cl) => if cl.RxReset? then SaysOnReset(s, addr, i.env, outs) else outs == []
    case RequestTimer(id) => SaysOnTimer(s, id, i.env, outs)
    case _ => outs == []
  }

  // ----- Every step follows it -----

  lemma {:induction false} OpenSays(s: Sys, id: nat, addr: Addr, msg: CoMsg, env: Env) returns (outs: seq<Output>)
    ensures Open(s, id, addr, msg, env).trace == s.trace + ([Opened(id)] + outs)
    ensures SaysOnFirst(s, id, msg, env, outs)
  {
    if EndsRequest(msg) {
      outs := [];
    } else if !msg.PerformLocReq? {
      outs := [Disconnect(id, ByClose)];
    } else if CarriesTa(msg.req) {
      var ta := msg.req.apdu.value.ta;
      var pdu := Locate(env, s.config.table, msg.req.cellId, ta);
      LocateAnswers(env, s.config.table, msg.req.cellId, InRequest(ta));
      outs := SentOn(env, id, pdu) + [Disconnect(id, ByClose)];
    } else {
      outs := SentOn(env, id, TaRequest);
    }
  }

  lemma {:induction false} StartResetSays(s: Sys, addr: Addr, env: Env)
    requires Inv(s) && !InState(s.peers, addr, Ready)
    ensures StartReset(s, addr, env).trace == s.trace + SentTo(env, addr, Reset)
  {
    NotReadyNoConns(s, addr);
    StartResetParts(s, addr, env);
  }

  lemma {:induction false} InitialSays(s: Sys, id: nat, addr: Addr, msg: CoMsg, env: Env) returns (outs: seq<Output>)
    requires Inv(s) && !Live(s, id)
    ensures OnInitial(s, id, addr, msg, env).trace == s.trace + outs
    ensures SaysOnConnect(s, id, addr, msg, env, [ConnResp(id)] + outs)
  {
    AddPeerInv(s, addr);
    ViewAfterAdd(s, addr, addr);
    var s1 := s.(peers := AddPeer(s.peers, addr));
    if InState(s1.peers, addr, Ready) {
      var rest := OpenSays(s1, id, addr, msg, env);
      outs := [Opened(id)] + rest;
      assert [ConnResp(id)] + outs == [ConnResp(id), Opened(id)] + rest;
      assert SaysOnFirst(s, id, msg, env, rest);
    } else if InState(s1.peers, addr, WaitRxReset) {
      StartResetSays(s1, addr, env);
      outs := SentTo(env, addr, Reset);
    } else {
      StartResetSays(s1.Emit([Disconnect(id, ByPeer)]), addr, env);
      outs := [Disconnect(id, ByPeer)] + SentTo(env, addr, Reset);
      assert [ConnResp(id)] + outs == [ConnResp(id), Disconnect(id, ByPeer)] + SentTo(env, addr, Reset);
    }
  }

  lemma {:induction false} FreshSays(s: Sys, id: nat, addr: Addr, msg: CoMsg, env: Env) returns (outs: seq<Output>)
    requires Inv(s) && !Live(s, id)
    ensures OnInitial(s.Emit([ConnResp(id)]), id, addr, msg, env).trace == s.trace + outs
    ensures SaysOnConnect(s, id, addr, msg, env, outs)
  {
    var s1 := s.Emit([ConnResp(id)]);
    var rest := InitialSays(s1, id, addr, msg, env);
    outs := [ConnResp(id)] + rest;
    assert s.trace + [ConnResp(id)] + rest == s.trace + outs;
    SameTable(s, s1, id, addr, msg, env, outs);
  }

  lemma {:induction false} ConnectSays(s: Sys, id: nat, addr: Addr, msg: CoMsg, env: Env) returns (outs: seq<Output>)
    requires Inv(s)
    ensures OnConnectInd(s, id, addr, Some(msg), env).trace == s.trace + outs
    ensures SaysOnConnect(s, id, addr, msg, env, outs)
  {
    if Live(s, id) {
      outs := [ConnResp(id), Disconnect(id, BySap)];
      assert s.trace + [ConnResp(id)] + [Disconnect(id, BySap)] == s.trace + outs;
    } else {
      outs := FreshSays(s, id, addr, msg, env);
    }
  }

  /** The table looks at the connections, the peers and the cells only. */
  lemma {:induction false} SameTable(s: Sys, s1: Sys, id: nat, addr: Addr, msg: CoMsg, env: Env, outs: seq<Output>)
    requires SaysOnConnect(s1, id, addr, msg, env, outs)
    requires s1.conns == s.conns && s1.peers == s.peers && s1.config == s.config
    ensures SaysOnConnect(s, id, addr, msg, env, outs)
  {
    var v := View(s, addr);
    if !Live(s, id) && v.Some? && v.value.state == Ready {
      var rest :| outs == [ConnResp(id), Opened(id)] + rest && SaysOnFirst(s1, id, msg, env, rest);
      assert SaysOnFirst(s, id, msg, env, rest);
    }
  }

  lemma {:induction false} DataSays(s: Sys, id: nat, msg: CoMsg, env: Env) returns (outs: seq<Output>)
    ensures OnData(s, id, msg, env).trace == s.trace + outs
    ensures SaysOnMessage(s, id, msg, env, outs)
  {
    var k := IndexOfConn(s.conns, id);
    if k == |s.conns| {
      outs := [];
    } else {
      var r := React(env, s.config.table, s.conns[k].cellId, msg);
      ReactionAnswers(env, s.config.table, s.conns[k].cellId, msg);
      match r {
        case Ignore => outs := [];
        case Abandon => outs := [Disconnect(id, ByClose)];
        case Answer(pdu) => outs := SentOn(env, id, pdu) + [Disconnect(id, ByClose)];
      }
    }
  }

  lemma {:induction false} DisconnectSays(s: Sys, id: nat, l2: Option<CoMsg>, env: Env) returns (outs: seq<Output>)
    ensures OnDisconnectInd(s, id, l2, env).trace == s.trace + outs
    ensures SaysOnDisconnect(s, id, l2, env, outs)
  {
    var said := [];
    if l2.Some? {
      said := DataSays(s, id, l2.value, env);
    }
    outs := said + [Disconnect(id, BySap)];
  }

  lemma {:induction false} ResetSays(s: Sys, addr: Addr, env: Env) returns (outs: seq<Output>)
    ensures OnUnitdata(s, addr, RxReset, env).trace == s.trace + outs
    ensures SaysOnReset(s, addr, env, outs)
  {
    var marks := Discards(s.conns, addr);
    DiscardsOnly(s.conns, addr);
    outs := marks + SentTo(env, addr, ResetAck);
  }

  lemma {:induction false} TimerSays(s: Sys, id: nat, env: Env) returns (outs: seq<Output>)
    ensures OnRequestTimer(s, id, env).trace == s.trace + outs
    ensures SaysOnTimer(s, id, env, outs)
  {
    var k := IndexOfConn(s.conns, id);
    outs := if k == |s.conns| || s.clock < s.conns[k].deadline then []
            else SentOn(env, id, LocFailure(SystemFailure)) + [Disconnect(id, ByClose)];
  }

  /** Every step hands to SCCP what the table says. */
  lemma {:induction false} StepSays(s: Sys, i: Input) returns (outs: seq<Output>)
    requires Inv(s)
    ensures Step(s, i).trace == s.trace + outs && Says(s, i, outs)
  {
    outs := [];
    if s.stopped {
      return;
    }
    match i.ev {
      case NConnect(id, addr, l2) =>
        if l2.Some? {
          outs := ConnectSays(s, id, addr, l2.value, i.env);
        }
      case NData(id, msg) => outs := DataSays(s, id, msg, i.env);
      case NDisconnect(id, l2) => outs := DisconnectSays(s, id, l2, i.env);
      case NUnitdata(addr, cl) =>
        if cl.RxReset? {
          outs := ResetSays(s, addr, i.env);
        }
      case RequestTimer(id) => outs := TimerSays(s, id, i.env);
      case _ =>
    }
  }

  lemma {:induction false} FirstSaidOnce(s: Sys, id: nat, msg: CoMsg, env: Env, a: seq<Output>, b: seq<Output>)
    requires SaysOnFirst(s, id, msg, env, a) && SaysOnFirst(s, id, msg, env, b)
    ensures a == b
  {
    if !EndsRequest(msg) && msg.PerformLocReq? && CarriesTa(msg.req) {
      var ev := InRequest(msg.req.apdu.value.ta);
      var t, cell := s.config.table, msg.req.cellId;
      var p :| IsAnswer(env, t, cell, ev, p) && a == SentOn(env, id, p) + [Disconnect(id, ByClose)];
      var q :| IsAnswer(env, t, cell, ev, q) && b == SentOn(env, id, q) + [Disconnect(id, ByClose)];
      AnswerIsUnique(env, t, cell, ev, p, q);
    }
  }

  lemma {:induction false} MessageSaidOnce(s: Sys, id: nat, msg: CoMsg, env: Env, a: seq<Output>, b: seq<Output>)
    requires SaysOnMessage(s, id, msg, env, a) && SaysOnMessage(s, id, msg, env, b)
    ensures a == b
  {
    var k := IndexOfConn(s.conns, id);
    if k < |s.conns| && EvidenceIn(msg).Some? {
      var t, cell, ev := s.config.table, s.conns[k].cellId, EvidenceIn(msg).value;
      var p :| IsAnswer(env, t, cell, ev, p) && a == SentOn(env, id, p) + [Disconnect(id, ByClose)];
      var q :| IsAnswer(env, t, cell, ev, q) && b == SentOn(env, id, q) + [Disconnect(id, ByClose)];
      AnswerIsUnique(env, t, cell, ev, p, q);
    }
  }

  /** The table leaves no choice: it determines the outputs of every input. */
  lemma {:induction false} SaidOnce(s: Sys, i: Input, a: seq<Output>, b: seq<Output>)
    requires Says(s, i, a) && Says(s, i, b)
    ensures a == b
  {
    if !s.stopped {
      match i.ev {
        case NConnect(id, addr, Some(msg)) =>
          var v := View(s, addr);
          if !Live(s, id) && v.Some? && v.value.state == Ready {
            var p :| a == [ConnResp(id), Opened(id)] + p && SaysOnFirst(s, id, msg, i.env, p);
            var q :| b == [ConnResp(id), Opened(id)] + q && SaysOnFirst(s, id, msg, i.env, q);
            FirstSaidOnce(s, id, msg, i.env, p, q);
          }
        case NData(id, msg) => MessageSaidOnce(s, id, msg, i.env, a, b);
        case NDisconnect(id, Some(msg)) =>
          var p :| a == p + [Disconnect(id, BySap)] && SaysOnMessage(s, id, msg, i.env, p);
          var q :| b == q + [Disconnect(id, BySap)] && SaysOnMessage(s, id, msg, i.env, q);
          MessageSaidOnce(s, id, msg, i.env, p, q);
        case _ =>
      }
    }
  }

  // ----- What the table means -----

  /** Every N-DISCONNECT is answered by a disconnect of its id, as the last output and the only one of
      its kind, whatever the message in it and whether or not there is a connection. */
  lemma {:induction false} DisconnectIsAnswered(s: Sys, id: nat, l2: Option<CoMsg>, env: Env, s': Sys)
    requires Inv(s) && !s.stopped && s' == Step(s, Input(NDisconnect(id, l2), env))
    ensures |s'.trace| > |s.trace| && s'.trace[|s'.trace| - 1] == Disconnect(id, BySap)
    ensures forall j, any :: |s.trace| <= j < |s'.trace| - 1 ==> s'.trace[j] != Disconnect(any, BySap)
  {
    var outs := StepSays(s, Input(NDisconnect(id, l2), env));
    var said :| outs == said + [Disconnect(id, BySap)]
             && (if l2.Some? then SaysOnMessage(s, id, l2.value, env, said) else said == []);
    assert forall k, any :: 0 <= k < |said| ==> said[k] != Disconnect(any, BySap);
    assert forall j :: |s.trace| <= j < |s'.trace| - 1 ==> s'.trace[j] == said[j - |s.trace|];
  }

  /** A RESET is answered by RESET ACKNOWLEDGE as the last output if that can be encoded, and by nothing
      otherwise. */
  lemma {:induction false} ResetIsAcknowledged(s: Sys, addr: Addr, env: Env, s': Sys)
    requires Inv(s) && !s.stopped && s' == Step(s, Input(NUnitdata(addr, RxReset), env))
    ensures env.encodes(ResetAck) ==>
      |s'.trace| > |s.trace| && s'.trace[|s'.trace| - 1] == Unitdata(addr, ResetAck, env.unitdataRc)
    ensures !env.encodes(ResetAck) ==> forall j :: |s.trace| <= j < |s'.trace| ==> s'.trace[j].Discarded?
  {
    var outs := StepSays(s, Input(NUnitdata(addr, RxReset), env));
    var marks :| outs == marks + SentTo(env, addr, ResetAck) && forall k :: 0 <= k < |marks| ==> marks[k].Discarded?;
    assert forall j :: |s.trace| <= j < |s'.trace| ==> s'.trace[j] == outs[j - |s.trace|];
  }

  /** The n-th input is a RESET of the peer, and RESET ACKNOWLEDGE was handed to SCCP with success. */
  ghost predicate AckSentAt(ins: seq<Input>, n: nat, addr: Addr)
    requires n < |ins|
  {
    var t := StateAt(ins, n + 1).trace;
    ins[n].ev == NUnitdata(addr, RxReset) && |t| > 0 && t[|t| - 1] == Unitdata(addr, ResetAck, 0)
  }

  /** The n-th input acknowledges a RESET that was handed to SCCP with success and awaited since. */
  ghost predicate AckReceivedAt(ins: seq<Input>, n: nat, addr: Addr)
    requires n < |ins|
  {
    ins[n].ev == NUnitdata(addr, RxResetAck) && exists m: nat :: m < n && AskedAt(ins[..n], m, addr)
  }

  /** Over every run: a READY peer was sent a RESET ACKNOWLEDGE with success, or acknowledged a RESET that
      was sent to it with success, and its RESETs have been acknowledged ever since. */
  lemma {:induction false} ReadyWasAcknowledged(ins: seq<Input>, addr: Addr)
    requires InState(Run(INIT, ins).peers, addr, Ready)
    ensures exists n: nat ::
      && n < |ins| && ShakenAt(ins, n, addr)
      && (AckSentAt(ins, n, addr) || AckReceivedAt(ins, n, addr))
  {
    ReadyHistory(ins, addr);
    var n: nat :| n < |ins| && ShakenAt(ins, n, addr);
    var s := StateAt(ins, n);
    RunInv(ins[..n]);
    StateAtNext(ins, n);
    if ins[n].ev.cl.RxReset? {
      ResetIsAcknowledged(s, addr, ins[n].env, StateAt(ins, n + 1));
    } else {
      var m := AwaitHistory(ins[..n], addr);
    }
  }

  /** Over every run: for each live connection the timing advance has been asked for, if the question
      could be encoded when the request was accepted. */
  lemma {:induction false} LiveIsAsked(ins: seq<Input>, c: Conn)
    requires c in Run(INIT, ins).conns
    ensures exists n: nat ::
      && n < |ins| && ComesFrom(ins, n, c)
      && PhaseOf(Run(INIT, ins), c.id) == if ins[n].env.encodes(TaRequest) then Asked else Begun
  {
    var n := OriginIndex(ins, c);
    var s, s' := StateAt(ins, n), StateAt(ins, n + 1);
    var id, first := c.id, SentOn(ins[n].env, c.id, TaRequest);
    RunInv(ins[..n]);
    StateAtNext(ins, n);
    StateAtEnd(ins);
    AcceptedWithoutTaWaits(s, ins[n], s', c);
    forall m | n < m <= |ins| ensures IsThere(ins, m, c) {
    }
    SilentWhileWaiting(ins, n, |ins|, c);
    OutputLanguage(ins[..n], id);
    PhaseAfterOpening(s.trace, Run(INIT, ins).trace, id, first);
  }

  lemma {:induction false} PhaseAfterOpening(t: seq<Output>, t': seq<Output>, id: nat, first: seq<Output>)
    requires After(Closed, t, id) == Closed && About(t', id) == About(t, id) + [Opened(id)] + first
    requires first == [] || first == [Data(id, TaRequest)]
    ensures After(Closed, t', id) == if first == [] then Begun else Asked
  {
    AfterAbout(Closed, t, id);
    AfterAbout(Closed, t', id);
    AfterAppend(Closed, About(t, id) + [Opened(id)], first, id);
    AfterAppend(Closed, About(t, id), [Opened(id)], id);
    AfterOne(Closed, Opened(id), id);
    AfterOne(Begun, Data(id, TaRequest), id);
  }

  // ----- What is not output -----

  /** No timer of a connection or a peer runs out before the given time. */
  ghost predicate NothingDueBefore(s: Sys, time: nat) {
    && (forall c :: c in s.conns ==> time <= c.deadline)
    && (forall p :: p in s.peers && p.deadline.Some? ==> time <= p.deadline.value)
  }

  ghost predicate SameTimeAndTable(s: Sys, s': Sys) {
    s'.clock == s.clock && s'.config == s.config
  }

  lemma {:induction false} InitialKeeps(s: Sys, id: nat, addr: Addr, msg: CoMsg, env: Env)
    ensures SameTimeAndTable(s, OnInitial(s, id, addr, msg, env))
  {
  }

  lemma {:induction false} AdvanceMoves(s: Sys, time: nat)
    ensures OnAdvance(s, time) == s.(clock := if s.clock <= time && NothingDueBefore(s, time) then time else s.clock)
  {
    if NoTimerBefore(s, time) {
      assert NothingDueBefore(s, time);
    }
    if NothingDueBefore(s, time) {
      forall k | 0 <= k < |s.conns| ensures time <= s.conns[k].deadline {
        assert s.conns[k] in s.conns;
      }
      forall k | 0 <= k < |s.peers| && s.peers[k].deadline.Some? ensures time <= s.peers[k].deadline.value {
        assert s.peers[k] in s.peers;
      }
    }
  }

  /** The clock moves only when it is told to, only forward, and only if no timer would be passed, and
      then nothing else moves. The table of cells moves only by commands, and then nothing else moves. */
  lemma {:induction false} StepMoves(s: Sys, i: Input, s': Sys)
    requires s' == Step(s, i) && !s.stopped
    ensures i.ev.Advance? ==>
      s' == s.(clock := if s.clock <= i.ev.to && NothingDueBefore(s, i.ev.to) then i.ev.to else s.clock)
    ensures i.ev.Configure? ==> s' == s.(config := s'.config)
    ensures !i.ev.Advance? && !i.ev.Configure? ==> SameTimeAndTable(s, s')
  {
    match i.ev {
      case NConnect(id, addr, l2) =>
        if l2.Some? && !Live(s, id) {
          InitialKeeps(s.Emit([ConnResp(id)]), id, addr, l2.value, i.env);
        }
      case Advance(time) => AdvanceMoves(s, time);
      case _ =>
    }
  }
}
