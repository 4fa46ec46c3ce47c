/** Where the program does less than its comments say: exactly when it does what is meant, and inputs
    for which it does not. */
module LbIntents {
  import opened CellIds
  import opened LbModel
  import opened LbInvariants
  import opened LbSessions
  import opened LbFates
  import opened LbAnswers

  // ----- Inputs for the examples -----

  const WELL := Env(pdu => true, gad => true, n => n, 0)

  function FromBsc(ev: Event): Input {
    Input(ev, WELL)
  }

  /** A location request for a subscriber, without timing advance. */
  function Request(id: nat, imsi: string): Input {
    FromBsc(NConnect(id, Addr(1), Some(PerformLocReq(LocReq(Imsi(imsi), Cgi(Plmn(1, 1, false), 1, 1), None)))))
  }

  const HELLO := FromBsc(NUnitdata(Addr(1), RxReset))

  function Reference(id: nat, imsi: string): Conn {
    Conn(id, Addr(1), Imsi(imsi), Cgi(Plmn(1, 1, false), 1, 1), 5)
  }

  lemma {:induction false} RunThree(a: Input, b: Input, c: Input)
    ensures Run(INIT, [a, b, c]) == Step(Step(Step(INIT, a), b), c)
  {
    var ins := [a, b, c];
    StateAtEnd(ins);
    StateAtNext(ins, 2);
    StateAtNext(ins, 1);
    StateAtNext(ins, 0);
  }

  lemma {:induction false} AfterHello(s: Sys, id: nat, imsi: string)
    requires s == Step(INIT, HELLO)
    ensures !s.stopped && InState(s.peers, Addr(1), Ready) && s.conns == [] && s.clock == 0
    ensures !Step(s, Request(id, imsi)).stopped && Step(s, Request(id, imsi)).conns == [Reference(id, imsi)]
    ensures InState(Step(s, Request(id, imsi)).peers, Addr(1), Ready) && Step(s, Request(id, imsi)).clock == 0
  {
  }

  // ----- N-DISCONNECT -----

  /** An N-DISCONNECT drops its connection only if it carries a message that ends the request anyway. */
  lemma {:induction false} DisconnectDropsIff(s: Sys, id: nat, l2: Option<CoMsg>, env: Env)
    requires Inv(s) && !s.stopped && Live(s, id)
    ensures !Live(Step(s, Input(NDisconnect(id, l2), env)), id) <==> l2.Some? && EndsRequest(l2.value)
  {
    var k, i := IndexOfConn(s.conns, id), Input(NDisconnect(id, l2), env);
    var s' := Step(s, i);
    StepFate(s, i, k);
    if s.conns[k] in s'.conns {
      var j :| 0 <= j < |s'.conns| && s'.conns[j] == s.conns[k];
      LiveIff(s', j);
    }
    if l2.Some? {
      ReactionAnswers(env, s.config.table, s.conns[k].cellId, l2.value);
    }
  }

  /** SCCP has disconnected, and the connection is still there. */
  lemma {:induction false} DisconnectCanKeep(id: nat, imsi: string)
    ensures Live(Run(INIT, [HELLO, Request(id, imsi), FromBsc(NDisconnect(id, None))]), id)
  {
    RunThree(HELLO, Request(id, imsi), FromBsc(NDisconnect(id, None)));
    AfterHello(Step(INIT, HELLO), id, imsi);
  }

  /** SCCP has disconnected, and the request that was due at that moment is still answered on the id. */
  lemma {:induction false} DataAfterDisconnect(s: Sys, k: nat, env: Env, env': Env)
    requires Inv(s) && !s.stopped && k < |s.conns| && s.conns[k].deadline <= s.clock
    ensures var id := s.conns[k].id;
            var s' := Step(Step(s, Input(NDisconnect(id, None), env)), Input(RequestTimer(id), env'));
            s'.trace == s.trace + [Disconnect(id, BySap)]
                      + (SentOn(env', id, LocFailure(SystemFailure)) + [Disconnect(id, ByClose)])
  {
    ConnAt(s.conns, k);
  }

  /** A connection request on an id in use is refused by a disconnect of that id: the live connection is
      disconnected from SCCP, stays, and knows nothing of it. */
  lemma {:induction false} RefusalHitsTheOther(s: Sys, id: nat, addr: Addr, msg: CoMsg, env: Env)
    requires !s.stopped && Live(s, id)
    ensures var s' := Step(s, Input(NConnect(id, addr, Some(msg)), env));
            s' == s.Emit([ConnResp(id), Disconnect(id, BySap)]) && Live(s', id)
  {
    assert s.trace + [ConnResp(id)] + [Disconnect(id, BySap)] == s.trace + [ConnResp(id), Disconnect(id, BySap)];
  }

  // ----- One connection for each subscriber -----

  ghost predicate OnePerSubscriber(s: Sys) {
    forall c, d :: c in s.conns && d in s.conns && c.identity.Imsi? && c.identity == d.identity ==> c == d
  }

  /** A request is accepted, and will wait, for a subscriber that a live connection is about. */
  ghost predicate Doubles(s: Sys, i: Input) {
    && Accepts(s, i) && !CarriesTa(i.ev.l2.value.req) && i.ev.l2.value.req.identity.Imsi?
    && exists d :: d in s.conns && d.identity == i.ev.l2.value.req.identity
  }

  /** As long as every subscriber has at most one connection, a step keeps it so unless it accepts a
      second request for one of them: nothing prevents that. */
  lemma {:induction false} OnePerSubscriberIff(s: Sys, i: Input, s': Sys)
    requires Inv(s) && OnePerSubscriber(s) && s' == Step(s, i)
    ensures OnePerSubscriber(s') <==> !Doubles(s, i)
  {
    if Doubles(s, i) {
      AcceptedIsNew(s, i);
      var c :| Brings(s, i, c) && s'.conns == [c] + s.conns;
      var d :| d in s.conns && d.identity == c.identity;
      assert c in s'.conns && d in s'.conns;
      var k :| 0 <= k < |s.conns| && s.conns[k] == d;
      LiveIff(s, k);
    } else {
      forall c, d | c in s'.conns && d in s'.conns && c.identity.Imsi? && c.identity == d.identity ensures c == d {
        if c !in s.conns {
          NewConn(s, i, s', c);
        }
        if d !in s.conns {
          NewConn(s, i, s', d);
        }
      }
    }
  }

  ghost predicate OnePerSubscriberAt(ins: seq<Input>, n: nat)
    requires n <= |ins|
  {
    OnePerSubscriber(StateAt(ins, n))
  }

  ghost predicate DoublesAt(ins: seq<Input>, n: nat)
    requires n < |ins|
  {
    Doubles(StateAt(ins, n), ins[n])
  }

  lemma {:induction false} OnePerSubscriberNext(ins: seq<Input>, n: nat)
    requires n < |ins| && OnePerSubscriberAt(ins, n)
    ensures OnePerSubscriberAt(ins, n + 1) <==> !DoublesAt(ins, n)
  {
    RunInv(ins[..n]);
    StateAtNext(ins, n);
    OnePerSubscriberIff(StateAt(ins, n), ins[n], StateAt(ins, n + 1));
  }

  lemma {:induction false} OnePerSubscriberUpTo(ins: seq<Input>, k: nat)
    requires k <= |ins| && forall n: nat :: n < k ==> !DoublesAt(ins, n)
    ensures forall n: nat :: n <= k ==> OnePerSubscriberAt(ins, n)
  {
    if k == 0 {
      assert StateAt(ins, 0) == INIT;
    } else {
      OnePerSubscriberUpTo(ins, k - 1);
      OnePerSubscriberNext(ins, k - 1);
    }
  }

  /** Over every run: every subscriber has at most one connection all the time exactly if no request is
      ever accepted, to wait, for a subscriber that has a connection. */
  lemma {:induction false} OnePerSubscriberAllAlong(ins: seq<Input>)
    ensures (forall n: nat :: n <= |ins| ==> OnePerSubscriberAt(ins, n))
       <==> (forall n: nat :: n < |ins| ==> !DoublesAt(ins, n))
  {
    if forall n: nat :: n <= |ins| ==> OnePerSubscriberAt(ins, n) {
      forall n: nat | n < |ins| ensures !DoublesAt(ins, n) {
        OnePerSubscriberNext(ins, n);
      }
    }
    if forall n: nat :: n < |ins| ==> !DoublesAt(ins, n) {
      OnePerSubscriberUpTo(ins, |ins|);
    }
  }

  /** Two requests for one subscriber: both connections are live. */
  lemma {:induction false} TwoForOneSubscriber(imsi: string)
    ensures var s := Run(INIT, [HELLO, Request(1, imsi), Request(2, imsi)]);
            s.conns == [Reference(2, imsi), Reference(1, imsi)] && !OnePerSubscriber(s)
  {
    var s := Step(Step(INIT, HELLO), Request(1, imsi));
    RunThree(HELLO, Request(1, imsi), Request(2, imsi));
    AfterHello(Step(INIT, HELLO), 1, imsi);
    assert Step(s, Request(2, imsi)).conns == [Reference(2, imsi)] + s.conns;
  }

  // ----- Messages without a request -----

  /** The first message of a new connection of a READY peer needs a location request. */
  predicate NeedsMissingRequest(s: Sys, i: Input) {
    && !s.stopped && i.ev.NConnect? && i.ev.l2.Some? && EndsRequest(i.ev.l2.value)
    && !Live(s, i.ev.id) && InState(s.peers, i.ev.calling, Ready)
  }

  lemma {:induction false} StopStep(s: Sys, i: Input)
    ensures Step(s, i).stopped <==> s.stopped || NeedsMissingRequest(s, i)
  {
  }

  predicate MissingAt(ins: seq<Input>, n: nat)
    requires n < |ins|
  {
    NeedsMissingRequest(StateAt(ins, n), ins[n])
  }

  ghost predicate HasMissingRequest(ins: seq<Input>) {
    exists n: nat :: n < |ins| && MissingAt(ins, n)
  }

  lemma {:induction false} MissingStep(ins: seq<Input>, last: nat)
    requires |ins| == last + 1
    ensures HasMissingRequest(ins) <==> HasMissingRequest(ins[..last]) || MissingAt(ins, last)
  {
    forall n: nat | n < last ensures MissingAt(ins[..last], n) <==> MissingAt(ins, n) {
      StateAtPrefix(ins, last, n);
    }
  }

  /** Over every run: the request that the program uses without a check is missing only for such a first
      message, never for a later one. */
  lemma {:induction false} StopsIff(ins: seq<Input>)
    ensures Run(INIT, ins).stopped <==> HasMissingRequest(ins)
  {
    if |ins| == 0 {
    } else {
      var last := |ins| - 1;
      StopsIff(ins[..last]);
      StateAtEnd(ins);
      StateAtNext(ins, last);
      StopStep(StateAt(ins, last), ins[last]);
      MissingStep(ins, last);
    }
  }

  /** Every message that needs a request stops the program when it comes first. */
  lemma {:induction false} AbortCanStop(id: nat, msg: CoMsg)
    requires EndsRequest(msg)
    ensures Run(INIT, [HELLO, FromBsc(NConnect(id, Addr(1), Some(msg)))]).stopped
  {
    var ins := [HELLO, FromBsc(NConnect(id, Addr(1), Some(msg)))];
    StateAtEnd(ins);
    StateAtNext(ins, 1);
    StateAtNext(ins, 0);
    AfterHello(Step(INIT, HELLO), id, "");
  }

  /** A first Perform Location Abort, or a first BSSLAP Abort, stops the program. */
  lemma {:induction false} FirstAbortStops()
    ensures Run(INIT, [HELLO, FromBsc(NConnect(1, Addr(1), Some(PerformLocAbort)))]).stopped
    ensures Run(INIT, [HELLO, FromBsc(NConnect(1, Addr(1), Some(ConnOrientedInfo(BsslapAbort))))]).stopped
  {
    AbortCanStop(1, PerformLocAbort);
    AbortCanStop(1, ConnOrientedInfo(BsslapAbort));
  }

  // ----- Confirmed connections -----

  /** Between s and s' a disconnect was sent for the id, by whoever. */
  ghost predicate Disconnects(s: Sys, s': Sys, id: nat) {
    exists j: nat :: |s.trace| <= j < |s'.trace| && s'.trace[j].Disconnect? && s'.trace[j].id == id
  }

  lemma {:induction false} StartResetSendsNone(s: Sys, refused: seq<Output>, addr: Addr, env: Env, s': Sys, id: nat)
    requires Inv(s) && !InState(s.peers, addr, Ready) && s' == StartReset(s.Emit(refused), addr, env)
    requires refused == [] || refused == [Disconnect(id, ByPeer)]
    ensures s'.conns == s.conns
    ensures Disconnects(s, s', id) <==> refused != []
  {
    NotReadyNoConns(s, addr);
    StartResetParts(s.Emit(refused), addr, env);
    if refused != [] {
      assert s'.trace[|s.trace|] == Disconnect(id, ByPeer);
    }
  }

  lemma {:induction false} OpenDisconnects(s: Sys, id: nat, addr: Addr, msg: CoMsg, env: Env, s': Sys)
    requires !Live(s, id) && s' == Open(s, id, addr, msg, env)
    ensures !Live(s', id) && !Disconnects(s, s', id) <==> EndsRequest(msg)
  {
    if !EndsRequest(msg) && !Live(s', id) {
      assert s'.trace[|s'.trace| - 1] == Disconnect(id, ByClose);
    }
  }

  lemma {:induction false} InitialDisconnects(s: Sys, id: nat, addr: Addr, msg: CoMsg, env: Env, s': Sys)
    requires Inv(s) && !Live(s, id) && s' == OnInitial(s, id, addr, msg, env)
    ensures !Live(s', id) && !Disconnects(s, s', id) <==>
      if InState(s.peers, addr, Ready) then EndsRequest(msg) else !InState(s.peers, addr, WaitRxResetAck)
  {
    AddPeerInv(s, addr);
    var s1 := s.(peers := AddPeer(s.peers, addr));
    if InState(s1.peers, addr, Ready) {
      OpenDisconnects(s1, id, addr, msg, env, s');
    } else if InState(s1.peers, addr, WaitRxReset) {
      assert s1.Emit([]) == s1;
      StartResetSendsNone(s1, [], addr, env, s', id);
    } else {
      StartResetSendsNone(s1, [Disconnect(id, ByPeer)], addr, env, s', id);
    }
  }

  /** A confirmed connection is left alone, with neither a connection object nor a disconnect, exactly if
      its id is not live and its peer is unknown or in WAIT_RX_RESET: looking the connection up there
      finds nothing to disconnect. (The other case is the message that stops the program.) */
  lemma {:induction false} ConfirmedIsForgottenIff(s: Sys, id: nat, addr: Addr, msg: CoMsg, env: Env, s': Sys)
    requires Inv(s) && !s.stopped && s' == Step(s, Input(NConnect(id, addr, Some(msg)), env))
    ensures !Live(s', id) && !Disconnects(s, s', id) <==>
      && !Live(s, id)
      && (if InState(s.peers, addr, Ready) then EndsRequest(msg) else !InState(s.peers, addr, WaitRxResetAck))
  {
    var s1 := s.Emit([ConnResp(id)]);
    if !Live(s, id) {
      InitialDisconnects(s1, id, addr, msg, env, s');
      InitialGrows(s1, id, addr, msg, env);
      assert s'.trace[|s.trace|] == s1.trace[|s.trace|] == ConnResp(id);
    }
  }

  /** The first message of all: the connection is confirmed, RESET is sent, and that is all. */
  lemma {:induction false} FirstConnectIsForgotten(id: nat, msg: CoMsg)
    ensures var s := Run(INIT, [FromBsc(NConnect(id, Addr(1), Some(msg)))]);
            s.conns == [] && s.trace == [ConnResp(id), Unitdata(Addr(1), Reset, 0)]
  {
    var ins := [FromBsc(NConnect(id, Addr(1), Some(msg)))];
    StateAtEnd(ins);
    StateAtNext(ins, 0);
  }

  // ----- Routing -----

  /** A message for an id that is not live changes nothing; one for a live id leaves every other
      connection where it is, and all peers and the configuration. */
  lemma {:induction false} DataReachesItsOwner(s: Sys, id: nat, msg: CoMsg, env: Env)
    requires Inv(s) && !s.stopped
    ensures var s' := Step(s, Input(NData(id, msg), env));
            && (!Live(s, id) ==> s' == s)
            && s'.peers == s.peers && s'.config == s.config
            && forall c :: c in s.conns && c.id != id ==> c in s'.conns && About(s'.trace, c.id) == About(s.trace, c.id)
  {
    var i := Input(NData(id, msg), env);
    var s' := Step(s, i);
    forall c | c in s.conns && c.id != id ensures c in s'.conns && About(s'.trace, c.id) == About(s.trace, c.id) {
      var k :| 0 <= k < |s.conns| && s.conns[k] == c;
      StepFate(s, i, k);
    }
  }
}
