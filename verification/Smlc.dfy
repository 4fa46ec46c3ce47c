/** The location server as the program runs it: peers, connections, location requests and subscribers
    are objects that point at each other, lifetimes are governed by use counts with callbacks, and
    tearing down a connection re-enters itself. Every method that handles an input is proved to take
    exactly the step of LbModel. */
module Smlc {
  import opened CellIds
  import opened CellLocations
  import opened CellConfig
  import opened ConnIds
  import opened LbModel
  import opened LbInvariants
  import opened SmlcObjects

  // ----- Steps of the model -----

  /** The first n connections have been gone through, and those of the peer among them dropped. */
  ghost function Dropping(s: Sys, addr: Addr, n: nat): Sys
    requires n <= |s.conns|
  {
    s.(conns := Others(s.conns[..n], addr) + s.conns[n..]).Emit(Discards(s.conns[..n], addr))
  }

  lemma {:induction false} DroppingEnds(s: Sys, addr: Addr)
    ensures Dropping(s, addr, 0) == s
    ensures Dropping(s, addr, |s.conns|) == DropPeerConns(s, addr)
  {
    var cs := s.conns;
    assert cs[..0] == [] && cs[..|cs|] == cs && [] + cs[0..] == cs && cs[|cs|..] == [];
    assert s.trace + [] == s.trace;
    assert Others(cs, addr) + [] == Others(cs, addr);
  }

  /** The lists and logs behind one step of the walk. */
  lemma {:induction false} DroppingLists(cs: seq<Conn>, addr: Addr, n: nat)
    requires n < |cs|
    ensures var kept, kept' := Others(cs[..n], addr), Others(cs[..n + 1], addr);
            if cs[n].addr == addr then
              kept' == kept && Discards(cs[..n + 1], addr) == Discards(cs[..n], addr) + [Discarded(cs[n].id)]
            else kept' == kept + [cs[n]] && Discards(cs[..n + 1], addr) == Discards(cs[..n], addr)
  {
    assert cs[..n + 1] == cs[..n] + [cs[n]];
    OthersAppend(cs[..n], cs[n], addr);
  }

  lemma {:induction false} DroppingStep(s: Sys, addr: Addr, n: nat)
    requires n < |s.conns|
    ensures var d, d', k := Dropping(s, addr, n), Dropping(s, addr, n + 1), |Others(s.conns[..n], addr)|;
            && k < |d.conns| && d.conns[k] == s.conns[n]
            && |Others(s.conns[..n + 1], addr)| == (if s.conns[n].addr == addr then k else k + 1)
            && d' == if s.conns[n].addr == addr
                     then d.(conns := d.conns[..k] + d.conns[k + 1..]).Emit([Discarded(d.conns[k].id)]) else d
  {
    var cs, d := s.conns, Dropping(s, addr, n);
    var kept, log := Others(cs[..n], addr), Discards(cs[..n], addr);
    DroppingLists(cs, addr, n);
    if cs[n].addr == addr {
      assert d.conns[..|kept|] == kept && d.conns[|kept| + 1..] == cs[n + 1..];
      assert s.trace + (log + [Discarded(cs[n].id)]) == s.trace + log + [Discarded(cs[n].id)];
    } else {
      assert cs[n..] == [cs[n]] + cs[n + 1..];
      assert kept + [cs[n]] + cs[n + 1..] == kept + ([cs[n]] + cs[n + 1..]);
    }
  }

  predicate StaysOpen(msg: CoMsg) {
    msg.PerformLocReq? && TaInRequest(msg.req).None?
  }

  /** What the first message makes the program send before the connection is given back. */
  function FirstOutputs(id: nat, msg: CoMsg, env: Env, table: seq<CellLocation>): seq<Output> {
    if !msg.PerformLocReq? then []
    else match TaInRequest(msg.req)
      case Some(ta) => Transmit(env, id, Locate(env, table, msg.req.cellId, ta))
      case None => Transmit(env, id, TaRequest)
  }

  /** The three outcomes of a first message. */
  ghost predicate Opens(s: Sys, s': Sys, id: nat, addr: Addr, msg: CoMsg, env: Env) {
    var outs := s.trace + [Opened(id)] + FirstOutputs(id, msg, env, s.config.table);
    if NeedsRequest(msg) then s' == s.(stopped := true, trace := s.trace + [Opened(id)])
    else if StaysOpen(msg) then
      s' == s.(conns := [Conn(id, addr, msg.req.identity, msg.req.cellId, s.clock + T12)] + s.conns, trace := outs)
    else s' == s.(trace := outs + [Disconnect(id, ByClose)])
  }

  lemma {:induction false} OpenOutcomes(s: Sys, id: nat, addr: Addr, msg: CoMsg, env: Env)
    ensures Opens(s, Open(s, id, addr, msg, env), id, addr, msg, env)
  {
    var outs := FirstOutputs(id, msg, env, s.config.table);
    var start, end := s.trace + [Opened(id)], [Disconnect(id, ByClose)];
    assert start + outs + end == start + (outs + end);
    assert s.trace + [Opened(id)] + [] == s.trace + [Opened(id)];
  }

  /** The new connection and the trace, when a first message makes its connection stay. */
  lemma {:induction false} StayingStep(s: Sys, s': Sys, m: Conn, id: nat, addr: Addr, msg: CoMsg, env: Env)
    requires StaysOpen(msg) && Opens(s, s', id, addr, msg, env)
    requires m == Conn(id, addr, msg.req.identity, msg.req.cellId, s.clock + T12)
    ensures s' == s.(conns := [m] + s.conns, trace := s'.trace)
    ensures s'.trace == s.trace + [Opened(id)] + FirstOutputs(id, msg, env, s.config.table)
  {
  }

  class SmlcState {
    var lbPeers: seq<LbPeer>
    var lbConns: seq<LbConn>
    var subscribers: seq<SmlcSubscr>
    const cells: CellTable
    var inCells: bool
    var clock: nat
    var nextConnId: nat
    var stopped: bool
    var trace: seq<Output>

    ghost var model: Sys          // what all of this amounts to
    ghost var repr: set<object>   // the objects in use

    constructor ()
      ensures Valid() && model == INIT && fresh(repr) && nextConnId == 1
    {
      lbPeers, lbConns, subscribers, trace := [], [], [], [];
      var table := new CellTable();
      cells := table;
      inCells, clock, nextConnId, stopped := false, 0, 1, false;
      model := INIT;
      repr := {this, table};
    }

    // ----- What holds between two inputs -----

    /** A connection is open, used by exactly its location request, which points back to it and waits
        for the timing advance; it has a listed peer, and a listed subscriber if the request names one. */
    ghost predicate ConnOk(c: LbConn, m: Conn)
      reads this, repr
    {
      && c in repr && !c.freed && !c.closing && c.sccpConnId == m.id && c.useCount == multiset{UseLocReq}
      && c.lbPeer != null && c.lbPeer in lbPeers && c.lbPeer.addr == m.addr
      && c.smlcLocReq != null && c.smlcLocReq in repr && Waiting(c.smlcLocReq, c, m.cellId, m.deadline)
      && IsSubscrOf(c.smlcSubscr, m.identity, subscribers)
    }

    ghost predicate ConnsOk()
      reads this, repr
    {
      |lbConns| == |model.conns| && forall k :: 0 <= k < |lbConns| ==> ConnOk(lbConns[k], model.conns[k])
    }

    ghost predicate PeerOk(p: LbPeer, m: Peer)
      reads this, repr
    {
      p in repr && p.addr == m.addr && p.state == m.state && p.deadline == m.deadline
    }

    ghost predicate PeersOk()
      reads this, repr
    {
      |lbPeers| == |model.peers| && forall k :: 0 <= k < |lbPeers| ==> PeerOk(lbPeers[k], model.peers[k])
    }

    /** A listed subscriber is used once for every connection that refers to it, and at least once. */
    ghost predicate SubscrOk(s: SmlcSubscr)
      reads this, repr
    {
      && s in repr && !s.freed && s.imsi.Imsi?
      && s.useCount == ConnUses(CountOf(model.conns, s.imsi)) && CountOf(model.conns, s.imsi) > 0
    }

    ghost predicate SubscribersOk()
      reads this, repr
    {
      DistinctImsis(subscribers) && forall x :: x in subscribers ==> SubscrOk(x)
    }

    ghost predicate Coupled()
      reads this, repr, cells
    {
      && clock == model.clock && Config(inCells, cells.entries) == model.config
      && PeersOk() && ConnsOk() && SubscribersOk()
    }

    ghost predicate Valid()
      reads this, repr
    {
      && this in repr && cells in repr
      && nextConnId < ID_SPACE
      && stopped == model.stopped && trace == model.trace
      && Inv(model)
      && (!stopped ==> Coupled())
    }

    // ----- Subscribers -----

    method SubscrPut(s: SmlcSubscr, use: SubscrUse)
      requires s in subscribers && !s.freed && use in s.useCount
      modifies this`subscribers, s
      ensures SubscrDropped(s, use)
    {
      s.useCount := s.useCount - multiset{use};
      if |s.useCount| == 0 {
        subscribers := Unlink(subscribers, s);
        s.freed := true;
      }
    }

    /** One use of s is gone; with the last one, s leaves the list and is freed. */
    twostate predicate SubscrDropped(s: SmlcSubscr, use: SubscrUse)
      reads this, s
    {
      && s.useCount == old(s.useCount) - multiset{use}
      && (if s.useCount == multiset{} then s.freed && subscribers == Unlink(old(subscribers), s)
          else !s.freed && subscribers == old(subscribers))
    }

    /** Finds the subscriber and takes a use of it. */
    method SubscrFind(imsi: Identity, use: SubscrUse) returns (s: SmlcSubscr?)
      modifies subscribers
      ensures s == null ==> (forall x :: x in subscribers ==> x.imsi != imsi && unchanged(x))
      ensures s != null ==> s in subscribers && s.imsi == imsi && s.useCount == old(s.useCount) + multiset{use}
      ensures s != null ==> s.freed == old(s.freed)
      ensures forall x :: x in subscribers && x != s ==> unchanged(x)
    {
      var k := 0;
      while k < |subscribers|
        invariant k <= |subscribers|
        invariant forall j :: 0 <= j < k ==> subscribers[j].imsi != imsi
        invariant forall x :: x in subscribers ==> unchanged(x)
      {
        s := subscribers[k];
        if s.imsi == imsi {
          s.useCount := s.useCount + multiset{use};
          return s;
        }
        k := k + 1;
      }
      return null;
    }

    method SubscrFindOrCreate(imsi: Identity, use: SubscrUse) returns (s: SmlcSubscr)
      modifies this`subscribers, subscribers
      ensures s.imsi == imsi && s in subscribers
      ensures forall x :: x in old(subscribers) && x != s ==> unchanged(x)
      ensures SubscrTaken(s, use)
    {
      var found := SubscrFind(imsi, use);
      if found != null {
        return found;
      }
      s := new SmlcSubscr(imsi);
      subscribers := subscribers + [s];
      s.useCount := s.useCount + multiset{use};
    }

    /** s was listed and gained a use, or it is a new last element of the list with this only use. */
    twostate predicate SubscrTaken(new s: SmlcSubscr, use: SubscrUse)
      reads this, s
    {
      || (s in old(subscribers) && subscribers == old(subscribers)
          && s.useCount == old(s.useCount) + multiset{use} && s.freed == old(s.freed))
      || (fresh(s) && subscribers == old(subscribers) + [s] && s.useCount == multiset{use} && !s.freed
          && forall x :: x in old(subscribers) ==> x.imsi != s.imsi)
    }

    // ----- Connections: use counts and tearing down -----

    /** The connection holds its subscriber. */
    ghost predicate HoldsSubscr(c: LbConn)
      reads this, c, c.smlcSubscr
    {
      c.smlcSubscr != null ==>
        c.smlcSubscr in subscribers && !c.smlcSubscr.freed && UseConn in c.smlcSubscr.useCount
    }

    /** The last effects of a closed connection: it is off the list and freed, and its subscriber is released. */
    twostate predicate ConnGone(c: LbConn)
      reads this, c, c.smlcSubscr
    {
      && c.freed && lbConns == Unlink(old(lbConns), c)
      && c.smlcSubscr == old(c.smlcSubscr)
      && (if c.smlcSubscr == null then subscribers == old(subscribers)
          else SubscrDropped(c.smlcSubscr, UseConn))
    }

    /** One use is gone and nothing else has changed. */
    twostate predicate OnlyUseDropped(c: LbConn, use: ConnUse)
      reads this, c, c.smlcSubscr
    {
      && c.useCount == old(c.useCount) - multiset{use}
      && unchanged(c`lbPeer, c`closing, c`smlcSubscr, c`freed)
      && unchanged(this)
      && (c.smlcSubscr != null ==> unchanged(c.smlcSubscr))
    }

    function DisconnectOf(peer: LbPeer?, id: nat): seq<Output> {
      if peer == null then [] else [Disconnect(id, ByClose)]
    }

    method ConnPut(c: LbConn, use: ConnUse)
      requires c in lbConns && !c.freed && use in c.useCount
      requires |c.useCount| == 1 ==> c.smlcLocReq == null && (!c.closing ==> HoldsSubscr(c))
      modifies this`lbConns, this`subscribers, this`trace, c, c.smlcSubscr
      ensures old(c.closing || |c.useCount| > 1) ==> OnlyUseDropped(c, use) && unchanged(c`smlcLocReq)
      ensures !old(c.closing || |c.useCount| > 1) ==>
        ConnGone(c) && trace == old(trace) + DisconnectOf(old(c.lbPeer), c.sccpConnId)
      decreases if c.closing then 0 else 1, if c.smlcLocReq != null then 1 else 0, 2
    {
      c.useCount := c.useCount - multiset{use};
      ConnUseCallback(c);
    }

    method ConnUseCallback(c: LbConn)
      requires c in lbConns && !c.freed
      requires c.useCount == multiset{} ==> c.smlcLocReq == null && (!c.closing ==> HoldsSubscr(c))
      modifies this`lbConns, this`subscribers, this`trace, c, c.smlcSubscr
      ensures old(c.closing || c.useCount != multiset{}) ==>
        unchanged(this) && unchanged(c) && (c.smlcSubscr != null ==> unchanged(c.smlcSubscr))
      ensures !old(c.closing || c.useCount != multiset{}) ==>
        ConnGone(c) && trace == old(trace) + DisconnectOf(old(c.lbPeer), c.sccpConnId)
      decreases if c.closing then 0 else 1, if c.smlcLocReq != null then 1 else 0, 1
    {
      if |c.useCount| == 0 {
        ConnClose(c);
      }
    }

    /** A connection can be closed when nobody uses it, or only the location request that goes with it. */
    ghost predicate Closable(c: LbConn)
      reads this, c, c.smlcSubscr, c.smlcLocReq
    {
      && HoldsSubscr(c)
      && (if c.smlcLocReq == null then c.useCount == multiset{}
          else c.smlcLocReq.lbConn == c && !c.smlcLocReq.terminating && c.useCount == multiset{UseLocReq})
    }

    method ConnClose(c: LbConn)
      requires c in lbConns && !c.freed
      requires !c.closing ==> Closable(c)
      modifies this`lbConns, this`subscribers, this`trace, c, c.smlcSubscr, c.smlcLocReq
      ensures old(c.closing) ==>
        && unchanged(this) && unchanged(c) && (c.smlcSubscr != null ==> unchanged(c.smlcSubscr))
        && (c.smlcLocReq != null ==> unchanged(c.smlcLocReq))
      ensures !old(c.closing) ==>
        && ConnGone(c) && trace == old(trace) + DisconnectOf(old(c.lbPeer), c.sccpConnId)
        && (old(c.smlcLocReq) != null ==> old(c.smlcLocReq).terminating)
      decreases if c.closing then 0 else 1, if c.smlcLocReq != null then 1 else 0, 0
    {
      if c.closing {
        return;
      }
      ConnTakeLeave(c);
      ConnFinish(c);
    }

    /** The rest of closing. The termination of the request gives its use back, which finds the
        connection closing already. */
    method ConnFinish(c: LbConn)
      requires c in lbConns && !c.freed && c.closing && c.lbPeer == null && Closable(c)
      modifies this`lbConns, this`subscribers, this`trace, c, c.smlcSubscr, c.smlcLocReq
      ensures ConnGone(c) && trace == old(trace)
      ensures old(c.smlcLocReq) != null ==> old(c.smlcLocReq).terminating
      decreases if c.closing then 0 else 1, if c.smlcLocReq != null then 1 else 0, 5
    {
      if c.smlcLocReq != null {
        RequestTerminate(c.smlcLocReq);
      }
      ConnFree(c);
    }

    /** The first part of closing: from here on, closing again does nothing, and nothing more is sent. */
    method ConnTakeLeave(c: LbConn)
      requires !c.freed
      modifies this`trace, c`closing, c`lbPeer
      ensures c.closing && c.lbPeer == null && trace == old(trace) + DisconnectOf(old(c.lbPeer), c.sccpConnId)
    {
      c.closing := true;
      if c.lbPeer != null {
        trace := trace + [Disconnect(c.sccpConnId, ByClose)];
        c.lbPeer := null;
      }
    }

    /** The last part of closing. */
    method ConnFree(c: LbConn)
      requires c in lbConns && !c.freed && HoldsSubscr(c)
      modifies this`lbConns, this`subscribers, c`freed, c.smlcSubscr
      ensures ConnGone(c)
    {
      if c.smlcSubscr != null {
        SubscrPut(c.smlcSubscr, UseConn);
      }
      lbConns := Unlink(lbConns, c);
      c.freed := true;
    }

    /** Like closing, but nothing is sent. */
    method ConnDiscard(c: LbConn)
      requires c in lbConns && !c.freed && !c.closing && Closable(c)
      modifies this`lbConns, this`subscribers, this`trace, c, c.smlcSubscr, c.smlcLocReq
      ensures ConnGone(c) && trace == old(trace) + [Discarded(c.sccpConnId)]
    {
      trace := trace + [Discarded(c.sccpConnId)];
      c.lbPeer := null;
      ConnClose(c);
    }

    // ----- Location requests: termination -----

    /** The request belongs to a connection that can lose it. */
    ghost predicate Terminable(r: SmlcLocReq)
      reads this, r, r.lbConn, r.lbConn.smlcSubscr
    {
      var c := r.lbConn;
      && c in lbConns && !c.freed && c.smlcLocReq == r && UseLocReq in c.useCount
      && (|c.useCount| == 1 && !c.closing ==> HoldsSubscr(c))
    }

    /** The request is off its connection, which stays: others still use it or are closing it. */
    twostate predicate RequestDetached(r: SmlcLocReq, outs: seq<Output>)
      reads this, r, r.lbConn, r.lbConn.smlcSubscr
    {
      var c := r.lbConn;
      && r.terminating && c.smlcLocReq == null
      && c.useCount == old(c.useCount) - multiset{UseLocReq}
      && unchanged(c`lbPeer, c`closing, c`smlcSubscr, c`freed)
      && unchanged(this`lbConns, this`subscribers)
      && (c.smlcSubscr != null ==> unchanged(c.smlcSubscr))
      && trace == old(trace) + outs
    }

    /** The request has ended: its connection either lost only the request, or is closed altogether. */
    twostate predicate RequestEnded(r: SmlcLocReq, outs: seq<Output>)
      reads this, r, r.lbConn, r.lbConn.smlcSubscr
    {
      var c := r.lbConn;
      if old(c.closing || |c.useCount| > 1) then RequestDetached(r, outs)
      else r.terminating && ConnGone(c) && trace == old(trace) + outs + DisconnectOf(old(c.lbPeer), c.sccpConnId)
    }

    method RequestTerminate(r: SmlcLocReq)
      requires !r.terminating ==> Terminable(r)
      modifies this`lbConns, this`subscribers, this`trace, r, r.lbConn, r.lbConn.smlcSubscr
      ensures old(r.terminating) ==>
        && unchanged(this) && unchanged(r) && unchanged(r.lbConn)
        && (r.lbConn.smlcSubscr != null ==> unchanged(r.lbConn.smlcSubscr))
      ensures !old(r.terminating) ==> RequestEnded(r, [])
      ensures unchanged(r`deadline)
      decreases if r.lbConn.closing then 0 else 1, if r.lbConn.smlcLocReq != null then 1 else 0, 4
    {
      if r.terminating {
        return;
      }
      r.terminating := true;
      RequestCleanup(r);
    }

    method RequestCleanup(r: SmlcLocReq)
      requires r.terminating && Terminable(r)
      modifies this`lbConns, this`subscribers, this`trace, r.lbConn, r.lbConn.smlcSubscr
      ensures RequestEnded(r, [])
      decreases if r.lbConn.closing then 0 else 1, if r.lbConn.smlcLocReq != null then 1 else 0, 3
    {
      if r.lbConn.smlcLocReq == r {
        r.lbConn.smlcLocReq := null;
        ConnPut(r.lbConn, UseLocReq);
      }
    }

    // ----- Sending on a connection -----

    /** Zero exactly when the message was handed to SCCP: it could be encoded, the connection still has
        its peer, and the peer's state accepts connection-oriented data. */
    method ConnSend(c: LbConn, pdu: Pdu, env: Env) returns (rc: int)
      requires !c.freed
      modifies this`trace
      ensures rc == 0 <==> env.encodes(pdu) && c.lbPeer != null && c.lbPeer.state == Ready
      ensures trace == old(trace) + (if rc == 0 then [Data(c.sccpConnId, pdu)] else [])
    {
      if !env.encodes(pdu) {
        return -22;
      }
      if c.lbPeer == null {
        return -5;
      }
      if c.lbPeer.state != Ready {
        return -1;
      }
      trace := trace + [Data(c.sccpConnId, pdu)];
      return 0;
    }

    // ----- Location requests: the state machine -----

    /** The request can run: it is attached to an open connection of a READY peer. */
    ghost predicate Runnable(r: SmlcLocReq)
      reads this, r, r.lbConn, r.lbConn.smlcSubscr, r.lbConn.lbPeer
    {
      var c := r.lbConn;
      !r.terminating && Terminable(r) && !c.closing && c.lbPeer != null && c.lbPeer.state == Ready
    }

    /** The timing advance has been asked for, and nothing else happened to the request and its connection. */
    twostate predicate RequestAsked(r: SmlcLocReq, env: Env)
      reads this, r, r.lbConn, r.lbConn.smlcSubscr
    {
      && unchanged(r`terminating, r`taPresent, r`latestCellId)
      && unchanged(r.lbConn) && unchanged(this`lbConns, this`subscribers)
      && (r.lbConn.smlcSubscr != null ==> unchanged(r.lbConn.smlcSubscr))
      && trace == old(trace) + if env.encodes(TaRequest) then [Data(r.lbConn.sccpConnId, TaRequest)] else []
    }

    /** What entering a state makes the request answer, if it comes to an answer. */
    ghost function AnswerOnEnter(r: SmlcLocReq, st: ReqState, env: Env): Option<Pdu>
      requires st == ReqFailed ==> r.lcsCause.Some?
      reads r, cells
    {
      match st
      case ReqInit => None
      case ReqWaitTa =>
        (match TaInRequest(r.req)
         case Some(ta) => Some(Locate(env, cells.entries, r.latestCellId, ta))
         case None => None)
      case ReqGotTa =>
        Some(if r.taPresent then Locate(env, cells.entries, r.latestCellId, r.ta) else LocFailure(SystemFailure))
      case ReqFailed => Some(LocFailure(r.lcsCause.value))
    }

    /** The request has been answered and has ended, and its timer has stopped. */
    twostate predicate RequestAnswered(r: SmlcLocReq, pdu: Pdu, env: Env)
      reads this, r, r.lbConn, r.lbConn.smlcSubscr
    {
      RequestEnded(r, Transmit(env, r.lbConn.sccpConnId, pdu)) && r.deadline == None
    }

    /** Changing the state stops the old timer, starts the new one and runs the entry action, which may
        go on to further states. */
    method RequestStateChange(r: SmlcLocReq, st: ReqState, env: Env)
      requires Runnable(r) && MayEnter(r.state, st)
      requires st == ReqFailed ==> r.lcsCause.Some?
      modifies this`lbConns, this`subscribers, this`trace, r, r.lbConn, r.lbConn.smlcSubscr
      ensures var pdu := old(AnswerOnEnter(r, st, env));
              if pdu.Some? then RequestAnswered(r, pdu.value, env)
              else RequestAsked(r, env) && r.state == ReqWaitTa && r.deadline == Some(clock + T12)
      decreases 3 - Rank(st), 3
    {
      RequestEnter(r, st);
      RequestOnEnter(r, env);
    }

    method RequestEnter(r: SmlcLocReq, st: ReqState)
      modifies r`state, r`deadline
      ensures r.state == st && r.deadline == if st == ReqWaitTa then Some(clock + T12) else None
    {
      r.deadline := if st == ReqWaitTa then Some(clock + T12) else None;
      r.state := st;
    }

    method RequestOnEnter(r: SmlcLocReq, env: Env)
      requires Runnable(r) && r.state != ReqInit
      requires r.deadline == if r.state == ReqWaitTa then Some(clock + T12) else None
      requires r.state == ReqFailed ==> r.lcsCause.Some?
      modifies this`lbConns, this`subscribers, this`trace, r, r.lbConn, r.lbConn.smlcSubscr
      ensures var pdu := old(AnswerOnEnter(r, r.state, env));
              if pdu.Some? then RequestAnswered(r, pdu.value, env)
              else RequestAsked(r, env) && r.state == ReqWaitTa && r.deadline == Some(clock + T12)
      decreases 3 - Rank(r.state), 2
    {
      match r.state {
        case ReqWaitTa => WaitTaOnEnter(r, env);
        case ReqGotTa => GotTaOnEnter(r, env);
        case ReqFailed => FailedOnEnter(r, env);
      }
    }

    method RequestFail(r: SmlcLocReq, cause: Cause, env: Env)
      requires Runnable(r) && MayEnter(r.state, ReqFailed)
      modifies this`lbConns, this`subscribers, this`trace, r, r.lbConn, r.lbConn.smlcSubscr
      ensures RequestAnswered(r, LocFailure(cause), env)
      decreases 0, 4
    {
      r.lcsCause := Some(cause);
      RequestStateChange(r, ReqFailed, env);
    }

    method WaitTaOnEnter(r: SmlcLocReq, env: Env)
      requires Runnable(r) && r.state == ReqWaitTa
      modifies this`lbConns, this`subscribers, this`trace, r, r.lbConn, r.lbConn.smlcSubscr
      ensures var pdu := old(AnswerOnEnter(r, ReqWaitTa, env));
              if pdu.Some? then RequestAnswered(r, pdu.value, env) else RequestAsked(r, env) && unchanged(r)
      decreases 2, 0
    {
      if r.req.apdu.Some? && r.req.apdu.value.TaLayer3? {
        r.taPresent := true;
        r.ta := r.req.apdu.value.ta;
        RequestStateChange(r, ReqGotTa, env);
        return;
      }
      var _ := ConnSend(r.lbConn, TaRequest, env);
    }

    /** The position for the request's cell, or nothing when no entry matches it. */
    method CellLocationFromTa(cellId: CellId, ta: Uint8, env: Env) returns (location: Option<Gad>)
      ensures var k := Lookup(cells.entries, cellId);
              location == if k == |cells.entries| then None
                          else Some(Gad(cells.entries[k].lat, cells.entries[k].lon,
                                        env.quantise(TaToMetres(ta) * 1000)))
    {
      var k := cells.Find(cellId);
      if k == |cells.entries| {
        return None;
      }
      return Some(Gad(cells.entries[k].lat, cells.entries[k].lon, env.quantise(TaToMetres(ta) * 1000)));
    }

    method GotTaOnEnter(r: SmlcLocReq, env: Env)
      requires Runnable(r) && r.state == ReqGotTa && r.deadline == None
      modifies this`lbConns, this`subscribers, this`trace, r, r.lbConn, r.lbConn.smlcSubscr
      ensures RequestAnswered(r, old(AnswerOnEnter(r, ReqGotTa, env)).value, env)
      decreases 1, 1
    {
      if !r.taPresent {
        RequestFail(r, SystemFailure, env);
        return;
      }
      var location := CellLocationFromTa(r.latestCellId, r.ta, env);
      if location.None? {
        RequestFail(r, FacilityNotSupported, env);
        return;
      }
      if !env.gadEncodes(location.value) {
        RequestFail(r, FacilityNotSupported, env);
        return;
      }
      SendEstimate(r, location.value, env);
    }

    /** The last part of GOT_TA: an estimate that cannot be sent is a failure of the system. */
    method SendEstimate(r: SmlcLocReq, location: Gad, env: Env)
      requires Runnable(r) && r.state == ReqGotTa && r.deadline == None
      modifies this`lbConns, this`subscribers, this`trace, r, r.lbConn, r.lbConn.smlcSubscr
      ensures RequestAnswered(r, if env.encodes(LocEstimate(location)) then LocEstimate(location)
                                 else LocFailure(SystemFailure), env)
      decreases 1, 0
    {
      var rc := ConnSend(r.lbConn, LocEstimate(location), env);
      if rc != 0 {
        RequestFail(r, SystemFailure, env);
        return;
      }
      RequestTerminate(r);
    }

    method FailedOnEnter(r: SmlcLocReq, env: Env)
      requires Runnable(r) && r.state == ReqFailed && r.lcsCause.Some? && r.deadline == None
      modifies this`lbConns, this`subscribers, this`trace, r, r.lbConn, r.lbConn.smlcSubscr
      ensures RequestAnswered(r, LocFailure(old(r.lcsCause.value)), env)
      decreases 0, 0
    {
      var _ := ConnSend(r.lbConn, LocFailure(r.lcsCause.value), env);
      RequestTerminate(r);
    }

    /** T-12 has expired. The result asks the timer code to terminate the request, which has already
        happened by then. */
    method RequestTimeout(r: SmlcLocReq, env: Env)
      requires Runnable(r) && r.state == ReqWaitTa
      modifies this`lbConns, this`subscribers, this`trace, r, r.lbConn, r.lbConn.smlcSubscr
      ensures RequestAnswered(r, LocFailure(SystemFailure), env)
    {
      RequestFail(r, SystemFailure, env);
      RequestTerminate(r);
    }

    /** The timing advance and the serving cell have been reported. */
    method RequestTakeTa(r: SmlcLocReq, ta: Uint8, ci: Uint16, env: Env)
      requires Runnable(r) && r.state == ReqWaitTa
      modifies this`lbConns, this`subscribers, this`trace, r, r.lbConn, r.lbConn.smlcSubscr
      ensures RequestEnded(r, Transmit(env, r.lbConn.sccpConnId,
                                       Locate(env, cells.entries, UpdateCi(old(r.latestCellId), ToInt16(ci)), ta)))
    {
      r.taPresent := true;
      r.ta := ta;
      r.latestCellId := UpdateCi(r.latestCellId, ToInt16(ci));
      RequestStateChange(r, ReqGotTa, env);
    }

    method WaitTaAction(r: SmlcLocReq, ev: ReqEvent, env: Env)
      requires Runnable(r) && r.state == ReqWaitTa
      modifies this`lbConns, this`subscribers, this`trace, r, r.lbConn, r.lbConn.smlcSubscr
      ensures ev.RxAbort? ==> RequestEnded(r, [])
      ensures !ev.RxAbort? ==>
        RequestEnded(r, Transmit(env, r.lbConn.sccpConnId,
                                 Locate(env, cells.entries, UpdateCi(old(r.latestCellId), ToInt16(ev.ci)), ev.ta)))
    {
      match ev {
        case RxTaResponse(ta, ci) => RequestTakeTa(r, ta, ci, env);
        case RxBsslapReset(ta, ci) => RequestTakeTa(r, ta, ci, env);
        case RxAbort =>
          RequestTerminate(r);
      }
    }

    /** What a message did to a connection whose request waits. */
    twostate predicate Reacted(r: SmlcLocReq, reaction: Reaction, env: Env)
      reads this, r, r.lbConn, r.lbConn.smlcSubscr
    {
      match reaction
      case Ignore =>
        && unchanged(this) && unchanged(r) && unchanged(r.lbConn)
        && (r.lbConn.smlcSubscr != null ==> unchanged(r.lbConn.smlcSubscr))
      case Abandon => RequestEnded(r, [])
      case Answer(pdu) => RequestEnded(r, Transmit(env, r.lbConn.sccpConnId, pdu))
    }

    /** False when the message would be handed to a request that does not exist. */
    method RxConnOrientedInfo(r: SmlcLocReq?, apdu: Bsslap, env: Env) returns (ok: bool)
      requires r != null ==> Runnable(r) && r.state == ReqWaitTa
      modifies this`lbConns, this`subscribers, this`trace, r
      modifies if r == null then {} else {r.lbConn, r.lbConn.smlcSubscr}
      ensures ok <==> r != null || !NeedsRequest(ConnOrientedInfo(apdu))
      ensures r == null ==> unchanged(this)
      ensures r != null ==> Reacted(r, React(env, cells.entries, old(r.latestCellId), ConnOrientedInfo(apdu)), env)
    {
      match apdu {
        case TaResponse(ta, ci) =>
          if r == null { return false; }
          WaitTaAction(r, RxTaResponse(ta, ci), env);
        case BsslapReset(ta, ci) =>
          if r == null { return false; }
          WaitTaAction(r, RxBsslapReset(ta, ci), env);
        case BsslapAbort =>
          if r == null { return false; }
          RequestFail(r, RequestAborted, env);
        case BsslapReject =>
          if r == null { return false; }
          RequestFail(r, RequestAborted, env);
        case TaLayer3(_) =>
        case OtherBsslap =>
      }
      return true;
    }

    // ----- Location requests: start -----

    /** The first connection of the list with the given subscriber (or with none, when given none). */
    method ConnFindBySubscr(s: SmlcSubscr?, use: ConnUse) returns (c: LbConn?)
      modifies lbConns
      ensures c == null ==> forall x :: x in lbConns ==> x.smlcSubscr != s
      ensures c != null ==> exists k ::
        && 0 <= k < |lbConns| && c == lbConns[k] && c.smlcSubscr == s
        && forall j :: 0 <= j < k ==> lbConns[j].smlcSubscr != s
      ensures c != null ==>
        && c.useCount == old(c.useCount) + multiset{use}
        && unchanged(c`lbPeer, c`closing, c`smlcSubscr, c`smlcLocReq, c`freed)
      ensures forall x :: x in lbConns && x != c ==> unchanged(x)
    {
      var k := 0;
      while k < |lbConns|
        invariant k <= |lbConns|
        invariant forall j :: 0 <= j < k ==> lbConns[j].smlcSubscr != s
        invariant forall x :: x in lbConns ==> unchanged(x)
      {
        c := lbConns[k];
        if c.smlcSubscr == s {
          c.useCount := c.useCount + multiset{use};
          return c;
        }
        k := k + 1;
      }
      return null;
    }

    /** Every listed subscriber is in use, and none is listed twice. */
    ghost predicate SubscribersInUse()
      reads this, subscribers
    {
      NoDup(subscribers) && forall x :: x in subscribers ==> !x.freed && x.useCount != multiset{}
    }

    /** The connection has the subscriber of its request, or none if the request names no IMSI. */
    twostate predicate Subscribed(new c: LbConn, identity: Identity)
      reads this, c, c.smlcSubscr
    {
      if identity.Imsi? then c.smlcSubscr != null && c.smlcSubscr.imsi == identity && SubscrTaken(c.smlcSubscr, UseConn)
      else c.smlcSubscr == null && subscribers == old(subscribers)
    }

    lemma {:induction false} UnlinkLast(list: seq<SmlcSubscr>, x: SmlcSubscr)
      requires x !in list
      ensures Unlink(list + [x], x) == list
    {
      UnlinkAt(list + [x], |list|);
    }

    /** Give back a subscriber that was just taken: whether it was found or created, nothing remains. */
    method SubscrGiveBack(s: SmlcSubscr, ghost list: seq<SmlcSubscr>, ghost uses: multiset<SubscrUse>)
      requires s in subscribers && !s.freed && s.useCount == uses + multiset{UseStarting}
      requires if uses == multiset{} then s !in list && subscribers == list + [s] else subscribers == list
      modifies this`subscribers, s
      ensures subscribers == list && s.useCount == uses && (uses != multiset{} ==> !s.freed)
    {
      assert s.useCount - multiset{UseStarting} == uses;
      if uses == multiset{} {
        UnlinkLast(list, s);
      }
      SubscrPut(s, UseStarting);
    }

    /** The search for another connection of the same subscriber runs before this connection has its
        subscriber, so it looks for a connection without one and finds this connection, the first of
        the list. */
    method ConnFindOther(c: LbConn) returns (other: LbConn?)
      requires |lbConns| > 0 && lbConns[0] == c && c.smlcSubscr == null
      modifies lbConns
      ensures other == c
      ensures c.useCount == old(c.useCount) + multiset{UseStart}
      ensures unchanged(c`lbPeer, c`closing, c`smlcSubscr, c`smlcLocReq, c`freed)
      ensures forall x :: x in lbConns && x != c ==> unchanged(x)
    {
      assert c in lbConns;
      other := ConnFindBySubscr(c.smlcSubscr, UseStart);
      assert c.smlcSubscr == null;
    }

    method ConnSetSubscr(c: LbConn, s: SmlcSubscr, ghost uses: multiset<SubscrUse>)
      requires c.smlcSubscr == null && s in subscribers && !s.freed && s.useCount == uses + multiset{UseStarting}
      modifies this`subscribers, c`smlcSubscr, s
      ensures c.smlcSubscr == s && !s.freed && s.useCount == uses + multiset{UseConn}
      ensures subscribers == old(subscribers)
    {
      c.smlcSubscr := s;
      s.useCount := s.useCount + multiset{UseConn};
      assert s.useCount - multiset{UseStarting} == uses + multiset{UseConn};
      assert UseConn in uses + multiset{UseConn};
      SubscrPut(s, UseStarting);
    }

    /** A use beside others is given back: the connection stays. */
    method ConnPutSpare(c: LbConn, use: ConnUse)
      requires c in lbConns && !c.freed && use in c.useCount && |c.useCount| > 1
      modifies this`lbConns, this`subscribers, this`trace, c, c.smlcSubscr
      ensures OnlyUseDropped(c, use) && unchanged(c`smlcLocReq)
    {
      ConnPut(c, use);
    }

    /** No connection is ever closed for the sake of another one. */
    method ConnTakeSubscr(c: LbConn, s: SmlcSubscr, ghost uses: multiset<SubscrUse>)
      requires |lbConns| > 0 && lbConns[0] == c && !c.freed && c.useCount != multiset{}
      requires c.smlcSubscr == null && s in subscribers && !s.freed && s.useCount == uses + multiset{UseStarting}
      modifies this`lbConns, this`subscribers, this`trace, lbConns, s
      ensures c.smlcSubscr == s && unchanged(c`lbPeer, c`closing, c`smlcLocReq, c`useCount, c`freed)
      ensures s.useCount == uses + multiset{UseConn} && !s.freed
      ensures unchanged(this)
      ensures forall x :: x in old(lbConns) && x != c ==> unchanged(x)
    {
      var other := ConnFindOther(c);
      if other != null && other != c {
        assert false;
      }
      ConnSetSubscr(c, s, uses);
      assert c.useCount - multiset{UseStart} == old(c.useCount);
      if other != null {
        ConnPutSpare(other, UseStart);
      }
    }

    /** Attach the subscriber of a request to its connection; refused when the connection already has
        another one. */
    method ConnSubscribe(c: LbConn, identity: Identity) returns (ok: bool)
      requires identity.Imsi? && c in lbConns && !c.freed && c.useCount != multiset{}
      requires SubscribersInUse() && HoldsSubscr(c)
      requires if c.smlcSubscr == null then lbConns[0] == c else c.smlcSubscr.imsi != identity
      modifies this`lbConns, this`subscribers, this`trace, lbConns, subscribers
      ensures ok <==> old(c.smlcSubscr) == null
      ensures ok ==> Subscribed(c, identity)
      ensures !ok ==> unchanged(c) && unchanged(this) && forall x :: x in subscribers ==> unchanged(x`useCount, x`freed)
      ensures unchanged(c`lbPeer, c`closing, c`smlcLocReq, c`useCount, c`freed)
      ensures unchanged(this`lbConns, this`trace)
      ensures forall x :: x in old(lbConns) && x != c ==> unchanged(x)
      ensures ok ==> forall x :: x in old(subscribers) && x != c.smlcSubscr ==> unchanged(x)
    {
      var s := SubscrFindOrCreate(identity, UseStarting);
      ghost var uses := if s in old(subscribers) then old(s.useCount) else multiset{};
      assert s.useCount == uses + multiset{UseStarting} && !s.freed;
      if c.smlcSubscr != null && c.smlcSubscr != s {
        SubscrGiveBack(s, old(subscribers), uses);
        return false;
      }
      ConnTakeSubscr(c, s, uses);
      return true;
    }

    /** A request was accepted on a new connection: the connection has its subscriber, and the request
        either waits for the timing advance or, if the request carried it, has been answered and is gone. */
    twostate predicate Started(c: LbConn, req: LocReq, env: Env)
      reads this, c, c.smlcSubscr, c.smlcLocReq, cells
    {
      && Subscribed(c, req.identity)
      && Launched(c, req, env)
    }

    twostate predicate Launched(c: LbConn, req: LocReq, env: Env)
      reads this, c, c.smlcLocReq, cells
    {
      && unchanged(c`lbPeer, c`closing, c`freed) && unchanged(this`lbConns)
      && match TaInRequest(req)
         case Some(ta) =>
           && c.smlcLocReq == null && c.useCount == multiset{UseReady}
           && trace == old(trace) + Transmit(env, c.sccpConnId, Locate(env, cells.entries, req.cellId, ta))
         case None =>
           && c.smlcLocReq != null && fresh(c.smlcLocReq) && c.useCount == multiset{UseReady, UseLocReq}
           && Waiting(c.smlcLocReq, c, req.cellId, clock + T12)
           && trace == old(trace) + Transmit(env, c.sccpConnId, TaRequest)
    }

    /** The request is attached to c and waits for the timing advance. */
    ghost predicate Waiting(r: SmlcLocReq, c: LbConn, cellId: CellId, deadline: nat)
      reads r
    {
      && r.lbConn == c && !r.terminating && !r.taPresent
      && r.state == ReqWaitTa && r.deadline == Some(deadline) && r.latestCellId == cellId
    }

    method RequestAttach(c: LbConn, req: LocReq) returns (r: SmlcLocReq)
      modifies c`smlcLocReq, c`useCount
      ensures fresh(r) && c.smlcLocReq == r && c.useCount == old(c.useCount) + multiset{UseLocReq}
      ensures r.lbConn == c && r.req == req && r.state == ReqInit && !r.terminating && !r.taPresent
      ensures r.latestCellId == req.cellId
    {
      r := new SmlcLocReq(c, req);
      c.smlcLocReq := r;
      c.useCount := c.useCount + multiset{UseLocReq};
    }

    method RequestLaunch(c: LbConn, req: LocReq, env: Env)
      requires c in lbConns && !c.freed && !c.closing && c.lbPeer != null && c.lbPeer.state == Ready
      requires c.smlcLocReq == null && c.useCount == multiset{UseReady} && HoldsSubscr(c)
      modifies this`lbConns, this`subscribers, this`trace, c, c.smlcSubscr
      ensures Launched(c, req, env)
      ensures unchanged(c`smlcSubscr, this`subscribers) && (c.smlcSubscr != null ==> unchanged(c.smlcSubscr))
    {
      var r := RequestAttach(c, req);
      RequestStateChange(r, ReqWaitTa, env);
    }

    method RequestStart(c: LbConn, req: LocReq, env: Env)
      requires c in lbConns && !c.freed && !c.closing && c.lbPeer != null && c.lbPeer.state == Ready
      requires SubscribersInUse() && HoldsSubscr(c)
      requires c.smlcLocReq == null ==> c.useCount == multiset{UseReady} && (c.smlcSubscr == null ==> lbConns[0] == c)
      modifies this`lbConns, this`subscribers, this`trace, lbConns, subscribers
      ensures old(c.smlcLocReq) != null ==>
        && unchanged(this) && unchanged(c) && (c.smlcSubscr != null ==> unchanged(c.smlcSubscr))
        && forall x :: x in old(subscribers) ==> unchanged(x)
      ensures old(c.smlcLocReq == null && c.smlcSubscr != null && req.identity.Imsi?
                  && c.smlcSubscr.imsi != req.identity) ==>
        unchanged(this) && unchanged(c) && (forall x :: x in subscribers ==> unchanged(x`useCount, x`freed))
      ensures old(c.smlcLocReq == null && c.smlcSubscr == null) ==> Started(c, req, env)
      ensures old(c.smlcLocReq == null && c.smlcSubscr != null
                  && (req.identity.Imsi? ==> c.smlcSubscr.imsi == req.identity)) ==>
        && Launched(c, req, env) && unchanged(c`smlcSubscr, this`subscribers) && unchanged(c.smlcSubscr)
        && forall x :: x in old(subscribers) && x != c.smlcSubscr ==> unchanged(x)
      ensures old(c.smlcLocReq == null && c.smlcSubscr == null) ==>
        forall x :: x in old(subscribers) && x != c.smlcSubscr ==> unchanged(x)
      ensures forall x :: x in old(lbConns) && x != c ==> unchanged(x)
    {
      if c.smlcLocReq != null {
        return;
      }
      if req.identity.Imsi? && (c.smlcSubscr == null || c.smlcSubscr.imsi != req.identity) {
        var ok := ConnSubscribe(c, req.identity);
        if !ok {
          return;
        }
      }
      RequestLaunch(c, req, env);
    }

    /** A message other than a request. False when it needs a request and there is none. */
    method RequestRx(c: LbConn, msg: CoMsg, env: Env) returns (ok: bool)
      requires !msg.PerformLocReq? && c in lbConns
      requires c.smlcLocReq != null ==>
        c.smlcLocReq.lbConn == c && Runnable(c.smlcLocReq) && c.smlcLocReq.state == ReqWaitTa
      modifies this`lbConns, this`subscribers, this`trace, c, c.smlcSubscr, c.smlcLocReq
      ensures ok <==> old(c.smlcLocReq) != null || !NeedsRequest(msg)
      ensures old(c.smlcLocReq) == null ==> unchanged(this) && unchanged(c)
      ensures old(c.smlcLocReq) != null ==>
        Reacted(old(c.smlcLocReq), React(env, cells.entries, old(c.smlcLocReq.latestCellId), msg), env)
    {
      match msg {
        case PerformLocAbort =>
          if c.smlcLocReq == null { return false; }
          WaitTaAction(c.smlcLocReq, RxAbort, env);
        case ConnOrientedInfo(apdu) =>
          ok := RxConnOrientedInfo(c.smlcLocReq, apdu, env);
          return;
        case UnsupportedBssmap =>
        case OtherDiscriminator =>
        case Undecodable =>
      }
      return true;
    }

    twostate predicate OtherConnsKept(cs: seq<LbConn>, new c: LbConn)
      reads cs
    {
      forall x :: x in cs && x != c ==> unchanged(x)
    }

    twostate predicate OtherSubscrsKept(list: seq<SmlcSubscr>, new s: SmlcSubscr?)
      reads list
    {
      forall x :: x in list && x != s ==> unchanged(x)
    }

    /** A Perform Location Request as it arrives: a second one on the same connection is ignored. */
    method RequestStartRx(c: LbConn, req: LocReq, env: Env)
      requires c in lbConns && !c.freed && !c.closing && c.lbPeer != null && c.lbPeer.state == Ready
      requires SubscribersInUse() && HoldsSubscr(c)
      requires c.smlcLocReq == null ==> c.useCount == multiset{UseReady} && c.smlcSubscr == null && lbConns[0] == c
      modifies this`lbConns, this`subscribers, this`trace, lbConns, subscribers
      ensures old(c.smlcLocReq) != null ==>
        unchanged(this) && unchanged(c) && (c.smlcSubscr != null ==> unchanged(c.smlcSubscr))
      ensures old(c.smlcLocReq) == null ==> Started(c, req, env)
      ensures OtherConnsKept(old(lbConns), c) && OtherSubscrsKept(old(subscribers), c.smlcSubscr)
    {
      RequestStart(c, req, env);
    }

    /** A message received on a connection. False when it needs a request and there is none: the
        program would stop there. */
    method ConnRx(c: LbConn, msg: CoMsg, env: Env) returns (ok: bool)
      requires c in lbConns && !c.freed && !c.closing && c.lbPeer != null && c.lbPeer.state == Ready
      requires SubscribersInUse() && HoldsSubscr(c)
      requires c.smlcLocReq == null ==> c.useCount == multiset{UseReady} && c.smlcSubscr == null && lbConns[0] == c
      requires c.smlcLocReq != null ==>
        c.smlcLocReq.lbConn == c && Runnable(c.smlcLocReq) && c.smlcLocReq.state == ReqWaitTa
      modifies this`lbConns, this`subscribers, this`trace, lbConns, subscribers, c.smlcLocReq
      ensures ok <==> old(c.smlcLocReq) != null || !NeedsRequest(msg)
      ensures old(c.smlcLocReq) != null ==>
        Reacted(old(c.smlcLocReq), React(env, cells.entries, old(c.smlcLocReq.latestCellId), msg), env)
      ensures old(c.smlcLocReq) == null && msg.PerformLocReq? ==> Started(c, msg.req, env)
      ensures old(c.smlcLocReq) == null && !msg.PerformLocReq? ==> unchanged(this) && unchanged(c)
      ensures OtherConnsKept(old(lbConns), c) && OtherSubscrsKept(old(subscribers), c.smlcSubscr)
    {
      match msg {
        case PerformLocReq(req) =>
          RequestStartRx(c, req, env);
          return true;
        case _ =>
          ok := RequestRx(c, msg, env);
      }
    }

    // ----- Closing one connection between two inputs -----

    lemma {:induction false} ListsDistinct()
      requires Valid() && !stopped
      ensures NoDup(lbConns) && NoDup(lbPeers) && SubscribersInUse()
    {
      forall i, j | 0 <= i < j < |lbConns| ensures lbConns[i] != lbConns[j] {
        assert ConnOk(lbConns[i], model.conns[i]) && ConnOk(lbConns[j], model.conns[j]);
      }
      forall i, j | 0 <= i < j < |lbPeers| ensures lbPeers[i] != lbPeers[j] {
        assert PeerOk(lbPeers[i], model.peers[i]) && PeerOk(lbPeers[j], model.peers[j]);
      }
      forall x | x in subscribers ensures !x.freed && x.useCount != multiset{} {
        assert SubscrOk(x);
        assert UseConn in x.useCount;
      }
    }

    lemma {:induction false} PeerOf(k: nat)
      requires Valid() && !stopped && k < |lbConns|
      ensures ConnOk(lbConns[k], model.conns[k])
      ensures lbConns[k].lbPeer.state == Ready
      ensures Runnable(lbConns[k].smlcLocReq) && Closable(lbConns[k])
    {
      var c := lbConns[k];
      assert ConnOk(c, model.conns[k]) && ConnInv(model.clock, model.peers, model.conns[k]);
      var i :| 0 <= i < |lbPeers| && lbPeers[i] == c.lbPeer;
      assert PeerOk(lbPeers[i], model.peers[i]);
      PeerAt(model.peers, i);
      if c.smlcSubscr != null {
        assert SubscrOk(c.smlcSubscr);
        assert UseConn in c.smlcSubscr.useCount;
      }
    }

    lemma {:induction false} OneUseLess(n: nat)
      requires n > 0
      ensures ConnUses(n) - multiset{UseConn} == ConnUses(n - 1)
      ensures ConnUses(n - 1) == multiset{} <==> n == 1
    {
      assert n > 1 ==> UseConn in ConnUses(n - 1);
    }

    lemma {:induction false} OneUseMore(n: nat)
      ensures ConnUses(n) + multiset{UseConn} == ConnUses(n + 1)
    {
    }

    /** The other subscribers are used as often as before. */
    lemma {:induction false} OtherCounts(ms: seq<Conn>, k: nat, list: seq<SmlcSubscr>, s: SmlcSubscr?, x: SmlcSubscr)
      requires k < |ms| && DistinctImsis(list) && IsSubscrOf(s, ms[k].identity, list)
      requires x in list && x != s && x.imsi.Imsi?
      ensures CountOf(ms[..k] + ms[k + 1..], x.imsi) == CountOf(ms, x.imsi)
    {
      CountWithout(ms, k, x.imsi);
      if s != null {
        UnlinkSubscr(list, s);
      }
    }

    /** The subscriber list still fits the connections after one of them is gone, and the subscribers
        of the others are still listed. */
    twostate lemma {:induction false} SubscribersOkAfterClose(new k: nat, s: SmlcSubscr?)
      requires old(SubscribersOk()) && k < |old(model.conns)| && unchanged(this`repr)
      requires IsSubscrOf(s, old(model.conns)[k].identity, old(subscribers))
      requires if s == null then subscribers == old(subscribers) else SubscrDropped(s, UseConn)
      requires forall x :: x in old(subscribers) && x != s ==> unchanged(x)
      requires model.conns == old(model.conns)[..k] + old(model.conns)[k + 1..]
      ensures SubscribersOk()
      ensures forall x :: x in old(subscribers) && CountOf(model.conns, x.imsi) > 0 ==> x in subscribers
    {
      var list, ms := old(subscribers), old(model.conns);
      forall x | x in list && x != s ensures SubscrOk(x) {
        assert old(SubscrOk(x));
        OtherCounts(ms, k, list, s, x);
      }
      if s != null {
        assert old(SubscrOk(s));
        CountWithout(ms, k, s.imsi);
        OneUseLess(CountOf(ms, s.imsi));
        UnlinkSubscr(list, s);
      }
    }

    /** Every object in use except the given ones is as it was. */
    twostate predicate Untouched(new objs: set<object?>, o: object)
      reads o
    {
      o in objs || unchanged(o)
    }

    twostate lemma {:induction false} ConnsOkAfterClose(new k: nat, objs: set<object?>)
      requires old(ConnsOk()) && k < |old(lbConns)| && NoDup(old(lbConns))
      requires unchanged(this`repr, this`lbPeers)
      requires objs == {this, old(lbConns[k]), old(lbConns[k].smlcSubscr), old(lbConns[k].smlcLocReq)}
      requires forall o :: o in old(repr) ==> Untouched(objs, o)
      requires lbConns == Unlink(old(lbConns), old(lbConns[k]))
      requires forall x :: x in old(subscribers) && CountOf(model.conns, x.imsi) > 0 ==> x in subscribers
      requires model.conns == old(model.conns)[..k] + old(model.conns)[k + 1..]
      ensures ConnsOk()
    {
      var cs, ms := old(lbConns), old(model.conns);
      UnlinkAt(cs, k);
      forall j | 0 <= j < |lbConns| ensures ConnOk(lbConns[j], model.conns[j]) {
        var i := if j < k then j else j + 1;
        assert lbConns[j] == cs[i] && model.conns[j] == ms[i];
        CountPositive(model.conns, j);
        assert old(ConnOk(cs[i], ms[i]));
        ConnOkAfterClose(k, i, objs);
      }
    }

    /** Another connection than the closed one still fits, as its subscriber is still listed. */
    twostate lemma {:induction false} ConnOkAfterClose(new k: nat, new i: nat, new objs: set<object?>)
      requires old(ConnsOk()) && k < |old(lbConns)| && NoDup(old(lbConns)) && i < |old(lbConns)| && i != k
      requires unchanged(this`repr, this`lbPeers)
      requires objs == {this, old(lbConns[k]), old(lbConns[k].smlcSubscr), old(lbConns[k].smlcLocReq)}
      requires forall o :: o in old(repr) ==> Untouched(objs, o)
      requires old(lbConns[i].smlcSubscr) in old(subscribers) ==> old(lbConns[i].smlcSubscr) in subscribers
      ensures ConnOk(old(lbConns)[i], old(model.conns)[i])
    {
      var cs, ms := old(lbConns), old(model.conns);
      assert old(ConnOk(cs[i], ms[i])) && old(ConnOk(cs[k], ms[k]));
      assert Untouched(objs, cs[i]) && Untouched(objs, old(cs[i].smlcLocReq));
    }

    twostate lemma {:induction false} PeersOkWhenKept(new objs: set<object?>)
      requires old(PeersOk()) && old(repr) <= repr && unchanged(this`lbPeers) && model.peers == old(model.peers)
      requires forall p: LbPeer :: p !in objs
      requires forall o :: o in old(repr) ==> Untouched(objs, o)
      ensures PeersOk()
    {
      forall k | 0 <= k < |lbPeers| ensures PeerOk(lbPeers[k], model.peers[k]) {
        assert old(PeerOk(lbPeers[k], model.peers[k]));
        assert Untouched(objs, lbPeers[k]);
      }
    }

    twostate lemma {:induction false} OtherSubscribersUntouched(new objs: set<object?>, s: SmlcSubscr?)
      requires old(SubscribersOk()) && forall x: SmlcSubscr :: x in objs ==> x == s
      requires forall o :: o in old(repr) ==> Untouched(objs, o)
      ensures forall x :: x in old(subscribers) && x != s ==> unchanged(x)
    {
      forall x | x in old(subscribers) && x != s ensures unchanged(x) {
        assert old(SubscrOk(x));
        assert Untouched(objs, x);
      }
    }

    twostate lemma {:induction false} ListsOkAfterClose(new k: nat, objs: set<object?>)
      requires old(ConnsOk()) && old(SubscribersOk()) && k < |old(lbConns)| && NoDup(old(lbConns))
      requires objs == {this, old(lbConns[k]), old(lbConns[k].smlcSubscr), old(lbConns[k].smlcLocReq)}
      requires forall o :: o in old(repr) ==> Untouched(objs, o)
      requires ConnGone(old(lbConns[k]))
      requires unchanged(this`repr, this`lbPeers)
      requires model.conns == old(model).conns[..k] + old(model).conns[k + 1..]
      ensures SubscribersOk() && ConnsOk()
    {
      var c := old(lbConns[k]);
      assert old(ConnOk(lbConns[k], model.conns[k]));
      OtherSubscribersUntouched(objs, c.smlcSubscr);
      SubscribersOkAfterClose(k, c.smlcSubscr);
      ConnsOkAfterClose(k, objs);
    }

    twostate lemma {:induction false} CoupledAfterClose(new k: nat, objs: set<object?>)
      requires old(Coupled()) && k < |old(lbConns)| && NoDup(old(lbConns)) && old(cells in repr)
      requires objs == {this, old(lbConns[k]), old(lbConns[k].smlcSubscr), old(lbConns[k].smlcLocReq)}
      requires forall o :: o in old(repr) ==> Untouched(objs, o)
      requires ConnGone(old(lbConns[k]))
      requires unchanged(this`repr, this`lbPeers, this`inCells, this`clock)
      requires model == old(model).(conns := old(model).conns[..k] + old(model).conns[k + 1..], trace := trace)
      ensures Coupled()
    {
      ListsOkAfterClose(k, objs);
      PeersOkWhenKept(objs);
      assert Untouched(objs, cells);
    }

    /** Everything still fits after the k-th connection is closed or discarded. */
    twostate lemma {:induction false} ValidAfterClose(new k: nat, objs: set<object?>)
      requires old(Valid()) && !old(stopped) && k < |old(lbConns)| && NoDup(old(lbConns))
      requires objs == {this, old(lbConns[k]), old(lbConns[k].smlcSubscr), old(lbConns[k].smlcLocReq)}
      requires forall o :: o in old(repr) ==> Untouched(objs, o)
      requires ConnGone(old(lbConns[k]))
      requires unchanged(this`repr, this`lbPeers, this`inCells, this`clock, this`nextConnId, this`stopped)
      requires model == old(model).(conns := old(model).conns[..k] + old(model).conns[k + 1..], trace := trace)
      ensures Valid()
    {
      CoupledAfterClose(k, objs);
      CloseInv(old(model), k, []);
    }

    // ----- Handling inputs on connections -----

    /** The effect of a request ending on a connection that nobody else uses. */
    twostate lemma {:induction false} ValidAfterEnd(
        new k: nat, new r: SmlcLocReq, objs: set<object?>, new outs: seq<Output>)
      requires old(Valid()) && !old(stopped) && k < |old(lbConns)| && NoDup(old(lbConns))
      requires r == old(lbConns[k].smlcLocReq) && r.lbConn == old(lbConns[k])
      requires old(lbConns[k].useCount) == multiset{UseLocReq}
      requires objs == {this, old(lbConns[k]), old(lbConns[k].smlcSubscr), old(lbConns[k].smlcLocReq)}
      requires forall o :: o in old(repr) ==> Untouched(objs, o)
      requires RequestEnded(r, outs)
      requires unchanged(this`repr, this`lbPeers, this`inCells, this`clock, this`nextConnId, this`stopped)
      requires model == Close(old(model), k, outs)
      ensures Valid()
    {
      assert old(ConnOk(lbConns[k], model.conns[k]));
      assert old(trace) + outs + [Disconnect(old(model).conns[k].id, ByClose)]
          == old(trace) + (outs + [Disconnect(old(model).conns[k].id, ByClose)]);
      ValidAfterClose(k, objs);
    }

    /** A message on a connection whose request waits: only the connection, its request and its
        subscriber change. */
    method ConnRxWaiting(c: LbConn, msg: CoMsg, env: Env,
                         ghost objs: set<object?>, ghost all: set<object>, ghost next: Sys)
      requires c in lbConns && !c.freed && c.smlcLocReq != null && c.smlcLocReq.lbConn == c
      requires Runnable(c.smlcLocReq) && c.smlcLocReq.state == ReqWaitTa
      requires SubscribersInUse() && HoldsSubscr(c) && c.useCount == multiset{UseLocReq}
      requires objs == {this, c, c.smlcSubscr, c.smlcLocReq}
      requires React(env, cells.entries, c.smlcLocReq.latestCellId, msg).Ignore? ==> next == model
      modifies this`lbConns, this`subscribers, this`trace, this`model, lbConns, subscribers, c.smlcLocReq
      ensures Reacted(old(c.smlcLocReq), React(env, cells.entries, old(c.smlcLocReq.latestCellId), msg), env)
      ensures forall o :: o in all ==> Untouched(objs, o)
      ensures model == next
    {
      ghost var reaction := React(env, cells.entries, c.smlcLocReq.latestCellId, msg);
      var ok := ConnRx(c, msg, env);
      assert ok;
      if !reaction.Ignore? {
        model := next;
      }
      forall o | o in all ensures Untouched(objs, o) {
        assert o is LbConn && o as LbConn in old(lbConns) && o != c ==> unchanged(o as LbConn);
        assert o is SmlcSubscr && o as SmlcSubscr in old(subscribers) && o != c.smlcSubscr ==>
            unchanged(o as SmlcSubscr);
      }
    }

    method ConnTimeoutWaiting(r: SmlcLocReq, env: Env,
                              ghost objs: set<object?>, ghost all: set<object>, ghost next: Sys)
      requires Runnable(r) && r.state == ReqWaitTa && objs == {this, r.lbConn, r.lbConn.smlcSubscr, r}
      modifies this`lbConns, this`subscribers, this`trace, this`model, r, r.lbConn, r.lbConn.smlcSubscr
      ensures RequestEnded(r, Transmit(env, r.lbConn.sccpConnId, LocFailure(SystemFailure)))
      ensures forall o :: o in all ==> Untouched(objs, o)
      ensures model == next
    {
      RequestTimeout(r, env);
      model := next;
      forall o | o in all ensures Untouched(objs, o) {
      }
    }

    lemma {:induction false} ListsInUse()
      requires Valid() && !stopped
      ensures forall c :: c in lbConns ==> c in repr
      ensures forall p :: p in lbPeers ==> p in repr
      ensures forall s :: s in subscribers ==> s in repr
    {
      forall c | c in lbConns ensures c in repr {
        var k :| 0 <= k < |lbConns| && lbConns[k] == c;
        assert ConnOk(c, model.conns[k]);
      }
      forall p | p in lbPeers ensures p in repr {
        var k :| 0 <= k < |lbPeers| && lbPeers[k] == p;
        assert PeerOk(p, model.peers[k]);
      }
      forall s | s in subscribers ensures s in repr {
        assert SubscrOk(s);
      }
    }

    /** What a timer of the k-th connection relies on. */
    lemma {:induction false} ConnFits(k: nat)
      requires Valid() && !stopped && k < |lbConns|
      ensures var c := lbConns[k];
        && c in lbConns && c in repr && !c.freed && c.smlcLocReq != null && c.smlcLocReq in repr
        && (c.smlcSubscr != null ==> c.smlcSubscr in repr)
        && c.smlcLocReq.lbConn == c && Runnable(c.smlcLocReq) && c.smlcLocReq.state == ReqWaitTa
        && c.useCount == multiset{UseLocReq} && HoldsSubscr(c)
        && c.smlcLocReq.latestCellId == model.conns[k].cellId && cells.entries == model.config.table
      ensures NoDup(lbConns)
    {
      PeerOf(k);
      ListsDistinct();
      ListsInUse();
    }

    /** What a message on the k-th connection relies on besides. */
    lemma {:induction false} ListsReady()
      requires Valid() && !stopped
      ensures SubscribersInUse()
      ensures forall c :: c in lbConns ==> c in repr
      ensures forall s :: s in subscribers ==> s in repr
    {
      ListsDistinct();
      ListsInUse();
    }

    /** A message on the k-th connection. */
    method ConnUpCo(c: LbConn, msg: CoMsg, env: Env, ghost k: nat)
      requires Valid() && !stopped && k < |lbConns| && c == lbConns[k]
      modifies this, repr
      ensures Valid() && repr == old(repr)
      ensures model == Conclude(old(model), k,
                                React(env, old(model).config.table, old(model).conns[k].cellId, msg), env)
    {
      ConnFits(k);
      ListsReady();
      ghost var reaction := React(env, model.config.table, model.conns[k].cellId, msg);
      ConnUpCoTowards(c, msg, env, k, reaction, Conclude(model, k, reaction, env));
    }

    /** The same, towards the state that the reaction leads to. */
    method ConnUpCoTowards(c: LbConn, msg: CoMsg, env: Env, ghost k: nat, ghost reaction: Reaction, ghost next: Sys)
      requires Valid() && !stopped && k < |lbConns| && c == lbConns[k] && NoDup(lbConns)
      requires !c.freed && c.smlcLocReq != null && c.smlcLocReq.lbConn == c
      requires c in repr && c.smlcLocReq in repr && (c.smlcSubscr != null ==> c.smlcSubscr in repr)
      requires Runnable(c.smlcLocReq) && c.smlcLocReq.state == ReqWaitTa
      requires SubscribersInUse() && HoldsSubscr(c) && c.useCount == multiset{UseLocReq}
      requires forall c :: c in lbConns ==> c in repr
      requires forall s :: s in subscribers ==> s in repr
      requires reaction == React(env, cells.entries, c.smlcLocReq.latestCellId, msg)
      requires next == Conclude(model, k, reaction, env)
      modifies this, repr
      ensures Valid() && repr == old(repr) && model == next
    {
      ghost var r := c.smlcLocReq;
      ghost var objs: set<object?> := {this, c, c.smlcSubscr, r};
      ConnRxWaiting(c, msg, env, objs, repr, next);
      assert Reacted(r, reaction, env);
      assert old(lbConns[k]) == c && old(lbConns[k].smlcLocReq) == r && r.lbConn == c;
      ValidAfterReaction(k, r, objs, reaction, env);
    }

    twostate lemma {:induction false} ValidWhenUnchanged()
      requires old(Valid()) && unchanged(this) && forall o :: o in old(repr) ==> unchanged(o)
      ensures Valid()
    {
    }

    twostate lemma {:induction false} ValidAfterReaction(
        new k: nat, new r: SmlcLocReq, objs: set<object?>, new reaction: Reaction, new env: Env)
      requires old(Valid()) && !old(stopped) && k < |old(lbConns)| && NoDup(old(lbConns))
      requires r == old(lbConns[k].smlcLocReq) && r.lbConn == old(lbConns[k])
      requires old(lbConns[k].useCount) == multiset{UseLocReq}
      requires objs == {this, old(lbConns[k]), old(lbConns[k].smlcSubscr), old(lbConns[k].smlcLocReq)}
      requires forall o :: o in old(repr) ==> Untouched(objs, o)
      requires Reacted(r, reaction, env)
      requires unchanged(this`repr, this`lbPeers, this`inCells, this`clock, this`nextConnId, this`stopped)
      requires model == Conclude(old(model), k, reaction, env)
      ensures Valid()
    {
      match reaction {
        case Ignore =>
          forall o | o in old(repr) ensures unchanged(o) {
            assert Untouched(objs, o);
          }
          ValidWhenUnchanged();
        case Abandon => ValidAfterEnd(k, r, objs, []);
        case Answer(pdu) => ValidAfterEnd(k, r, objs, Transmit(env, r.lbConn.sccpConnId, pdu));
      }
    }

    /** T-12 of the k-th connection has expired. */
    method ConnTimeout(c: LbConn, env: Env, ghost k: nat)
      requires Valid() && !stopped && k < |lbConns| && c == lbConns[k]
      modifies this, repr
      ensures Valid() && repr == old(repr)
      ensures model == Conclude(old(model), k, Answer(LocFailure(SystemFailure)), env)
    {
      ConnFits(k);
      var r := c.smlcLocReq;
      ghost var objs: set<object?> := {this, c, c.smlcSubscr, r};
      ConnTimeoutWaiting(r, env, objs, repr, Conclude(model, k, Answer(LocFailure(SystemFailure)), env));
      ValidAfterEnd(k, r, objs, Transmit(env, c.sccpConnId, LocFailure(SystemFailure)));
    }

    // ----- New connections -----

    method ConnAlloc(p: LbPeer, id: nat) returns (c: LbConn)
      modifies this`lbConns, this`trace
      ensures fresh(c) && lbConns == [c] + old(lbConns) && trace == old(trace) + [Opened(id)]
      ensures c.lbPeer == p && c.sccpConnId == id && !c.closing && !c.freed && c.useCount == multiset{UseReady}
      ensures c.smlcSubscr == null && c.smlcLocReq == null
    {
      c := new LbConn(p, id);
      lbConns := [c] + lbConns;
      trace := trace + [Opened(id)];
      c.useCount := c.useCount + multiset{UseReady};
    }

    /** s is listed with one use for a connection on top of the given ones; without those, it is the
        last of the list and new to it. */
    ghost predicate TakenOnTop(s: SmlcSubscr?, list: seq<SmlcSubscr>, uses: multiset<SubscrUse>)
      reads this, s
    {
      if s == null then subscribers == list
      else
        && s in subscribers && !s.freed && s.useCount == uses + multiset{UseConn}
        && (if uses == multiset{} then subscribers == list + [s] && forall x :: x in list ==> x.imsi != s.imsi
            else s in list && subscribers == list)
    }

    /** The use of the newest connection by its first message is given back. Unless a request waits on
        it, the connection is closed, and so is all that came with it: the lists are as before. */
    method ConnPutNewest(c: LbConn, ghost list: seq<SmlcSubscr>, ghost uses: multiset<SubscrUse>)
      requires |lbConns| > 0 && lbConns[0] == c && !c.freed && !c.closing && c.lbPeer != null
      requires c.useCount == (if c.smlcLocReq == null then multiset{UseReady} else multiset{UseReady, UseLocReq})
      requires c.smlcLocReq == null ==> TakenOnTop(c.smlcSubscr, list, uses)
      modifies this`lbConns, this`subscribers, this`trace, c, c.smlcSubscr
      ensures old(c.smlcLocReq) != null ==> OnlyUseDropped(c, UseReady) && unchanged(c`smlcLocReq)
      ensures old(c.smlcLocReq) == null ==>
        && c.freed && lbConns == old(lbConns)[1..] && subscribers == list && c.smlcSubscr == old(c.smlcSubscr)
        && (c.smlcSubscr != null ==> c.smlcSubscr.useCount == uses && (uses != multiset{} ==> !c.smlcSubscr.freed))
        && trace == old(trace) + [Disconnect(c.sccpConnId, ByClose)]
    {
      if c.smlcLocReq == null && c.smlcSubscr != null {
        assert c.smlcSubscr.useCount - multiset{UseConn} == uses;
        if uses == multiset{} {
          UnlinkLast(list, c.smlcSubscr);
        }
      }
      ConnPut(c, UseReady);
    }

    /** Create the connection and read its first message. */
    method ConnReadFirst(p: LbPeer, id: nat, msg: CoMsg, env: Env, ghost all: set<object>)
      returns (ok: bool, c: LbConn, ghost uses: multiset<SubscrUse>)
      requires p.state == Ready && SubscribersInUse()
      modifies this`lbConns, this`subscribers, this`trace, lbConns, subscribers
      ensures fresh(c) && c.sccpConnId == id && lbConns == [c] + old(lbConns)
      ensures c.lbPeer == p && !c.closing && !c.freed
      ensures ok <==> !NeedsRequest(msg)
      ensures trace == old(trace) + [Opened(id)] + FirstOutputs(id, msg, env, cells.entries)
      ensures StaysOpen(msg) ==>
        && c.useCount == multiset{UseReady, UseLocReq} && IsSubscrOf(c.smlcSubscr, msg.req.identity, subscribers)
        && c.smlcLocReq != null && fresh(c.smlcLocReq) && Waiting(c.smlcLocReq, c, msg.req.cellId, clock + T12)
      ensures !StaysOpen(msg) ==> c.useCount == multiset{UseReady} && c.smlcLocReq == null
      ensures TakenOnTop(c.smlcSubscr, old(subscribers), uses)
      ensures TakenFrom(c.smlcSubscr, uses)
      ensures forall o :: o in all ==> Untouched({this, c.smlcSubscr}, o)
    {
      c := ConnAlloc(p, id);
      assert forall x :: x in old(lbConns) ==> x in lbConns && x != c;
      ok := ConnRx(c, msg, env);
      var s := c.smlcSubscr;
      uses := if s != null && s in old(subscribers) then old(s.useCount) else multiset{};
      forall o | o in all ensures Untouched({this, s}, o) {
        assert o is LbConn && o as LbConn in old(lbConns) ==> unchanged(o as LbConn);
        assert o is SmlcSubscr && o as SmlcSubscr in old(subscribers) && o != s ==> unchanged(o as SmlcSubscr);
      }
    }

    /** The given uses are those that s had before. */
    twostate predicate TakenFrom(new s: SmlcSubscr?, uses: multiset<SubscrUse>) {
      s != null ==>
        if s in old(subscribers) then uses == old(s.useCount) && uses != multiset{}
        else fresh(s) && uses == multiset{}
    }

    /** The outcome of the first message of a connection that does not stop the program: either the
        connection stays with its request waiting, or it is gone and nothing remains of it. */
    twostate predicate FirstMessageHandled(new c: LbConn, msg: CoMsg, env: Env, uses: multiset<SubscrUse>)
      reads this, c, c.smlcSubscr, c.smlcLocReq, cells
    {
      var id, s := c.sccpConnId, c.smlcSubscr;
      if StaysOpen(msg) then
        && lbConns == [c] + old(lbConns) && !c.freed && !c.closing && c.useCount == multiset{UseLocReq}
        && IsSubscrOf(s, msg.req.identity, subscribers) && TakenOnTop(s, old(subscribers), uses)
        && c.smlcLocReq != null && fresh(c.smlcLocReq)
        && Waiting(c.smlcLocReq, c, msg.req.cellId, clock + T12)
        && trace == old(trace) + [Opened(id)] + FirstOutputs(id, msg, env, cells.entries)
      else
        && lbConns == old(lbConns) && subscribers == old(subscribers)
        && (s != null && s in old(subscribers) ==> s.useCount == uses && !s.freed)
        && trace == old(trace) + [Opened(id)] + FirstOutputs(id, msg, env, cells.entries) + [Disconnect(id, ByClose)]
    }

    method ConnOpen(p: LbPeer, id: nat, msg: CoMsg, env: Env, ghost all: set<object>)
      returns (ok: bool, c: LbConn, ghost uses: multiset<SubscrUse>)
      requires p.state == Ready && SubscribersInUse()
      modifies this`lbConns, this`subscribers, this`trace, lbConns, subscribers
      ensures ok <==> !NeedsRequest(msg)
      ensures !ok ==> trace == old(trace) + [Opened(id)]
      ensures fresh(c) && c.sccpConnId == id && (ok ==> FirstMessageHandled(c, msg, env, uses))
      ensures TakenFrom(c.smlcSubscr, uses)
      ensures StaysOpen(msg) ==> c.lbPeer == p
      ensures forall o :: o in all ==> Untouched({this, c.smlcSubscr}, o)
    {
      ok, c, uses := ConnReadFirst(p, id, msg, env, all);
      if !ok {
        return;
      }
      assert multiset{UseReady, UseLocReq} - multiset{UseReady} == multiset{UseLocReq};
      ConnPutNewest(c, old(subscribers), uses);
    }

    twostate lemma {:induction false} SubscribersOkAfterOpen(
        new s: SmlcSubscr?, new uses: multiset<SubscrUse>, new m: Conn)
      requires old(SubscribersOk()) && old(ConnsOk())
      requires old(repr) <= repr && (s != null ==> s in repr)
      requires IsSubscrOf(s, m.identity, subscribers) && TakenOnTop(s, old(subscribers), uses) && TakenFrom(s, uses)
      requires forall x :: x in old(subscribers) && x != s ==> unchanged(x)
      requires model.conns == [m] + old(model.conns)
      ensures SubscribersOk()
    {
      assert model.conns[1..] == old(model.conns);
      forall x | x in subscribers ensures SubscrOk(x) {
        if x != s {
          assert old(SubscrOk(x));
        } else if s in old(subscribers) {
          assert old(SubscrOk(s));
          OneUseMore(CountOf(old(model.conns), s.imsi));
        } else {
          UnlistedIsUncounted(old(subscribers), s.imsi);
        }
      }
    }

    /** No connection is about a subscriber that is not listed. */
    twostate lemma {:induction false} UnlistedIsUncounted(list: seq<SmlcSubscr>, new imsi: Identity)
      requires old(ConnsOk()) && list == old(subscribers) && imsi.Imsi? && forall x :: x in list ==> x.imsi != imsi
      ensures CountOf(old(model.conns), imsi) == 0
    {
      var ms := old(model.conns);
      forall k | 0 <= k < |ms| ensures ms[k].identity != imsi {
        assert old(ConnOk(lbConns[k], ms[k]));
      }
      CountZero(ms, imsi);
    }

    twostate lemma {:induction false} ConnsOkAfterOpen(new c: LbConn, new m: Conn)
      requires old(ConnsOk()) && old(SubscribersOk()) && old(repr) <= repr && unchanged(this`lbPeers)
      requires forall o :: o in old(repr) ==> Untouched({this, c.smlcSubscr}, o)
      requires forall x :: x in old(subscribers) ==> x in subscribers
      requires lbConns == [c] + old(lbConns) && model.conns == [m] + old(model.conns)
      requires ConnOk(c, m)
      ensures ConnsOk()
    {
      forall k | 0 <= k < |lbConns| ensures ConnOk(lbConns[k], model.conns[k]) {
        if k > 0 {
          assert old(ConnOk(lbConns[k - 1], model.conns[k - 1]));
          assert Untouched({this, c.smlcSubscr}, lbConns[k]) && Untouched({this, c.smlcSubscr}, lbConns[k].smlcLocReq);
        }
      }
    }

    ghost function ConnObjects(c: LbConn): set<object>
      reads c
    {
      {c}
      + (if c.smlcLocReq == null then {} else {c.smlcLocReq})
      + (if c.smlcSubscr == null then {} else {c.smlcSubscr})
    }

    /** Everything fits after a connection was added with its request and subscriber. */
    twostate lemma {:induction false} ValidAfterOpen(
        new c: LbConn, p: LbPeer, new m: Conn, new uses: multiset<SubscrUse>, new msg: CoMsg, new env: Env)
      requires old(Valid()) && !old(stopped) && p in lbPeers && p.addr == m.addr && c.lbPeer == p
      requires StaysOpen(msg) && FirstMessageHandled(c, msg, env, uses) && TakenFrom(c.smlcSubscr, uses)
      requires m == Conn(c.sccpConnId, p.addr, msg.req.identity, msg.req.cellId, clock + T12)
      requires repr == old(repr) + ConnObjects(c)
      requires unchanged(this`lbPeers, this`inCells, this`clock, this`nextConnId, this`stopped)
      requires forall o :: o in old(repr) ==> Untouched({this, c.smlcSubscr}, o)
      requires model == old(model).(conns := [m] + old(model.conns), trace := trace) && Inv(model)
      ensures Valid()
    {
      PeersOkWhenKept({this, c.smlcSubscr});
      forall x | x in old(subscribers) && x != c.smlcSubscr ensures unchanged(x) {
        assert old(SubscrOk(x));
        assert Untouched({this, c.smlcSubscr}, x);
      }
      SubscribersOkAfterOpen(c.smlcSubscr, uses, m);
      ConnsOkAfterOpen(c, m);
      assert Untouched({this, c.smlcSubscr}, cells);
    }

    twostate lemma {:induction false} CoupledAfterTransient(new s: SmlcSubscr?)
      requires old(Coupled()) && old(cells in repr)
      requires unchanged(this`repr, this`lbPeers, this`lbConns, this`subscribers, this`inCells, this`clock)
      requires forall o :: o in old(repr) ==> Untouched({this, s}, o)
      requires s in old(subscribers) ==> s.useCount == old(s.useCount) && !s.freed
      requires s !in old(subscribers) && s != null ==> fresh(s)
      requires model == old(model).(trace := trace)
      ensures Coupled()
    {
      PeersOkWhenKept({this, s});
      forall k | 0 <= k < |lbConns| ensures ConnOk(lbConns[k], model.conns[k]) {
        assert old(ConnOk(lbConns[k], model.conns[k]));
        assert Untouched({this, s}, lbConns[k]) && Untouched({this, s}, lbConns[k].smlcLocReq);
      }
      forall x | x in subscribers ensures SubscrOk(x) {
        assert old(SubscrOk(x));
        assert Untouched({this, s}, x);
      }
      assert Untouched({this, s}, cells);
    }

    /** Everything fits after a connection came and went within one input. */
    twostate lemma {:induction false} ValidAfterTransient(new s: SmlcSubscr?)
      requires old(Valid()) && !old(stopped)
      requires unchanged(this`repr, this`lbPeers, this`lbConns, this`subscribers)
      requires unchanged(this`inCells, this`clock, this`nextConnId, this`stopped)
      requires forall o :: o in old(repr) ==> Untouched({this, s}, o)
      requires s in old(subscribers) ==> s.useCount == old(s.useCount) && !s.freed
      requires s !in old(subscribers) && s != null ==> fresh(s)
      requires model == old(model).(trace := trace)
      ensures Valid()
    {
      CoupledAfterTransient(s);
    }

    lemma {:induction false} PeerIsListed(p: LbPeer, st: PeerState)
      requires Valid() && !stopped && p in lbPeers
      ensures p in repr
      ensures p.state == st <==> InState(model.peers, p.addr, st)
      ensures IndexOfPeer(model.peers, p.addr) < |model.peers|
      ensures lbPeers[IndexOfPeer(model.peers, p.addr)] == p
    {
      var i :| 0 <= i < |lbPeers| && lbPeers[i] == p;
      assert PeerOk(lbPeers[i], model.peers[i]);
      PeerAt(model.peers, i);
    }

    lemma {:induction false} PeerIsReady(p: LbPeer, id: nat, msg: CoMsg, env: Env)
      requires Valid() && !stopped && p in lbPeers && p.state == Ready && !Live(model, id)
      ensures p in repr && SubscribersInUse() && cells.entries == model.config.table
      ensures forall c :: c in lbConns ==> c in repr
      ensures forall s :: s in subscribers ==> s in repr
      ensures var next := Open(model, id, p.addr, msg, env); Inv(next) && Opens(model, next, id, p.addr, msg, env)
    {
      OpenOutcomes(model, id, p.addr, msg, env);
      ListsDistinct();
      ListsInUse();
      PeerIsListed(p, Ready);
      OpenInv(model, id, p.addr, msg, env);
    }

    twostate lemma {:induction false} ValidAfterStaying(
        new c: LbConn, p: LbPeer, new uses: multiset<SubscrUse>, new msg: CoMsg, new env: Env)
      requires old(Valid()) && !old(stopped) && p in lbPeers && StaysOpen(msg)
      requires FirstMessageSettled(c, p, msg, env, uses)
      requires unchanged(this`lbPeers, this`inCells, this`clock, this`nextConnId)
      requires forall o :: o in old(repr) ==> Untouched({this, c.smlcSubscr}, o)
      requires Opens(old(model), model, c.sccpConnId, p.addr, msg, env) && Inv(model)
      ensures Valid()
    {
      var m := Conn(c.sccpConnId, p.addr, msg.req.identity, msg.req.cellId, clock + T12);
      assert clock == old(model).clock && cells.entries == old(model).config.table by {
        assert Untouched({this, c.smlcSubscr}, cells);
      }
      StayingStep(old(model), model, m, c.sccpConnId, p.addr, msg, env);
      ValidAfterOpen(c, p, m, uses, msg, env);
    }

    twostate lemma {:induction false} ValidAfterLeaving(
        new c: LbConn, p: LbPeer, new uses: multiset<SubscrUse>, new msg: CoMsg, new env: Env)
      requires old(Valid()) && !old(stopped) && !StaysOpen(msg) && !NeedsRequest(msg)
      requires FirstMessageSettled(c, p, msg, env, uses)
      requires unchanged(this`lbPeers, this`inCells, this`clock, this`nextConnId)
      requires forall o :: o in old(repr) ==> Untouched({this, c.smlcSubscr}, o)
      requires Opens(old(model), model, c.sccpConnId, p.addr, msg, env)
      ensures Valid()
    {
      ValidAfterTransient(c.smlcSubscr);
    }

    /** Everything fits after the first message of a connection. */
    twostate lemma {:induction false} ValidAfterFirst(
        new c: LbConn, p: LbPeer, new uses: multiset<SubscrUse>, new msg: CoMsg, new env: Env)
      requires old(Valid()) && !old(stopped) && p in lbPeers
      requires FirstMessageSettled(c, p, msg, env, uses)
      requires unchanged(this`lbPeers, this`inCells, this`clock, this`nextConnId)
      requires forall o :: o in old(repr) ==> Untouched({this, c.smlcSubscr}, o)
      requires Opens(old(model), model, c.sccpConnId, p.addr, msg, env) && Inv(model)
      ensures Valid()
    {
      if StaysOpen(msg) {
        ValidAfterStaying(c, p, uses, msg, env);
      } else if !NeedsRequest(msg) {
        ValidAfterLeaving(c, p, uses, msg, env);
      }
    }

    /** What the first message of a connection leaves behind, including the program having stopped. */
    twostate predicate FirstMessageSettled(new c: LbConn, p: LbPeer, msg: CoMsg, env: Env, uses: multiset<SubscrUse>)
      reads this, c, c.smlcSubscr, c.smlcLocReq, cells
    {
      && (stopped <==> old(stopped) || NeedsRequest(msg))
      && (StaysOpen(msg) ==> c.lbPeer == p && repr == old(repr) + ConnObjects(c))
      && (!StaysOpen(msg) ==> repr == old(repr))
      && (if NeedsRequest(msg) then trace == old(trace) + [Opened(c.sccpConnId)]
          else FirstMessageHandled(c, msg, env, uses) && TakenFrom(c.smlcSubscr, uses))
    }

    method ConnOpenOrStop(p: LbPeer, id: nat, msg: CoMsg, env: Env, ghost next: Sys)
      returns (c: LbConn, ghost uses: multiset<SubscrUse>)
      requires p.state == Ready && SubscribersInUse()
      modifies this`lbConns, this`subscribers, this`trace, this`stopped, this`repr, this`model, lbConns, subscribers
      ensures c.sccpConnId == id && FirstMessageSettled(c, p, msg, env, uses) && model == next
      ensures old(forall s :: s in subscribers ==> s in repr) ==> fresh(repr - old(repr))
      ensures forall o :: o in old(repr) ==> Untouched({this, c.smlcSubscr}, o)
    {
      var ok;
      ok, c, uses := ConnOpen(p, id, msg, env, repr);
      model := next;
      if !ok {
        stopped := true;
        return;
      }
      if StaysOpen(msg) {
        repr := repr + ConnObjects(c);
      }
    }

    /** The same, towards the state that the first message leads to. */
    method ConnOpenTowards(p: LbPeer, id: nat, msg: CoMsg, env: Env, ghost next: Sys)
      requires Valid() && !stopped && p in lbPeers && p.state == Ready && SubscribersInUse()
      requires forall c :: c in lbConns ==> c in repr
      requires forall s :: s in subscribers ==> s in repr
      requires Inv(next) && Opens(model, next, id, p.addr, msg, env) && p in repr
      modifies this, repr
      ensures Valid() && fresh(repr - old(repr)) && model == next
    {
      var c;
      ghost var uses;
      c, uses := ConnOpenOrStop(p, id, msg, env, next);
      ValidAfterFirst(c, p, uses, msg, env);
    }

    /** The first message of a new connection from a READY peer. */
    method ConnUpCoInitial(p: LbPeer, id: nat, msg: CoMsg, env: Env)
      requires Valid() && !stopped && p in lbPeers && p.state == Ready && !Live(model, id)
      modifies this, repr
      ensures Valid() && fresh(repr - old(repr))
      ensures model == Open(old(model), id, p.addr, msg, env)
    {
      PeerIsReady(p, id, msg, env);
      ConnOpenTowards(p, id, msg, env, Open(model, id, p.addr, msg, env));
    }

    // ----- Peers -----

    method PeerFind(addr: Addr) returns (p: LbPeer?)
      ensures p == null ==> forall x :: x in lbPeers ==> x.addr != addr
      ensures p != null ==> p in lbPeers && p.addr == addr
    {
      var k := 0;
      while k < |lbPeers|
        invariant k <= |lbPeers|
        invariant forall j :: 0 <= j < k ==> lbPeers[j].addr != addr
      {
        p := lbPeers[k];
        if p.addr == addr {
          return p;
        }
        k := k + 1;
      }
      return null;
    }

    lemma {:induction false} PeerIsUnknown(addr: Addr)
      requires Valid() && !stopped && forall x :: x in lbPeers ==> x.addr != addr
      ensures IndexOfPeer(model.peers, addr) == |model.peers|
    {
      forall k | 0 <= k < |model.peers| ensures model.peers[k].addr != addr {
        assert PeerOk(lbPeers[k], model.peers[k]);
      }
    }

    twostate lemma {:induction false} CoupledAfterPeerAdded(new p: LbPeer, new m: Peer)
      requires old(Coupled()) && old(cells in repr)
      requires p.addr == m.addr && p.state == m.state && p.deadline == m.deadline
      requires lbPeers == [p] + old(lbPeers) && repr == old(repr) + {p}
      requires unchanged(this`lbConns, this`subscribers, this`inCells, this`clock)
      requires forall o :: o in old(repr) && o != this ==> unchanged(o)
      requires model == old(model).(peers := [m] + old(model).peers)
      ensures Coupled()
    {
      forall k | 0 <= k < |lbPeers| ensures PeerOk(lbPeers[k], model.peers[k]) {
        if k > 0 {
          assert old(PeerOk(lbPeers[k - 1], model.peers[k - 1]));
        }
      }
      forall k | 0 <= k < |lbConns| ensures ConnOk(lbConns[k], model.conns[k]) {
        assert old(ConnOk(lbConns[k], model.conns[k]));
      }
      forall x | x in subscribers ensures SubscrOk(x) {
        assert old(SubscrOk(x));
      }
    }

    twostate lemma {:induction false} ValidAfterPeerAdded(new p: LbPeer, new m: Peer)
      requires old(Valid()) && !old(stopped)
      requires p.addr == m.addr && p.state == m.state && p.deadline == m.deadline
      requires lbPeers == [p] + old(lbPeers) && repr == old(repr) + {p}
      requires unchanged(this`lbConns, this`subscribers, this`inCells, this`clock)
      requires unchanged(this`nextConnId, this`stopped, this`trace)
      requires forall o :: o in old(repr) && o != this ==> unchanged(o)
      requires model == old(model).(peers := [m] + old(model).peers) && Inv(model)
      ensures Valid()
    {
      CoupledAfterPeerAdded(p, m);
    }

    method PeerFindOrCreate(addr: Addr) returns (p: LbPeer)
      requires Valid() && !stopped
      modifies this`lbPeers, this`repr, this`model
      ensures Valid() && fresh(repr - old(repr)) && p in lbPeers && p.addr == addr
      ensures model == old(model).(peers := AddPeer(old(model).peers, addr))
    {
      var found := PeerFind(addr);
      AddPeerInv(model, addr);
      if found != null {
        PeerIsListed(found, found.state);
        return found;
      }
      PeerIsUnknown(addr);
      p := new LbPeer(addr);
      lbPeers := [p] + lbPeers;
      repr := repr + {p};
      model := model.(peers := AddPeer(model.peers, addr));
      ValidAfterPeerAdded(p, Peer(addr, WaitRxReset, None));
    }

    twostate lemma {:induction false} ValidAfterPeerChanged(p: LbPeer)
      requires old(Valid()) && !old(stopped) && p in old(lbPeers)
      requires unchanged(this`lbPeers, this`lbConns, this`subscribers, this`inCells, this`clock, this`nextConnId)
      requires unchanged(this`stopped, this`trace, this`repr)
      requires forall o :: o in old(repr) && o != this && o != p ==> unchanged(o)
      requires model == old(model).WithPeer(p.addr, p.state, p.deadline) && Inv(model)
      ensures Valid()
    {
    }

    /** Entering a state stops the old timer; only WAIT_RX_RESET_ACK starts one. */
    method PeerStateChange(p: LbPeer, st: PeerState)
      modifies p
      ensures p.state == st && p.deadline == PeerDeadline(st)
    {
      p.state := st;
      p.deadline := if st == WaitRxResetAck then Some(clock + T13) else None;
    }

    ghost function PeerDeadline(st: PeerState): Option<nat>
      reads this
    {
      if st == WaitRxResetAck then Some(clock + T13) else None
    }

    lemma {:induction false} PeerMayEnter(p: LbPeer, st: PeerState)
      requires Valid() && !stopped && p in lbPeers
      requires st == Ready || NoConnsOf(model, p.addr)
      ensures p in repr && Inv(model.WithPeer(p.addr, st, PeerDeadline(st)))
    {
      PeerIsListed(p, st);
      WithPeerInv(model, p.addr, st, PeerDeadline(st));
    }

    method PeerSetState(p: LbPeer, st: PeerState)
      requires Valid() && !stopped && p in lbPeers
      requires st == Ready || NoConnsOf(model, p.addr)
      modifies this`model, p
      ensures Valid() && model == old(model).WithPeer(p.addr, st, PeerDeadline(st))
    {
      PeerMayEnter(p, st);
      PeerStateChange(p, st);
      model := model.WithPeer(p.addr, st, PeerDeadline(st));
      ValidAfterPeerChanged(p);
    }

    twostate lemma {:induction false} ValidAfterEmit(new outs: seq<Output>)
      requires old(Valid()) && !old(stopped) && trace == old(trace) + outs && model == old(model).Emit(outs)
      requires unchanged(this`lbPeers, this`lbConns, this`subscribers, this`inCells, this`clock, this`nextConnId)
      requires unchanged(this`stopped, this`repr) && forall o :: o in old(repr) && o != this ==> unchanged(o)
      ensures Valid()
    {
    }

    /** Hand something to SCCP. */
    method Emit(out: Output)
      requires Valid() && !stopped
      modifies this`trace, this`model
      ensures Valid() && model == old(model).Emit([out])
    {
      trace := trace + [out];
      model := model.Emit([out]);
      ValidAfterEmit([out]);
    }

    /** The k-th connection is dropped without telling SCCP. */
    method ConnDiscardAt(c: LbConn, ghost k: nat)
      requires Valid() && !stopped && k < |lbConns| && c == lbConns[k]
      modifies this, repr
      ensures Valid() && repr == old(repr) && lbPeers == old(lbPeers)
      ensures lbConns == old(lbConns)[..k] + old(lbConns)[k + 1..]
      ensures model == old(model).(conns := old(model).conns[..k] + old(model).conns[k + 1..])
                                 .Emit([Discarded(old(model).conns[k].id)])
    {
      ConnFits(k);
      PeerOf(k);
      ghost var objs: set<object?> := {this, c, c.smlcSubscr, c.smlcLocReq};
      ConnDiscard(c);
      forall o | o in old(repr) ensures Untouched(objs, o) {
      }
      model := model.(conns := model.conns[..k] + model.conns[k + 1..]).Emit([Discarded(model.conns[k].id)]);
      UnlinkAt(old(lbConns), k);
      ValidAfterClose(k, objs);
    }

    lemma {:induction false} SamePeer(k: nat, p: LbPeer)
      requires Valid() && !stopped && k < |lbConns| && p in lbPeers
      ensures lbConns[k].lbPeer == p <==> model.conns[k].addr == p.addr
    {
      assert ConnOk(lbConns[k], model.conns[k]);
      PeerIsListed(p, p.state);
      PeerIsListed(lbConns[k].lbPeer, p.state);
    }

    /** Walks the list of all connections. The next element is looked up before the current one is
        dropped, because dropping it frees it. */
    method PeerDiscardAllConns(p: LbPeer)
      requires Valid() && !stopped && p in lbPeers
      modifies this, repr
      ensures Valid() && repr == old(repr) && lbPeers == old(lbPeers)
      ensures model == DropPeerConns(old(model), p.addr) && NoConnsOf(model, p.addr)
    {
      ghost var n, k := 0, 0;
      DropInv(model, p.addr);
      DroppingEnds(model, p.addr);
      var c := First(lbConns);
      while c != null
        invariant Valid() && repr == old(repr) && lbPeers == old(lbPeers)
        invariant n <= |old(model).conns| && model == Dropping(old(model), p.addr, n)
        invariant k == |Others(old(model).conns[..n], p.addr)| <= |lbConns| && c == First(lbConns[k..])
        decreases |old(model).conns| - n
      {
        ListsDistinct();
        var next := After(lbConns, c);
        AfterAt(lbConns, k);
        DroppingStep(old(model), p.addr, n);
        SamePeer(k, p);
        if c.lbPeer == p {
          ConnDiscardAt(c, k);
        } else {
          k := k + 1;
        }
        n := n + 1;
        c := next;
      }
    }

    /** A message without a connection: it must be encoded before it is sent. */
    method PeerSend(p: LbPeer, pdu: Pdu, env: Env) returns (rc: int)
      requires Valid() && !stopped
      modifies this`trace, this`model
      ensures Valid() && rc == env.unitdataRc && model == old(model).Emit([Unitdata(p.addr, pdu, rc)])
    {
      rc := env.unitdataRc;
      Emit(Unitdata(p.addr, pdu, rc));
    }

    method PeerRxReset(p: LbPeer, env: Env)
      requires Valid() && !stopped && p in lbPeers
      modifies this, repr
      ensures Valid() && repr == old(repr) && model == AcceptReset(old(model), p.addr, env)
      ensures env.encodes(ResetAck) ==> |trace| > 0 && trace[|trace| - 1] == Unitdata(p.addr, ResetAck, env.unitdataRc)
    {
      PeerIsListed(p, Ready);
      PeerDiscardAllConns(p);
      if !env.encodes(ResetAck) {
        PeerSetState(p, WaitRxReset);
        return;
      }
      var rc := PeerSend(p, ResetAck, env);
      if rc != 0 {
        PeerSetState(p, WaitRxReset);
        return;
      }
      PeerSetState(p, Ready);
    }

    method PeerRxResetAck(p: LbPeer)
      requires Valid() && !stopped && p in lbPeers
      modifies this`model, p
      ensures Valid() && model == old(model).WithPeer(p.addr, Ready, None)
    {
      PeerSetState(p, Ready);
    }

    method PeerSendReset(p: LbPeer, env: Env)
      requires Valid() && !stopped && p in lbPeers && NoConnsOf(model, p.addr)
      modifies this, repr
      ensures Valid() && repr == old(repr) && model == SendReset(old(model), p.addr, env)
    {
      PeerIsListed(p, Ready);
      if !env.encodes(Reset) {
        PeerSetState(p, WaitRxReset);
        return;
      }
      var rc := PeerSend(p, Reset, env);
      if rc != 0 {
        PeerSetState(p, WaitRxReset);
      }
    }

    method PeerAwaitAck(p: LbPeer)
      requires Valid() && !stopped && p in lbPeers && p.state != Ready
      modifies this`model, p
      ensures Valid() && NoConnsOf(model, p.addr)
      ensures model == old(model).WithPeer(p.addr, WaitRxResetAck, Some(clock + T13))
    {
      PeerIsListed(p, Ready);
      NotReadyNoConns(model, p.addr);
      PeerSetState(p, WaitRxResetAck);
    }

    method PeerClear(p: LbPeer)
      requires Valid() && !stopped && p in lbPeers && p.state != Ready
      modifies this, repr
      ensures Valid() && repr == old(repr) && lbPeers == old(lbPeers) && NoConnsOf(model, p.addr)
      ensures model == ClearPeer(old(model), p.addr)
    {
      PeerIsListed(p, Ready);
      PeerAwaitAck(p);
      PeerDiscardAllConns(p);
    }

    /** Only ever called for a peer that is not READY, which has no connections. */
    method PeerReset(p: LbPeer, env: Env)
      requires Valid() && !stopped && p in lbPeers && p.state != Ready
      modifies this, repr
      ensures Valid() && repr == old(repr) && model == StartReset(old(model), p.addr, env)
    {
      PeerClear(p);
      PeerSendReset(p, env);
    }

    // ----- Routing -----

    /** The position of the connection with the given id, or the length of the list. */
    method ConnById(id: nat) returns (k: nat)
      requires Valid() && !stopped
      ensures k == IndexOfConn(model.conns, id) <= |lbConns|
    {
      k := 0;
      while k < |lbConns|
        invariant k <= |lbConns|
        invariant forall j :: 0 <= j < k ==> model.conns[j].id != id
      {
        assert ConnOk(lbConns[k], model.conns[k]);
        if lbConns[k].sccpConnId == id {
          return;
        }
        k := k + 1;
      }
    }

    /** Drops the connection with the given id, if there is one. */
    method PeerDisconnect(id: nat)
      requires Valid() && !stopped
      modifies this, repr
      ensures Valid() && repr == old(repr) && lbPeers == old(lbPeers)
      ensures !Live(old(model), id) ==> unchanged(this) && forall o :: o in old(repr) ==> unchanged(o)
      ensures Live(old(model), id) ==>
        var k := IndexOfConn(old(model).conns, id);
        model == old(model).(conns := old(model).conns[..k] + old(model).conns[k + 1..]).Emit([Discarded(id)])
    {
      var k := ConnById(id);
      if k < |lbConns| {
        ConnDiscardAt(lbConns[k], k);
      }
    }

    /** A first connection-oriented message, by the state of the peer. */
    method PeerUpCoInitial(p: LbPeer, id: nat, msg: CoMsg, env: Env)
      requires Valid() && !stopped && p in lbPeers && !Live(model, id)
      modifies this, repr
      ensures Valid() && fresh(repr - old(repr))
      ensures model == (if InState(old(model).peers, p.addr, Ready) then Open(old(model), id, p.addr, msg, env)
                        else if InState(old(model).peers, p.addr, WaitRxReset) then StartReset(old(model), p.addr, env)
                        else StartReset(old(model).Emit([Disconnect(id, ByPeer)]), p.addr, env))
    {
      PeerIsListed(p, Ready);
      PeerIsListed(p, WaitRxReset);
      match p.state {
        case WaitRxReset =>
          PeerDisconnect(id);
          PeerReset(p, env);
        case WaitRxResetAck =>
          Emit(Disconnect(id, ByPeer));
          PeerReset(p, env);
        case Ready =>
          ConnUpCoInitial(p, id, msg, env);
      }
    }

    /** A later connection-oriented message: its peer is READY. */
    method PeerUpCo(p: LbPeer, c: LbConn, msg: CoMsg, env: Env, ghost k: nat)
      requires Valid() && !stopped && k < |lbConns| && c == lbConns[k] && p == c.lbPeer
      modifies this, repr
      ensures Valid() && repr == old(repr)
      ensures model == Conclude(old(model), k,
                                React(env, old(model).config.table, old(model).conns[k].cellId, msg), env)
    {
      PeerOf(k);
      if p.state != Ready {
        assert false;
      }
      ConnUpCo(c, msg, env, k);
    }

    method PeerUpFirst(calling: Addr, id: nat, msg: CoMsg, env: Env)
      requires Valid() && !stopped && !Live(model, id)
      modifies this, repr
      ensures Valid() && fresh(repr - old(repr)) && model == OnInitial(old(model), id, calling, msg, env)
    {
      var p := PeerFindOrCreate(calling);
      PeerUpCoInitial(p, id, msg, env);
    }

    method PeerUpLater(id: nat, msg: CoMsg, env: Env, k: nat)
      requires Valid() && !stopped && k < |lbConns| && k == IndexOfConn(model.conns, id)
      modifies this, repr
      ensures Valid() && repr == old(repr) && model == OnData(old(model), id, msg, env)
    {
      PeerOf(k);
      PeerUpCo(lbConns[k].lbPeer, lbConns[k], msg, env, k);
    }

    /** A connection-oriented message from SCCP, with a calling address if it comes with a new
        connection. Refused when the id of a new connection is in use, or that of an old one is not. */
    method PeerUpL2(calling: Option<Addr>, id: nat, msg: CoMsg, env: Env) returns (rc: int)
      requires Valid() && !stopped
      modifies this, repr
      ensures Valid() && fresh(repr - old(repr))
      ensures rc != 0 <==> (calling.Some? <==> Live(old(model), id))
      ensures rc != 0 ==> model == old(model)
      ensures calling.None? ==> model == OnData(old(model), id, msg, env)
      ensures calling.Some? && rc == 0 ==> model == OnInitial(old(model), id, calling.value, msg, env)
    {
      var k := ConnById(id);
      if k < |lbConns| && calling.Some? {
        return -22;
      }
      if k == |lbConns| && calling.None? {
        return -22;
      }
      if calling.Some? {
        PeerUpFirst(calling.value, id, msg, env);
      } else {
        PeerUpLater(id, msg, env, k);
      }
      return 0;
    }

    /** A connection-less message: RESET is accepted in every state, an acknowledgement only while it
        is awaited. */
    method PeerUpCl(calling: Addr, cl: ClMsg, env: Env)
      requires Valid() && !stopped
      modifies this, repr
      ensures Valid() && fresh(repr - old(repr)) && model == OnUnitdata(old(model), calling, cl, env)
    {
      var p := PeerFindOrCreate(calling);
      match cl {
        case RxReset => PeerRxReset(p, env);
        case RxResetAck =>
          PeerIsListed(p, WaitRxResetAck);
          if p.state == WaitRxResetAck {
            PeerRxResetAck(p);
          }
        case UnsupportedCl =>
      }
    }

    method ConnectInd(id: nat, calling: Addr, l2: Option<CoMsg>, env: Env)
      requires Valid() && !stopped
      modifies this, repr
      ensures Valid() && fresh(repr - old(repr)) && model == Step(old(model), Input(NConnect(id, calling, l2), env))
    {
      if l2.None? {
        return;
      }
      Emit(ConnResp(id));
      var rc := PeerUpL2(Some(calling), id, l2.value, env);
      if rc != 0 {
        Emit(Disconnect(id, BySap));
      }
    }

    method DisconnectInd(id: nat, l2: Option<CoMsg>, env: Env)
      requires Valid() && !stopped
      modifies this, repr
      ensures Valid() && fresh(repr - old(repr)) && model == Step(old(model), Input(NDisconnect(id, l2), env))
      ensures |trace| > 0 && trace[|trace| - 1] == Disconnect(id, BySap)
    {
      if l2.Some? {
        var rc := PeerUpL2(None, id, l2.value, env);
      }
      Emit(Disconnect(id, BySap));
    }

    // ----- Time and configuration -----

    method RequestTimerDue(id: nat, env: Env)
      requires Valid() && !stopped
      modifies this, repr
      ensures Valid() && repr == old(repr) && model == OnRequestTimer(old(model), id, env)
    {
      var k := ConnById(id);
      if k == |lbConns| {
        return;
      }
      PeerOf(k);
      if clock < lbConns[k].smlcLocReq.deadline.value {
        return;
      }
      ConnTimeout(lbConns[k], env, k);
    }

    method PeerTimerDue(addr: Addr)
      requires Valid() && !stopped
      modifies this, repr
      ensures Valid() && repr == old(repr) && model == OnPeerTimer(old(model), addr)
    {
      var p := PeerFind(addr);
      if p == null {
        PeerIsUnknown(addr);
        return;
      }
      PeerIsListed(p, Ready);
      ghost var k := IndexOfPeer(model.peers, addr);
      assert PeerOk(lbPeers[k], model.peers[k]) && PeerInv(clock, model.peers[k]);
      if p.deadline.None? || clock < p.deadline.value {
        return;
      }
      NotReadyNoConns(model, addr);
      PeerSetState(p, WaitRxReset);
    }

    /** No timer runs out before the given time. */
    method TimersAllow(to: nat) returns (ok: bool)
      requires Valid() && !stopped
      ensures ok <==> NoTimerBefore(model, to)
    {
      var k := 0;
      while k < |lbConns|
        invariant k <= |lbConns|
        invariant forall j :: 0 <= j < k ==> to <= model.conns[j].deadline
      {
        PeerOf(k);
        if to > lbConns[k].smlcLocReq.deadline.value {
          return false;
        }
        k := k + 1;
      }
      k := 0;
      while k < |lbPeers|
        invariant k <= |lbPeers|
        invariant forall j :: 0 <= j < k && model.peers[j].deadline.Some? ==> to <= model.peers[j].deadline.value
      {
        assert PeerOk(lbPeers[k], model.peers[k]);
        if lbPeers[k].deadline.Some? && to > lbPeers[k].deadline.value {
          return false;
        }
        k := k + 1;
      }
      return true;
    }

    method Advance(to: nat)
      requires Valid() && !stopped
      modifies this`clock, this`model
      ensures Valid()
      ensures model == if old(model).clock <= to && NoTimerBefore(old(model), to) then old(model).(clock := to)
                       else old(model)
    {
      var ok := TimersAllow(to);
      if clock <= to && ok {
        AdvanceInv(model, to);
        clock := to;
        model := model.(clock := to);
        ValidAfterAdvance();
      }
    }

    twostate lemma {:induction false} ValidAfterAdvance()
      requires old(Valid()) && !old(stopped) && Inv(model) && model == old(model).(clock := clock)
      requires unchanged(this`lbPeers, this`lbConns, this`subscribers, this`inCells, this`nextConnId)
      requires unchanged(this`stopped, this`trace, this`repr)
      requires forall o :: o in old(repr) && o != this ==> unchanged(o)
      ensures Valid()
    {
    }

    method Configure(line: Line)
      requires Valid() && !stopped
      modifies this`inCells, this`model, cells
      ensures Valid() && model == old(model).(config := Exec(old(model).config, line))
    {
      ExecKeepsValid(model.config, line);
      inCells := Execute(cells, inCells, line);
      model := model.(config := Exec(model.config, line));
      ValidAfterConfigure();
    }

    twostate lemma {:induction false} ValidAfterConfigure()
      requires old(Valid()) && !old(stopped) && ValidTable(model.config.table)
      requires model == old(model).(config := Config(inCells, cells.entries))
      requires unchanged(this`lbPeers, this`lbConns, this`subscribers, this`clock, this`nextConnId)
      requires unchanged(this`stopped, this`trace, this`repr)
      requires forall o :: o in old(repr) && o != this && o != cells ==> unchanged(o)
      ensures Valid()
    {
    }

    // ----- All inputs -----

    /** A primitive from SCCP. */
    method SapUp(i: Input)
      requires Valid() && !stopped
      requires i.ev.NConnect? || i.ev.NData? || i.ev.NDisconnect? || i.ev.NUnitdata? || i.ev.OtherPrimitive?
      modifies this, repr
      ensures Valid() && fresh(repr - old(repr)) && model == Step(old(model), i)
    {
      match i.ev {
        case NConnect(id, calling, l2) => ConnectInd(id, calling, l2, i.env);
        case NData(id, msg) =>
          var rc := PeerUpL2(None, id, msg, i.env);
        case NDisconnect(id, l2) => DisconnectInd(id, l2, i.env);
        case NUnitdata(calling, cl) => PeerUpCl(calling, cl, i.env);
        case OtherPrimitive =>
      }
    }

    /** One input is handled to completion: the program takes the step of the model. */
    method Handle(i: Input)
      requires Valid()
      modifies this, repr
      ensures Valid() && fresh(repr - old(repr)) && model == Step(old(model), i)
    {
      if stopped {
        return;
      }
      match i.ev {
        case RequestTimer(id) => RequestTimerDue(id, i.env);
        case PeerTimer(addr) => PeerTimerDue(addr);
        case Advance(to) => Advance(to);
        case Configure(line) => Configure(line);
        case _ => SapUp(i);
      }
    }

    /** Whole runs. */
    method HandleAll(ins: seq<Input>)
      requires Valid()
      modifies this, repr
      ensures Valid() && fresh(repr - old(repr)) && model == Run(old(model), ins)
    {
      var n := 0;
      while n < |ins|
        invariant n <= |ins|
        invariant Valid() && fresh(repr - old(repr)) && model == Run(old(model), ins[..n])
      {
        Handle(ins[n]);
        n := n + 1;
        assert ins[..n][..n - 1] == ins[..n - 1];
      }
      assert ins[..n] == ins;
    }

    // ----- Choosing a connection id -----

    ghost function LiveIds(cs: seq<Conn>): set<nat> {
      set k | 0 <= k < |cs| :: cs[k].id
    }

    /** Whether a connection of any peer has the id: every peer's connections are searched in turn. */
    method IdInUse(id: nat) returns (used: bool)
      requires Valid() && !stopped
      ensures used <==> id in LiveIds(model.conns)
    {
      var i := 0;
      while i < |lbPeers|
        invariant i <= |lbPeers|
        invariant forall k, j :: 0 <= k < |lbConns| && 0 <= j < i && lbConns[k].lbPeer == lbPeers[j] ==>
          lbConns[k].sccpConnId != id
      {
        used := PeerUsesId(lbPeers[i], id);
        if used {
          return;
        }
        i := i + 1;
      }
      used := false;
      forall k | 0 <= k < |model.conns| ensures model.conns[k].id != id {
        assert ConnOk(lbConns[k], model.conns[k]);
      }
    }

    method PeerUsesId(p: LbPeer, id: nat) returns (used: bool)
      requires Valid() && !stopped
      ensures used ==> id in LiveIds(model.conns)
      ensures !used ==> forall k :: 0 <= k < |lbConns| && lbConns[k].lbPeer == p ==> lbConns[k].sccpConnId != id
    {
      var k := 0;
      while k < |lbConns|
        invariant k <= |lbConns|
        invariant forall j :: 0 <= j < k && lbConns[j].lbPeer == p ==> lbConns[j].sccpConnId != id
      {
        if lbConns[k].lbPeer == p {
          if lbConns[k].sccpConnId == id {
            assert ConnOk(lbConns[k], model.conns[k]);
            return true;
          }
        }
        k := k + 1;
      }
      return false;
    }

    /** Take the next id from the counter. */
    method ProbeNext() returns (id: nat, used: bool)
      requires Valid() && !stopped
      modifies this`nextConnId
      ensures Valid() && id == old(nextConnId) && nextConnId == At(old(nextConnId), 1, ID_SPACE)
      ensures used <==> id in LiveIds(model.conns)
    {
      id := nextConnId;
      nextConnId := (nextConnId + 1) % ID_SPACE;
      used := IdInUse(id);
    }

    /** An unused SCCP connection id, or -1. */
    method NextConnId() returns (id: int)
      requires Valid() && !stopped
      modifies this`nextConnId
      ensures Valid()
      ensures IsFirstFree(LiveIds(model.conns), old(nextConnId), id, nextConnId)
    {
      var k := 0;
      while k < PROBES
        invariant k <= PROBES && Valid() && nextConnId == At(old(nextConnId), k, ID_SPACE)
        invariant AllUsed(LiveIds(model.conns), old(nextConnId), k)
      {
        var connId, used := ProbeNext();
        AtNext(old(nextConnId), k);
        if !used {
          FoundFirst(LiveIds(model.conns), old(nextConnId), k);
          return connId;
        }
        k := k + 1;
      }
      return -1;
    }

    // ----- What the program looks like between two inputs -----

    /** Every listed connection is open and used by its one location request only, which points back to
        it and waits for the timing advance; the peer of the connection is listed and READY, and there
        is at most T-12 left to wait. */
    lemma {:induction false} ConnAtRest(c: LbConn)
      requires Valid() && !stopped && c in lbConns
      ensures !c.freed && !c.closing && c.useCount == multiset{UseLocReq} && |c.useCount| == 1
      ensures c.lbPeer != null && c.lbPeer in lbPeers && c.lbPeer.state == Ready
      ensures c.smlcLocReq != null && c.smlcLocReq.lbConn == c
      ensures c.smlcLocReq.state == ReqWaitTa && !c.smlcLocReq.terminating
      ensures c.smlcLocReq.deadline.Some? && clock <= c.smlcLocReq.deadline.value <= clock + T12
      ensures forall other :: other in lbConns && other.sccpConnId == c.sccpConnId ==> other == c
    {
      var k :| 0 <= k < |lbConns| && lbConns[k] == c;
      PeerOf(k);
      assert ConnInv(model.clock, model.peers, model.conns[k]);
      forall other | other in lbConns && other.sccpConnId == c.sccpConnId ensures other == c {
        var j :| 0 <= j < |lbConns| && lbConns[j] == other;
        assert ConnOk(other, model.conns[j]);
        ConnAt(model.conns, j);
        ConnAt(model.conns, k);
      }
    }

    /** How many connections refer to the subscriber. */
    ghost function RefsTo(cs: seq<LbConn>, s: SmlcSubscr): nat
      reads cs
    {
      if |cs| == 0 then 0 else (if cs[0].smlcSubscr == s then 1 else 0) + RefsTo(cs[1..], s)
    }

    lemma {:induction false} RefsAreCounted(cs: seq<LbConn>, ms: seq<Conn>, s: SmlcSubscr)
      requires DistinctImsis(subscribers) && s in subscribers && s.imsi.Imsi? && |cs| == |ms|
      requires forall k :: 0 <= k < |cs| ==> IsSubscrOf(cs[k].smlcSubscr, ms[k].identity, subscribers)
      ensures RefsTo(cs, s) == CountOf(ms, s.imsi)
    {
      if |cs| == 0 {
      } else {
        assert IsSubscrOf(cs[0].smlcSubscr, ms[0].identity, subscribers);
        UnlinkSubscr(subscribers, s);
        RefsAreCounted(cs[1..], ms[1..], s);
      }
    }

    lemma {:induction false} NoRefs(cs: seq<LbConn>, s: SmlcSubscr)
      ensures RefsTo(cs, s) == 0 <==> forall c :: c in cs ==> c.smlcSubscr != s
    {
      if |cs| == 0 {
      } else {
        NoRefs(cs[1..], s);
        assert cs == [cs[0]] + cs[1..];
      }
    }

    /** The listed subscribers have distinct IMSIs and are exactly those that connections refer to; each
        is used as often as connections refer to it. */
    lemma {:induction false} SubscriberAtRest(s: SmlcSubscr)
      requires Valid() && !stopped
      ensures s in subscribers <==> exists c :: c in lbConns && c.smlcSubscr == s
      ensures s in subscribers ==> !s.freed && |s.useCount| == s.useCount[UseConn] == RefsTo(lbConns, s)
      ensures forall x :: x in subscribers && s in subscribers && x.imsi == s.imsi ==> x == s
    {
      forall k | 0 <= k < |lbConns| ensures IsSubscrOf(lbConns[k].smlcSubscr, model.conns[k].identity, subscribers) {
        assert ConnOk(lbConns[k], model.conns[k]);
      }
      if s in subscribers {
        assert SubscrOk(s);
        UnlinkSubscr(subscribers, s);
        RefsAreCounted(lbConns, model.conns, s);
        NoRefs(lbConns, s);
        assert |ConnUses(CountOf(model.conns, s.imsi))| == CountOf(model.conns, s.imsi);
      }
    }
  }

  /** The program, started anew, hands to SCCP exactly what the model does, for every run. */
  method RunProgram(ins: seq<Input>) returns (trace: seq<Output>)
    ensures trace == Run(INIT, ins).trace
  {
    var smlc := new SmlcState();
    smlc.HandleAll(ins);
    return smlc.trace;
  }
}
