/** What becomes of every single accepted request, over whole runs. */
module LbOutcomes {
  import opened CellIds
  import opened LbModel
  import opened LbInvariants
  import opened LbSessions
  import opened LbFates
  import opened LbAnswers

  // ----- Requests that carry the timing advance -----

  lemma {:induction false} AboutOpen(s: Sys, id: nat, addr: Addr, msg: CoMsg, env: Env, last: seq<Output>)
    requires Open(s, id, addr, msg, env).trace == s.trace + [Opened(id)] + last
    requires forall k :: 0 <= k < |last| ==> Concerns(last[k], id)
    ensures About(Open(s, id, addr, msg, env).trace, id) == About(s.trace, id) + [Opened(id)] + last
  {
    AboutAppend(s.trace + [Opened(id)], last, id);
    AboutAppend(s.trace, [Opened(id)], id);
    AboutAll([Opened(id)], id);
    AboutAll(last, id);
  }

  /** Accepting a request comes down to reading the first message of its new connection. */
  lemma {:induction false} AcceptedOpens(s: Sys, i: Input, s1: Sys)
    requires Inv(s) && Accepts(s, i)
    requires s1 == s.(peers := AddPeer(s.peers, i.ev.calling)).Emit([ConnResp(i.ev.id)])
    ensures Step(s, i) == Open(s1, i.ev.id, i.ev.calling, i.ev.l2.value, i.env)
    ensures s1.conns == s.conns && s1.config == s.config && s1.clock == s.clock
    ensures About(s1.trace, i.ev.id) == About(s.trace, i.ev.id)
  {
    AboutAppend(s.trace, [ConnResp(i.ev.id)], i.ev.id);
    AboutSilent([ConnResp(i.ev.id)], i.ev.id);
  }

  /** A request that carries the timing advance is answered at once, and its connection is gone again. */
  lemma {:induction false} AcceptedWithTaIsAnswered(s: Sys, i: Input, s': Sys, ta: Uint8, pdu: Pdu)
    requires Inv(s) && Accepts(s, i) && s' == Step(s, i)
    requires i.ev.l2.value.req.apdu == Some(TaLayer3(ta))
    requires IsAnswer(i.env, s.config.table, i.ev.l2.value.req.cellId, InRequest(ta), pdu)
    ensures var id := i.ev.id;
            About(s'.trace, id)
            == About(s.trace, id) + [Opened(id)] + (SentOn(i.env, id, pdu) + [Disconnect(id, ByClose)])
    ensures s'.conns == s.conns && !Live(s', i.ev.id)
  {
    var req, id := i.ev.l2.value.req, i.ev.id;
    var s1 := s.(peers := AddPeer(s.peers, i.ev.calling)).Emit([ConnResp(id)]);
    AcceptedOpens(s, i, s1);
    LocateAnswers(i.env, s.config.table, req.cellId, InRequest(ta));
    AnswerIsUnique(i.env, s.config.table, req.cellId, InRequest(ta), pdu,
                   Locate(i.env, s.config.table, req.cellId, ta));
    AboutOpen(s1, id, i.ev.calling, i.ev.l2.value, i.env, SentOn(i.env, id, pdu) + [Disconnect(id, ByClose)]);
  }

  // ----- Requests that wait -----

  /** A request without timing advance waits, and the advance is asked for. */
  lemma {:induction false} AcceptedWithoutTaWaits(s: Sys, i: Input, s': Sys, c: Conn)
    requires Inv(s) && Brings(s, i, c) && s' == Step(s, i)
    ensures s'.conns == [c] + s.conns && c in s'.conns
    ensures About(s'.trace, c.id) == About(s.trace, c.id) + [Opened(c.id)] + SentOn(i.env, c.id, TaRequest)
  {
    var s1 := s.(peers := AddPeer(s.peers, c.addr)).Emit([ConnResp(c.id)]);
    AcceptedOpens(s, i, s1);
    AboutOpen(s1, c.id, c.addr, i.ev.l2.value, i.env, SentOn(i.env, c.id, TaRequest));
  }

  predicate AbortsConn(i: Input, id: nat) {
    match i.ev
    case NData(j, msg) => j == id && msg.PerformLocAbort?
    case NDisconnect(j, l2) => j == id && l2 == Some(PerformLocAbort)
    case _ => false
  }

  ghost predicate IsSettledBy(s: Sys, i: Input, s': Sys, c: Conn, ev: Evidence, pdu: Pdu) {
    && Settles(s.clock, c, i, ev) && IsAnswer(i.env, s.config.table, c.cellId, ev, pdu)
    && Meets(s, s', c, Ends(SentOn(i.env, c.id, pdu)))
  }

  /** The three ways in which a waiting request ends: it is settled and answered, its BSC aborts it, or
      its BSC sends RESET. */
  ghost predicate IsEnd(s: Sys, i: Input, s': Sys, c: Conn) {
    || (exists ev, pdu :: IsSettledBy(s, i, s', c, ev, pdu))
    || (AbortsConn(i, c.id) && Meets(s, s', c, Ends([])))
    || (i.ev == NUnitdata(c.addr, RxReset) && Meets(s, s', c, Dropped))
  }

  lemma {:induction false} MessageIsEnd(s: Sys, i: Input, s': Sys, c: Conn, msg: CoMsg)
    requires i.ev == NData(c.id, msg) || i.ev == NDisconnect(c.id, Some(msg))
    requires Meets(s, s', c, FateOf(s.clock, s.config.table, c, i)) && c !in s'.conns
    ensures IsEnd(s, i, s', c)
  {
    var r := React(i.env, s.config.table, c.cellId, msg);
    ReactionAnswers(i.env, s.config.table, c.cellId, msg);
    if r.Answer? {
      assert IsSettledBy(s, i, s', c, EvidenceIn(msg).value, r.pdu);
    }
  }

  /** Whatever ends a connection is one of the three ways. */
  lemma {:induction false} FateIsEnd(s: Sys, i: Input, s': Sys, c: Conn)
    requires Meets(s, s', c, FateOf(s.clock, s.config.table, c, i)) && c !in s'.conns
    ensures IsEnd(s, i, s', c)
  {
    match i.ev {
      case NData(id, msg) => MessageIsEnd(s, i, s', c, msg);
      case NDisconnect(id, l2) => MessageIsEnd(s, i, s', c, l2.value);
      case RequestTimer(id) => assert IsSettledBy(s, i, s', c, Expired, LocFailure(SystemFailure));
      case _ =>
    }
  }

  /** In one step a waiting request keeps waiting, or it ends in one of the three ways. */
  lemma {:induction false} StepEnd(s: Sys, i: Input, s': Sys, c: Conn)
    requires Inv(s) && c in s.conns && s' == Step(s, i)
    ensures c in s'.conns || (!Live(s', c.id) && IsEnd(s, i, s', c))
  {
    if !s.stopped && c !in s'.conns {
      var k :| 0 <= k < |s.conns| && s.conns[k] == c;
      StepFate(s, i, k);
      FateIsEnd(s, i, s', c);
    }
  }

  ghost predicate IsThere(ins: seq<Input>, n: nat, c: Conn)
    requires n <= |ins|
  {
    c in StateAt(ins, n).conns
  }

  /** The request that c waits for since the n-th input is still waiting when the m-th comes, and no
      longer after it. */
  ghost predicate EndsAt(ins: seq<Input>, n: nat, m: nat, c: Conn)
    requires n < m < |ins|
  {
    WaitsUntil(ins, n, m, c) && !IsThere(ins, m + 1, c)
  }

  ghost predicate WaitsUntil(ins: seq<Input>, n: nat, m: nat, c: Conn)
    requires n < m <= |ins|
  {
    forall j :: n < j <= m ==> IsThere(ins, j, c)
  }

  lemma {:induction false} EndIsEnd(ins: seq<Input>, n: nat, m: nat, c: Conn)
    requires n < m < |ins| && EndsAt(ins, n, m, c)
    ensures !Live(StateAt(ins, m + 1), c.id) && IsEnd(StateAt(ins, m), ins[m], StateAt(ins, m + 1), c)
  {
    assert IsThere(ins, m, c);
    RunInv(ins[..m]);
    StateAtNext(ins, m);
    StepEnd(StateAt(ins, m), ins[m], StateAt(ins, m + 1), c);
  }

  /** If c is not there at some time, it ended before. */
  lemma {:induction false} FindEnd(ins: seq<Input>, n: nat, k: nat, c: Conn) returns (m: nat)
    requires n < k <= |ins| && IsThere(ins, n + 1, c) && !WaitsUntil(ins, n, k, c)
    ensures n < m < k && EndsAt(ins, n, m, c)
    decreases k
  {
    if k == n + 1 || WaitsUntil(ins, n, k - 1, c) {
      m := k - 1;
    } else {
      m := FindEnd(ins, n, k - 1, c);
    }
  }

  /** Over every run, for every request accepted without timing advance: it either still waits, on the
      connection it came with, or has ended at exactly one input, in one of three ways: answered
      with the one answer to what settled it, aborted, or dropped by a RESET of its BSC. */
  lemma {:induction false} OutcomeOfRequest(ins: seq<Input>, n: nat, c: Conn)
    requires n < |ins| && Brings(StateAt(ins, n), ins[n], c)
    ensures WaitsUntil(ins, n, |ins|, c) <==> !exists m: nat :: n < m < |ins| && EndsAt(ins, n, m, c)
    ensures forall m: nat :: n < m < |ins| && EndsAt(ins, n, m, c) ==>
              && !Live(StateAt(ins, m + 1), c.id)
              && IsEnd(StateAt(ins, m), ins[m], StateAt(ins, m + 1), c)
    ensures forall m: nat, m': nat ::
              n < m < |ins| && EndsAt(ins, n, m, c) && n < m' < |ins| && EndsAt(ins, n, m', c) ==> m == m'
  {
    assert c in StateAt(ins, n + 1).conns by {
      RunInv(ins[..n]);
      StateAtNext(ins, n);
      AcceptedWithoutTaWaits(StateAt(ins, n), ins[n], StateAt(ins, n + 1), c);
    }
    if !WaitsUntil(ins, n, |ins|, c) {
      var m := FindEnd(ins, n, |ins|, c);
    }
    forall m: nat | n < m < |ins| && EndsAt(ins, n, m, c)
      ensures !Live(StateAt(ins, m + 1), c.id) && IsEnd(StateAt(ins, m), ins[m], StateAt(ins, m + 1), c)
    {
      EndIsEnd(ins, n, m, c);
    }
  }

  /** Once time has passed the deadline that a request was accepted with, the request has ended. */
  lemma {:induction false} EndsByDeadline(ins: seq<Input>, n: nat, c: Conn)
    requires n < |ins| && Brings(StateAt(ins, n), ins[n], c) && Run(INIT, ins).clock > c.deadline
    ensures exists m: nat :: n < m < |ins| && EndsAt(ins, n, m, c)
  {
    var s := Run(INIT, ins);
    RunInv(ins);
    StateAtEnd(ins);
    forall k | 0 <= k < |s.conns| ensures s.conns[k] != c {
      assert ConnInv(s.clock, s.peers, s.conns[k]);
    }
    assert !IsThere(ins, |ins|, c);
    OutcomeOfRequest(ins, n, c);
  }

  // ----- What is said next on an id -----

  lemma {:induction false} WrongStays(outs: seq<Output>, id: nat)
    ensures After(Wrong, outs, id) == Wrong
    decreases |outs|
  {
    if |outs| == 0 {
    } else {
      assert Next(Wrong, outs[0], id) == Wrong;
      WrongStays(outs[1..], id);
    }
  }

  /** Only what concerns the id moves its phase. */
  lemma {:induction false} AfterAbout(ph: Phase, outs: seq<Output>, id: nat)
    ensures After(ph, outs, id) == After(ph, About(outs, id), id)
    decreases |outs|
  {
    if |outs| == 0 {
    } else {
      AfterAbout(Next(ph, outs[0], id), outs[1..], id);
      assert Concerns(outs[0], id) ==> About(outs, id)[1..] == About(outs[1..], id);
      assert !Concerns(outs[0], id) ==> About(outs, id) == About(outs[1..], id);
    }
  }

  lemma {:induction false} StepGrows(s: Sys, i: Input)
    ensures s.trace <= Step(s, i).trace
  {
    match i.ev {
      case NConnect(id, addr, l2) =>
        if l2.Some? {
          InitialGrows(s.Emit([ConnResp(id)]), id, addr, l2.value, i.env);
        }
      case _ =>
    }
  }

  lemma {:induction false} AboutGrows(ins: seq<Input>, n: nat, m: nat, id: nat)
    requires n <= m <= |ins|
    ensures About(StateAt(ins, n).trace, id) <= About(StateAt(ins, m).trace, id)
    decreases m
  {
    if n == m {
    } else {
      var t, t' := StateAt(ins, m - 1).trace, StateAt(ins, m).trace;
      AboutGrows(ins, n, m - 1, id);
      StateAtNext(ins, m - 1);
      StepGrows(StateAt(ins, m - 1), ins[m - 1]);
      assert t' == t + t'[|t|..];
      AboutAppend(t, t'[|t|..], id);
    }
  }

  /** A connection that stays says nothing. */
  lemma {:induction false} StayingIsSilent(s: Sys, i: Input, s': Sys, c: Conn)
    requires Inv(s) && c in s.conns && s' == Step(s, i) && c in s'.conns
    ensures About(s'.trace, c.id) == About(s.trace, c.id)
  {
    if !s.stopped {
      var k :| 0 <= k < |s.conns| && s.conns[k] == c;
      StepFate(s, i, k);
      var j :| 0 <= j < |s'.conns| && s'.conns[j] == c;
      LiveIff(s', j);
    }
  }

  lemma {:induction false} SilentWhileWaiting(ins: seq<Input>, n: nat, m: nat, c: Conn)
    requires n < m <= |ins| && WaitsUntil(ins, n, m, c)
    ensures About(StateAt(ins, m).trace, c.id) == About(StateAt(ins, n + 1).trace, c.id)
    decreases m
  {
    if m == n + 1 {
    } else {
      assert IsThere(ins, m - 1, c) && IsThere(ins, m, c);
      SilentWhileWaiting(ins, n, m - 1, c);
      RunInv(ins[..m - 1]);
      StateAtNext(ins, m - 1);
      StayingIsSilent(StateAt(ins, m - 1), ins[m - 1], StateAt(ins, m), c);
    }
  }

  /** The next output on the id after the n-th input is data: data is sent before another connection is
      opened with the id. */
  ghost predicate DataFollows(ins: seq<Input>, n: nat, id: nat)
    requires n < |ins|
  {
    var said, all := About(StateAt(ins, n + 1).trace, id), About(StateAt(ins, |ins|).trace, id);
    |said| < |all| && all[|said|].Data?
  }

  /** The connection c, there after the n-th input, is later settled, and the answer can be encoded. */
  ghost predicate IsAnsweredLater(ins: seq<Input>, n: nat, c: Conn)
    requires n < |ins|
  {
    exists m: nat :: n < m < |ins| && EndsAt(ins, n, m, c) && IsAnsweredAt(ins, m, c)
  }

  /** The input settles the request of c, and the answer is sent. */
  ghost predicate IsAnsweredIn(s: Sys, i: Input, s': Sys, c: Conn) {
    exists ev, pdu :: IsSettledBy(s, i, s', c, ev, pdu) && i.env.encodes(pdu)
  }

  ghost predicate IsAnsweredAt(ins: seq<Input>, m: nat, c: Conn)
    requires m < |ins|
  {
    IsAnsweredIn(StateAt(ins, m), ins[m], StateAt(ins, m + 1), c)
  }

  lemma {:induction false} StoppedForGood(ins: seq<Input>, n: nat, m: nat)
    requires n <= m <= |ins| && StateAt(ins, n).stopped
    ensures StateAt(ins, m) == StateAt(ins, n)
    decreases m
  {
    if n == m {
    } else {
      StoppedForGood(ins, n, m - 1);
      StateAtNext(ins, m - 1);
    }
  }

  /** Data cannot be what is said next when the phase is Closed. */
  lemma {:induction false} DataIsWrong(said: seq<Output>, all: seq<Output>, id: nat)
    requires said <= all && |said| < |all| && all[|said|].Data? && Concerns(all[|said|], id)
    requires After(Closed, said, id) == Closed
    ensures After(Closed, all, id) == Wrong
  {
    var next, rest := all[|said|], all[|said| + 1..];
    assert all == said + ([next] + rest);
    AfterAppend(Closed, said, [next] + rest, id);
    AfterAppend(Closed, [next], rest, id);
    AfterOne(Closed, next, id);
    WrongStays(rest, id);
  }

  lemma {:induction false} AboutConcerns(outs: seq<Output>, id: nat)
    ensures forall k :: 0 <= k < |About(outs, id)| ==> Concerns(About(outs, id)[k], id)
  {
    if |outs| == 0 {
    } else {
      AboutConcerns(outs[1..], id);
    }
  }

  /** While there is no connection with the id, what is said next on it is not data. */
  lemma {:induction false} NoDataWhenClosed(ins: seq<Input>, n: nat, id: nat)
    requires n < |ins| && !Live(StateAt(ins, n + 1), id)
    ensures !DataFollows(ins, n, id)
  {
    var t, t' := StateAt(ins, n + 1).trace, StateAt(ins, |ins|).trace;
    if StateAt(ins, n + 1).stopped {
      StoppedForGood(ins, n + 1, |ins|);
    } else if DataFollows(ins, n, id) {
      OutputLanguage(ins[..n + 1], id);
      OutputLanguage(ins[..|ins|], id);
      AboutGrows(ins, n + 1, |ins|, id);
      AfterAbout(Closed, t, id);
      AfterAbout(Closed, t', id);
      AboutConcerns(t', id);
      DataIsWrong(About(t, id), About(t', id), id);
    }
  }

  /** What c says at its end is what follows on its id. */
  lemma {:induction false} EndFollows(ins: seq<Input>, n: nat, m: nat, c: Conn)
    requires n < m < |ins| && EndsAt(ins, n, m, c)
    ensures DataFollows(ins, n, c.id) <==> IsAnsweredAt(ins, m, c)
  {
    var s, s', i := StateAt(ins, m), StateAt(ins, m + 1), ins[m];
    var said, all := About(StateAt(ins, n + 1).trace, c.id), About(StateAt(ins, |ins|).trace, c.id);
    EndIsEnd(ins, n, m, c);
    SilentWhileWaiting(ins, n, m, c);
    AboutGrows(ins, m + 1, |ins|, c.id);
    EndSays(s, i, s', c);
    var words := About(s'.trace, c.id);
    assert words <= all && words[|said|] == all[|said|];
  }

  /** The first of the last words is data exactly if the request was answered. */
  lemma {:induction false} EndSays(s: Sys, i: Input, s': Sys, c: Conn)
    requires IsEnd(s, i, s', c)
    ensures var said, words := About(s.trace, c.id), About(s'.trace, c.id);
            said < words && (words[|said|].Data? <==> IsAnsweredIn(s, i, s', c))
  {
    if ev, pdu :| IsSettledBy(s, i, s', c, ev, pdu) {
      forall ev', pdu' | IsSettledBy(s, i, s', c, ev', pdu') ensures i.env.encodes(pdu') <==> i.env.encodes(pdu) {
        SettledOnce(s, i, s', c, ev, pdu, ev', pdu');
      }
    }
  }

  lemma {:induction false} SettledOnce(
      s: Sys, i: Input, s': Sys, c: Conn, ev: Evidence, pdu: Pdu, ev': Evidence, pdu': Pdu)
    requires IsSettledBy(s, i, s', c, ev, pdu) && IsSettledBy(s, i, s', c, ev', pdu')
    ensures ev == ev' && pdu == pdu'
  {
    AnswerIsUnique(i.env, s.config.table, c.cellId, ev, pdu, pdu');
  }

  /** Over every run, after every input, whatever SCCP was told by it: data is sent on an id before a new
      connection is opened with it, exactly if there is a connection with the id whose request is later
      settled by an answer that can be encoded. In particular SCCP is handed data on an id after the
      program has answered a disconnect on it, or refused a connection with it, exactly in that case. */
  lemma {:induction false} DataFollowsIff(ins: seq<Input>, n: nat, id: nat)
    requires n < |ins|
    ensures var s := StateAt(ins, n + 1);
            DataFollows(ins, n, id) <==> Live(s, id) && IsAnsweredLater(ins, n, s.conns[IndexOfConn(s.conns, id)])
  {
    var s := StateAt(ins, n + 1);
    if Live(s, id) {
      var c := s.conns[IndexOfConn(s.conns, id)];
      if WaitsUntil(ins, n, |ins|, c) {
        SilentWhileWaiting(ins, n, |ins|, c);
      } else {
        var m := FindEnd(ins, n, |ins|, c);
        EndFollows(ins, n, m, c);
        forall m': nat | n < m' < |ins| && EndsAt(ins, n, m', c) ensures m' == m {
        }
      }
    } else {
      NoDataWhenClosed(ins, n, id);
    }
  }
}
