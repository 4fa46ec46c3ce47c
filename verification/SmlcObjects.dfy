/** The objects of the location server: peers, connections, location requests and subscribers as the
    program links them, and the lists it keeps them in. */
module SmlcObjects {
  import opened CellIds
  import opened LbModel

  // ----- Lists -----

  ghost predicate NoDup<T>(s: seq<T>) {
    forall i, j :: 0 <= i < j < |s| ==> s[i] != s[j]
  }

  /** The list without the given element. */
  function Unlink<T(==)>(s: seq<T>, x: T): seq<T> {
    if |s| == 0 then [] else if s[0] == x then s[1..] else [s[0]] + Unlink(s[1..], x)
  }

  lemma {:induction false} UnlinkAt<T>(s: seq<T>, k: nat)
    requires k < |s| && forall j :: 0 <= j < k ==> s[j] != s[k]
    ensures Unlink(s, s[k]) == s[..k] + s[k + 1..]
  {
    if k == 0 {
    } else {
      UnlinkAt(s[1..], k - 1);
    }
  }

  lemma {:induction false} UnlinkMembers<T>(list: seq<T>, k: nat)
    requires NoDup(list) && k < |list|
    ensures forall x :: x in Unlink(list, list[k]) <==> x in list && x != list[k]
  {
    UnlinkAt(list, k);
    var rest := list[..k] + list[k + 1..];
    forall x | x in list && x != list[k] ensures x in rest {
      var j :| 0 <= j < |list| && list[j] == x;
      assert rest[if j < k then j else j - 1] == x;
    }
    forall j | 0 <= j < |rest| ensures rest[j] in list && rest[j] != list[k] {
      var i := if j < k then j else j + 1;
      assert rest[j] == list[i];
    }
  }

  // ----- Objects -----

  datatype ConnUse = UseLocReq | UseReady | UseStart
  datatype SubscrUse = UseConn | UseStarting

  function ConnUses(n: nat): multiset<SubscrUse> {
    multiset{}[UseConn := n]
  }

  class LbPeer {
    const addr: Addr
    var state: PeerState
    var deadline: Option<nat>

    constructor (addr: Addr)
      ensures this.addr == addr && state == WaitRxReset && deadline == None
    {
      this.addr, state, deadline := addr, WaitRxReset, None;
    }
  }

  class SmlcSubscr {
    const imsi: Identity
    var useCount: multiset<SubscrUse>
    ghost var freed: bool

    constructor (imsi: Identity)
      ensures this.imsi == imsi && useCount == multiset{} && !freed
    {
      this.imsi, useCount, freed := imsi, multiset{}, false;
    }
  }

  datatype ReqState = ReqInit | ReqWaitTa | ReqGotTa | ReqFailed

  class SmlcLocReq {
    const lbConn: LbConn
    const req: LocReq
    var state: ReqState
    var deadline: Option<nat>
    var terminating: bool
    var taPresent: bool
    var ta: Uint8
    var latestCellId: CellId
    var lcsCause: Option<Cause>

    constructor (lbConn: LbConn, req: LocReq)
      ensures this.lbConn == lbConn && this.req == req && state == ReqInit && deadline == None
      ensures !terminating && !taPresent && latestCellId == req.cellId && lcsCause == None
    {
      this.lbConn, this.req, state, deadline, terminating := lbConn, req, ReqInit, None, false;
      taPresent, ta, latestCellId, lcsCause := false, 0, req.cellId, None;
    }
  }

  class LbConn {
    const sccpConnId: nat
    var lbPeer: LbPeer?
    var closing: bool
    var smlcSubscr: SmlcSubscr?
    var smlcLocReq: SmlcLocReq?
    var useCount: multiset<ConnUse>
    ghost var freed: bool

    constructor (lbPeer: LbPeer, sccpConnId: nat)
      ensures this.lbPeer == lbPeer && this.sccpConnId == sccpConnId && !closing && !freed
      ensures smlcSubscr == null && smlcLocReq == null && useCount == multiset{}
    {
      this.lbPeer, this.sccpConnId, closing, freed := lbPeer, sccpConnId, false, false;
      smlcSubscr, smlcLocReq, useCount := null, null, multiset{};
    }
  }

  datatype ReqEvent = RxTaResponse(ta: Uint8, ci: Uint16) | RxBsslapReset(ta: Uint8, ci: Uint16) | RxAbort

  /** Rank of the request states: transitions only go up. */
  function Rank(st: ReqState): nat {
    match st case ReqInit => 0 case ReqWaitTa => 1 case ReqGotTa => 2 case ReqFailed => 3
  }

  /** The transitions the request state machine permits. */
  predicate MayEnter(from: ReqState, to: ReqState) {
    match from
    case ReqInit => to == ReqWaitTa || to == ReqFailed
    case ReqWaitTa => to == ReqGotTa || to == ReqFailed
    case ReqGotTa => to == ReqFailed
    case ReqFailed => false
  }

  // ----- Walking and searching the lists -----

  /** The element after x, or null at the end of the list. */
  function After(s: seq<LbConn>, x: LbConn): LbConn? {
    if |s| == 0 then null else if s[0] == x then First(s[1..]) else After(s[1..], x)
  }

  function First(s: seq<LbConn>): LbConn? {
    if |s| == 0 then null else s[0]
  }

  lemma {:induction false} AfterAt(s: seq<LbConn>, k: nat)
    requires NoDup(s) && k < |s|
    ensures After(s, s[k]) == First(s[k + 1..])
  {
    if k == 0 {
    } else {
      AfterAt(s[1..], k - 1);
      assert s[1..][k..] == s[k + 1..];
    }
  }

  /** s is the listed subscriber with the given IMSI, or none if the identity is something else. */
  ghost predicate IsSubscrOf(s: SmlcSubscr?, identity: Identity, list: seq<SmlcSubscr>) {
    if identity.Imsi? then s != null && s in list && s.imsi == identity else s == null
  }

  ghost predicate DistinctImsis(list: seq<SmlcSubscr>) {
    forall i, j :: 0 <= i < j < |list| ==> list[i].imsi != list[j].imsi
  }

  lemma {:induction false} UnlinkSubscr(list: seq<SmlcSubscr>, s: SmlcSubscr)
    requires DistinctImsis(list) && s in list
    ensures DistinctImsis(Unlink(list, s))
    ensures forall x :: x in Unlink(list, s) <==> x in list && x != s
    ensures forall x :: x in list && x != s ==> x.imsi != s.imsi
  {
    var i :| 0 <= i < |list| && list[i] == s;
    UnlinkAt(list, i);
    UnlinkMembers(list, i);
  }
}
