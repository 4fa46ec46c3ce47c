# Verification of osmo-smlc

osmo-smlc is the Serving Mobile Location Centre on the Lb interface: BSCs ask it over SCCP where a phone is
(3GPP TS 49.031, sections 9.1 to 9.3), it asks back for the timing advance over BSSLAP (3GPP TS 48.071) and
answers with the configured position of the serving cell and an uncertainty. This project models that engine
and proves what it does over every sequence of inputs.

There are two levels, and a proof that they agree:

- `Smlc.dfy`, with its objects in `SmlcObjects.dfy`, is the program: peers, connections, location requests and
  subscribers are objects linked to each other, use counts have callbacks, tearing down a connection re-enters
  itself, lists shrink while they are walked. A connection that is freed is marked, and the methods that send
  on, close or drop a connection or give back a use of it require one that is not.
- `LbModel.dfy` is the interface seen from outside: a state, one step for each input, and a trace of what is
  handed to SCCP. `Smlc.SmlcState.Handle` is proved to take exactly that step for every input, and
  `Smlc.RunProgram` to emit exactly that trace for every run.

What holds over all steps and runs is proved about the interface: `LbInvariants.dfy` (the invariant),
`LbSteps.dfy` (what is handed to SCCP, input by input), `LbConfig.dfy` (what command lines mean and do),
`LbSessions.dfy` (the output language of a connection), `LbFates.dfy` (what an input does to each connection,
the balance of requests), `LbAnswers.dfy` (from request to response), `LbOutcomes.dfy` (what becomes of each
request), `LbPeers.dfy` (RESET procedure), `LbTime.dfy` (timers, and that time passes), `LbIntents.dfy` (where the
code does less than its comments say). `CellIds.dfy`, `CellLocations.dfy`, `CellConfig.dfy` and
`Decimal.dfy` hold the cell table and its configuration text, `ConnIds.dfy` the choice of connection ids.

## Assumptions

- An input is an SCCP primitive, the expiry of a timer, the passage of time, or a configuration line, and is
  handled to completion. Time passes only up to the next deadline, because the main loop runs due timers
  before it waits; a due timer may still be handled after other inputs of the same moment. That time can
  nevertheless always pass, because the timers can run, is `LbTime.TimePasses`.
- Messages arrive decoded. `Env` says for each step which PDUs and estimates the encoders accept, how the
  uncertainty is rounded, and what sending connection-less data returns; any result other than 0 is a
  failure, as in the code.
- Two cell identifiers match exactly if they are equal, and loosely if they agree on every part that both
  carry; an identifier that names no PLMN, LAC or CI matches no other one loosely (3GPP TS 48.008, section
  3.2.2.17). Addresses and IMSIs are compared by equality.
- An FSM rejects events outside the mask of its state; a state change clears the old timer; terminating an
  instance a second time does nothing, and its memory is released only after the step
  (src/osmo-smlc/smlc_main.c:238). A use count calls back after it has been updated.
- T-12 and T-13 are 5 seconds: T-12 by its definition (src/osmo-smlc/smlc_data.c:23), T-13 by the default in
  src/osmo-smlc/lb_peer.c:89.
- Coordinates are printed without trailing zeros and parsed with surplus digits cut off; the digits before or
  after the point may be absent. An MNC counts as
  three digits when it is written with three, and one above 99 always is.

## Where the code and its comments differ

The model follows the code.

- src/osmo-smlc/sccp_lb_inst.c:145 says that the connection is dropped on N-DISCONNECT. The call only
  transmits. `LbIntents.DisconnectDropsIff` gives the exact condition, `DisconnectCanKeep` a run, and
  `LbOutcomes.DataFollowsIff` says when data is still sent on the id afterwards.
- src/osmo-smlc/smlc_loc_req.c:127 looks for another connection of the subscriber, but searches with the
  subscriber of the requesting connection, which is not set yet. The search finds the requesting connection
  (`Smlc.SmlcState.ConnFindOther`); a subscriber may have several connections
  (`LbIntents.OnePerSubscriberAllAlong`, `TwoForOneSubscriber`).
- src/osmo-smlc/smlc_loc_req.c:216 uses the location request without a check. When it is missing the model
  stops for good; `LbIntents.StopsIff` says exactly when, `FirstAbortStops` gives runs.
- src/osmo-smlc/lb_peer.c:211 announces a disconnect for a first message in WAIT_RX_RESET. The function called
  looks the connection object up, which does not exist, and sends nothing, although SCCP has just been told
  that the connection is accepted. `LbIntents.ConfirmedIsForgottenIff` gives the exact
  condition, `FirstConnectIsForgotten` a run.

## Model

| member | source | states |
|---|---|---|
| LbInvariants.RunInv | src/osmo-smlc/lb_peer.c:277-300 | after every run, connection ids and peer addresses are distinct, every connection belongs to a READY peer and has 0 to T-12 left, T-13 runs exactly in WAIT_RX_RESET_ACK, and no two table entries match each other |
| LbInvariants.StepInv | src/osmo-smlc/sccp_lb_inst.c:88-174 | one primitive, timer, passage of time or command keeps all of that |
| LbSteps.StepSays | src/osmo-smlc/sccp_lb_inst.c:88-174 | for every state and input, exactly which outputs are handed to SCCP and in which order, as a table over the messages, the live connections and the peer states that names each PDU |
| LbSteps.SaidOnce | src/osmo-smlc/sccp_lb_inst.c:88-174 | the table determines the outputs |
| LbSteps.StepMoves | src/osmo-smlc/sccp_lb_inst.c:88-174 | the clock moves only when told to, forward, and past no deadline, and then nothing else; the table of cells moves only by commands, and then nothing else |
| LbSessions.OutputLanguage | src/osmo-smlc/smlc_loc_req.c:245-270 | for every run and id: TA Request at most once, response at most once, then the Disconnect of a closed connection; a dropped connection had sent no response; a connection is live exactly if its sequence is unfinished |
| LbSessions.StepPhase | src/osmo-smlc/lb_conn.c:141-188 | one step keeps the sequence of every id in order |
| LbFates.StepFate | src/osmo-smlc/smlc_loc_req.c:171-228 | whether a connection stays, is dropped or ends, and all that is sent on it, depends on its own request, the table and the input only; every other connection stays as it is |
| LbFates.RequestsBalance | src/osmo-smlc/smlc_loc_req.c:325-384 | in numbers, over every run: responses sent, connections dropped by RESET, requests aborted and requests still waiting never exceed the requests accepted, and equal them if the responses can be encoded |
| LbFates.StepTotal | src/osmo-smlc/smlc_loc_req.c:95-169 | the balance moves by one for an accepted request and by one for an aborted one, and otherwise only loses responses that cannot be encoded |
| LbOutcomes.OutcomeOfRequest | src/osmo-smlc/smlc_loc_req.c:171-197 | over every run, each single request accepted without TA waits on its connection until exactly one input ends it: one that settles it, and the one answer to that is sent if it can be encoded; or an abort, and nothing is sent; or a RESET of its peer, and it is dropped |
| LbOutcomes.AcceptedWithTaIsAnswered | src/osmo-smlc/smlc_loc_req.c:245-257 | a request that carries its TA gets its answer within the step, if it can be encoded, then the Disconnect, and leaves no connection |
| LbOutcomes.AcceptedWithoutTaWaits | src/osmo-smlc/smlc_loc_req.c:259-269 | any other accepted request adds one connection in front, with five seconds to wait, and TA Request is sent on it if it can be encoded |
| LbSteps.LiveIsAsked | src/osmo-smlc/smlc_loc_req.c:259-269 | over every run: on each live connection TA Request has been sent, if it could be encoded when the request was accepted, and nothing else |
| LbOutcomes.EndsByDeadline | src/osmo-smlc/smlc_loc_req.c:238-243 | a request has ended, in one of those ways, by the time its deadline has passed |
| LbTime.TimePasses | src/osmo-smlc/smlc_loc_req.c:55-66 | from every state, and whatever the libraries answer on the way, timers and time alone lead to any later time without stopping; every request due before has then timed out (system-failure sent if it can be encoded at that input, and closed), every later one is untouched, every overdue wait for an acknowledgement is back in WAIT_RX_RESET |
| LbTime.DueTimersHaveRun | src/osmo-smlc/smlc_loc_req.c:238-243 | the same, with the time reached, for every way to interleave timers and time, each input with its own library answers |
| LbTime.QuietRun | src/osmo-smlc/lb_peer.c:332-337 | while only timers run, a connection times out at its deadline or stays, a peer falls back at its deadline or stays, nothing is added, and a connection that is gone says nothing more |
| LbAnswers.EveryResponseAnswersItsRequest | src/osmo-smlc/smlc_loc_req.c:287-384 | over every run, each response is the one answer to a request accepted earlier on that id, which has been live without change since, from what settled it and the table of that moment |
| LbAnswers.SettledIsAnswered | src/osmo-smlc/smlc_loc_req.c:171-197 | a waiting request that is settled by TA Response, Reset, Abort, Reject or the timer is answered with that answer if it can be encoded, and its connection is closed |
| LbAnswers.ReactionAnswers | src/osmo-smlc/smlc_loc_req.c:272-323 | a message is answered exactly if it settles the request, with the answer for the cell of the request with the reported CI put in; only Perform Location Abort abandons it |
| LbAnswers.CausesOfAnswers | src/osmo-smlc/smlc_loc_req.c:325-384 | request-aborted exactly for BSSLAP Abort or Reject, system-failure exactly for timeout, an estimate exactly if a TA arrived, an entry matches and the circle can be encoded, with the position of that entry and the uncertainty of the TA |
| LbAnswers.AnswerIsUnique | src/osmo-smlc/cell_locations.c:57-76 | a request, what settles it and a table admit one answer |
| LbAnswers.LookupFindsEntry | src/osmo-smlc/cell_locations.c:43-55 | the search yields the first exact entry or else the first agreeing one, and fails only if none agrees |
| LbAnswers.OrderDoesNotMatter | src/osmo-smlc/cell_locations.c:43-55 | in a table without overlaps the answer for a full CGI comes from whichever entry agrees with it, wherever it stands |
| LbAnswers.Origin | src/osmo-smlc/smlc_loc_req.c:147-168 | every live connection was brought by an accepted request of the run with the same id, peer, subscriber and cell, has been live with that one deadline ever since, and not longer than T-12 |
| LbAnswers.ResponseSource | src/osmo-smlc/smlc_loc_req.c:245-257 | a response leaves in a step only for a request accepted with its TA or for a waiting request that ends, and is all that is sent then |
| LbPeers.StepView | src/osmo-smlc/lb_peer.c:199-337 | what an input does to the state and timer of a peer, for all peers and inputs: the transition table of the RESET procedure, and independence of the other peers |
| LbPeers.ReadyHistory | src/osmo-smlc/lb_peer.c:101-138 | after every run a peer is READY exactly if a handshake was completed since its RESET last could not be acknowledged |
| LbSteps.ReadyWasAcknowledged | src/osmo-smlc/lb_peer.c:101-168 | over every run: a READY peer was sent RESET ACKNOWLEDGE with success, or acknowledged a RESET that was sent with success |
| LbSteps.ResetIsAcknowledged | src/osmo-smlc/lb_peer.c:104-129 | RESET is answered by RESET ACKNOWLEDGE as the last output if it can be encoded, by nothing otherwise |
| LbPeers.AwaitHistory | src/osmo-smlc/lb_peer.c:140-168 | whenever an acknowledgement is awaited, RESET was handed to SCCP with success when the wait began, at most T-13 ago |
| LbPeers.ResetDropsOnePeer | src/osmo-smlc/lb_peer.c:91-133 | RESET removes all connections of its peer and no other, keeps the order of the others, lowers each subscriber's count by its removed connections, hands nothing to SCCP but RESET ACKNOWLEDGE, and moves no other peer |
| LbIntents.DisconnectDropsIff | src/osmo-smlc/sccp_lb_inst.c:134-149 | N-DISCONNECT drops its connection exactly if it carries a message that ends the request anyway |
| LbSteps.DisconnectIsAnswered | src/osmo-smlc/sccp_lb_inst.c:134-149 | every N-DISCONNECT, with any message or none, is answered by a disconnect of its id, last and once |
| LbIntents.DisconnectCanKeep | src/osmo-smlc/sccp_lb_inst.c:145-148 | a run in which the connection outlives its N-DISCONNECT |
| LbOutcomes.DataFollowsIff | src/osmo-smlc/sccp_lb_inst.c:134-149 | over every run, after every input: data is still sent on an id before a new connection opens with it exactly if a connection with the id is live and its request is later settled by an encodable answer; so also after the id was reported disconnected or a connection with it refused |
| LbIntents.DataAfterDisconnect | src/osmo-smlc/sccp_lb_inst.c:145-148 | from every state with a request that is due: N-DISCONNECT is answered, and the failure response and a second Disconnect still follow on the id |
| LbIntents.RefusalHitsTheOther | src/osmo-smlc/sccp_lb_inst.c:118-124 | refusing a connection on a live id sends the Disconnect for that id while the live connection stays |
| LbIntents.OnePerSubscriberIff | src/osmo-smlc/smlc_loc_req.c:127-140 | a step keeps at most one connection for each subscriber exactly if it does not accept a waiting request for a subscriber that has one |
| LbIntents.OnePerSubscriberAllAlong | src/osmo-smlc/smlc_loc_req.c:127-140 | over every run: every subscriber has at most one connection all along exactly if no waiting request is ever accepted for a subscriber that has one |
| LbIntents.TwoForOneSubscriber | src/osmo-smlc/smlc_loc_req.c:128 | a run that leaves two live connections for one subscriber |
| LbIntents.StopsIff | src/osmo-smlc/smlc_loc_req.c:216-221 | the unchecked request pointer is null in a run exactly if some first message of a READY peer is Perform Location Abort or a BSSLAP message that needs a request; never for a later message |
| LbIntents.FirstAbortStops | src/osmo-smlc/smlc_loc_req.c:216-221 | two runs, with a first Perform Location Abort and a first BSSLAP Abort, that end with the missing request |
| LbIntents.AbortCanStop | src/osmo-smlc/smlc_loc_req.c:171-228 | a run of this kind for every message that needs a request |
| LbIntents.ConfirmedIsForgottenIff | src/osmo-smlc/lb_peer.c:207-220 | a confirmed connection gets neither a connection object nor a Disconnect exactly if its id is not live and its peer is unknown or in WAIT_RX_RESET, or the program stops on it |
| LbIntents.FirstConnectIsForgotten | src/osmo-smlc/lb_peer.c:211-219 | the run in which the first input is a connection: it is confirmed, RESET is sent, and no Disconnect |
| LbIntents.DataReachesItsOwner | src/osmo-smlc/lb_peer.c:443-466 | a message for an unknown id changes nothing; one for a live id leaves all other connections, the peers and the table alone |
| Smlc.RunProgram | src/osmo-smlc/sccp_lb_inst.c:88-174 | for every sequence of inputs the program with its objects, lists and use counts emits exactly the trace of the model |
| Smlc.SmlcState.Handle | src/osmo-smlc/sccp_lb_inst.c:88-174 | one input to completion: the invariant of the objects holds again and the step is the one of the model |
| Smlc.SmlcState.HandleAll | src/osmo-smlc/sccp_lb_inst.c:88-174 | the same for every sequence of inputs |
| Smlc.SmlcState.ConnAtRest | src/osmo-smlc/lb_peer.c:277-300 | between inputs every listed connection is open, owns one request that points back and waits for the TA, has total use count 1 under the token of the request, and belongs to a listed READY peer; its id is unique |
| Smlc.SmlcState.SubscriberAtRest | src/osmo-smlc/smlc_subscr.c:34-110 | between inputs the listed subscribers are exactly those that connections refer to, with distinct IMSIs, and the use count equals the number of those connections |
| Smlc.SmlcState.SubscrPut | src/osmo-smlc/smlc_subscr.c:28-61 | a use is dropped; with the last one the subscriber leaves the list and is freed |
| Smlc.SmlcState.SubscrFind | src/osmo-smlc/smlc_subscr.c:81-94 | finds the subscriber with the IMSI and takes a use, or proves there is none; the others are untouched |
| Smlc.SmlcState.SubscrFindOrCreate | src/osmo-smlc/smlc_subscr.c:96-110 | the listed subscriber gains a use, or a new one is appended |
| Smlc.SmlcState.ConnPut | src/osmo-smlc/lb_conn.c:38-65 | the last use closes the connection within the call, any other only lowers the count |
| Smlc.SmlcState.ConnUseCallback | src/osmo-smlc/lb_conn.c:59-64 | closes exactly at total zero |
| Smlc.SmlcState.ConnClose | src/osmo-smlc/lb_conn.c:165-188 | a second close does nothing; the first sends one Disconnect if the peer is still set, terminates the request once, releases the subscriber once, unlinks and frees; the recursion through termination, cleanup, put and callback ends by an explicit measure |
| Smlc.SmlcState.ConnDiscard | src/osmo-smlc/lb_conn.c:191-198 | the same without any Disconnect |
| Smlc.SmlcState.RequestTerminate | src/osmo-smlc/smlc_loc_req.c:386-393 | termination is idempotent; the first one detaches the request, and closes the connection if nobody else uses it |
| Smlc.SmlcState.RequestCleanup | src/osmo-smlc/smlc_loc_req.c:386-393 | takes the request off its connection and gives its use back, once |
| Smlc.SmlcState.ConnSend | src/osmo-smlc/lb_conn.c:115-162 | data is handed to SCCP exactly if it can be encoded, the peer is still set and READY |
| Smlc.SmlcState.RequestStateChange | src/osmo-smlc/smlc_loc_req.c:397-430 | transitions only go up; entering a state stops the old timer and only WAIT_TA starts one, so the timer runs afterwards exactly if the TA was asked for; the answer that the entry actions come to |
| Smlc.SmlcState.WaitTaOnEnter | src/osmo-smlc/smlc_loc_req.c:245-270 | a TA in the request is answered at once, otherwise it is asked for |
| Smlc.SmlcState.WaitTaAction | src/osmo-smlc/smlc_loc_req.c:287-323 | TA Response and Reset are answered for the updated cell, Abort ends the request silently |
| Smlc.SmlcState.GotTaOnEnter | src/osmo-smlc/smlc_loc_req.c:325-370 | the estimate for the cell or the cause of failure is sent once and the connection is closed |
| Smlc.SmlcState.FailedOnEnter | src/osmo-smlc/smlc_loc_req.c:372-384 | the failure cause is sent once and the connection is closed |
| Smlc.SmlcState.RequestTimeout | src/osmo-smlc/smlc_loc_req.c:238-243 | failure is sent once although termination is requested twice |
| Smlc.SmlcState.RxConnOrientedInfo | src/osmo-smlc/smlc_loc_req.c:171-197 | which APDU leads to which reaction, and when a request is needed |
| Smlc.SmlcState.CellLocationFromTa | src/osmo-smlc/cell_locations.c:57-76 | the position found by the search with the rounded uncertainty |
| Smlc.SmlcState.ConnFindBySubscr | src/osmo-smlc/lb_conn.c:103-113 | the first connection with the subscriber gains a use; the others are untouched |
| Smlc.SmlcState.ConnFindOther | src/osmo-smlc/smlc_loc_req.c:127-128 | the search for another connection always finds the requesting connection itself |
| Smlc.SmlcState.ConnTakeSubscr | src/osmo-smlc/smlc_loc_req.c:127-145 | attaching a subscriber closes no connection, and the temporary uses balance |
| Smlc.SmlcState.ConnSubscribe | src/osmo-smlc/smlc_loc_req.c:109-145 | a connection with another subscriber is refused and nothing remains of the attempt; otherwise it gets the subscriber |
| Smlc.SmlcState.RequestStart | src/osmo-smlc/smlc_loc_req.c:95-169 | a second request is ignored, an IMSI mismatch refused; otherwise the request waits or has been answered, with the subscriber attached, or kept if the connection has it already or the request names none |
| Smlc.SmlcState.ConnRx | src/osmo-smlc/smlc_loc_req.c:199-228 | the effect of every message with and without a request |
| Smlc.SmlcState.ConnUpCo | src/osmo-smlc/lb_peer.c:293-300 | a later message changes the objects as the model says and leaves everything consistent |
| Smlc.SmlcState.ConnUpCoInitial | src/osmo-smlc/lb_peer.c:277-291 | the same for the first message of a connection, whether the connection stays, is gone again, or the program stops |
| Smlc.SmlcState.ConnTimeout | src/osmo-smlc/smlc_loc_req.c:238-243 | T-12 of a connection ends it as the model says |
| Smlc.SmlcState.PeerFind | src/osmo-smlc/lb_peer.c:72-81 | the peer with the address, or proof that there is none |
| Smlc.SmlcState.PeerFindOrCreate | src/osmo-smlc/lb_peer.c:64-70 | a new peer is put first, in WAIT_RX_RESET; nothing else changes |
| Smlc.SmlcState.PeerSetState | src/osmo-smlc/lb_peer.c:83-89 | the old timer stops; only WAIT_RX_RESET_ACK starts T-13 |
| Smlc.SmlcState.PeerDiscardAllConns | src/osmo-smlc/lb_peer.c:91-98 | walking the shrinking list drops exactly the connections of the peer, in order |
| Smlc.SmlcState.PeerRxReset | src/osmo-smlc/lb_peer.c:101-133 | drop the connections, acknowledge, become READY; fall back to WAIT_RX_RESET if that fails |
| Smlc.SmlcState.PeerReset | src/osmo-smlc/lb_peer.c:140-168 | send RESET and wait; fall back to WAIT_RX_RESET if that fails |
| Smlc.SmlcState.PeerUpCoInitial | src/osmo-smlc/lb_peer.c:199-291 | a first message by the state of the peer |
| Smlc.SmlcState.PeerUpCo | src/osmo-smlc/lb_peer.c:293-300 | a later message only ever meets a READY peer |
| Smlc.SmlcState.PeerUpCl | src/osmo-smlc/lb_peer.c:170-197 | RESET in every state, an acknowledgement only where it is awaited |
| Smlc.SmlcState.PeerUpL2 | src/osmo-smlc/lb_peer.c:433-484 | refused exactly if a new connection uses a live id or an old one an unknown id |
| Smlc.SmlcState.PeerDisconnect | src/osmo-smlc/lb_peer.c:486-495 | drops the one connection with the id, silently, or changes nothing |
| Smlc.SmlcState.PeerTimerDue | src/osmo-smlc/lb_peer.c:332-337 | T-13 leads back to WAIT_RX_RESET |
| Smlc.SmlcState.ConnectInd | src/osmo-smlc/sccp_lb_inst.c:99-124 | N-CONNECT: response, dispatch, and a disconnect if refused |
| Smlc.SmlcState.DisconnectInd | src/osmo-smlc/sccp_lb_inst.c:134-149 | N-DISCONNECT: dispatch of the payload, then a disconnect that only transmits |
| Smlc.SmlcState.NextConnId | src/osmo-smlc/sccp_lb_inst.c:35-65 | the id is the first one not live in cyclic order from the counter, or -1 after 2^24-1 probes |
| Smlc.SmlcState.IdInUse | src/osmo-smlc/sccp_lb_inst.c:49-59 | the search over peers and their connections amounts to membership in the live ids |
| ConnIds.GivesUpOnlyWhenFull | src/osmo-smlc/sccp_lb_inst.c:43-64 | an id returned is below 2^24 and free; -1 is returned exactly if every id but possibly the one before the counter is used, hence only with at least 2^24-1 ids in use |
| ConnIds.Pigeonhole | src/osmo-smlc/sccp_lb_inst.c:43-64 | k probed ids in use are k different ids |
| CellLocations.CellTable.Find | src/osmo-smlc/cell_locations.c:43-55 | the two loops compute the two-pass search |
| CellLocations.CellTable.SetLocation | src/osmo-smlc/cell_locations.c:78-97 | overwrites the entry found, keeping its identifier, or appends |
| CellLocations.CellTable.RemoveLocation | src/osmo-smlc/cell_locations.c:99-107 | removes the entry found, or fails |
| CellLocations.SetKeepsDisjoint | src/osmo-smlc/cell_locations.c:78-97 | setting creates no overlap |
| CellLocations.RemoveKeepsDisjoint | src/osmo-smlc/cell_locations.c:99-107 | removing creates no overlap |
| CellLocations.LookupIsOneScan | src/osmo-smlc/cell_locations.c:43-55 | without overlaps the two passes amount to one loose scan |
| CellLocations.CgiMatchesAtMostOne | src/osmo-smlc/cell_locations.c:43-55 | a full CGI agrees with at most one entry |
| CellLocations.SetThenLookup | src/osmo-smlc/cell_locations.c:78-97 | after setting, the search yields the new coordinates, at the place found before or the end; all other entries are unchanged |
| CellLocations.RemoveDeletesOne | src/osmo-smlc/cell_locations.c:99-107 | exactly the entry found is gone |
| CellLocations.RemoveThenLookup | src/osmo-smlc/cell_locations.c:99-107 | an identifier configured itself is unknown after its removal |
| CellIds.UpdateCiKeepsTheRest | src/osmo-smlc/smlc_loc_req.c:272-285 | the 16-bit CI survives the signed parameter and replaces the CI; kind, PLMN and LAC stay; doing it twice is doing it once |
| CellIds.MatchesIffCommonCell | src/osmo-smlc/cell_locations.c:46-53 | an exact match is equality; two identifiers match loosely exactly if some cell fits both |
| LbConfig.LinesAreRead | src/osmo-smlc/cell_locations.c:119-245 | which text names which cell, sets which position and removes which cell: LAC before CI, MCC before MNC, 16-bit ranges, three-digit MNCs, latitude before longitude |
| LbConfig.DegreesAreRead | src/osmo-smlc/cell_locations.c:157-176 | a text is accepted as a coordinate exactly if it is a number of degrees within the limit, and is read as its millionths |
| LbConfig.SetLineSets | src/osmo-smlc/cell_locations.c:193-230 | a set line writes latitude and longitude into the entry for the cell, or appends one; nothing else changes |
| LbConfig.RemoveLineRemoves | src/osmo-smlc/cell_locations.c:205-245 | a remove line deletes the entry for the cell and no other, nothing if there is none; a cell configured itself is unknown afterwards |
| LbConfig.OtherLines | src/osmo-smlc/cell_locations.c:185-245 | entering the node changes nothing else; every other line changes nothing |
| LbConfig.TableFollowsLines | src/osmo-smlc/cell_locations.c:185-245 | over every run the table is what the command lines make of an empty one, whatever else happens |
| LbConfig.WrittenLinesSet | src/osmo-smlc/cell_locations.c:258-293 | an empty table writes nothing, any other the line that enters the node and for each entry, in order, one line that sets exactly it |
| LbConfig.WrittenNames | src/osmo-smlc/cell_locations.c:269-279 | LAC and CI are written without leading zeros, MCC with three digits, MNC with two or three |
| CellConfig.ConfigRoundTrip | src/osmo-smlc/cell_locations.c:258-293 | for every history of commands, reading back the written configuration rebuilds the same entries, coordinates and order |
| CellConfig.EntriesRoundTrip | src/osmo-smlc/cell_locations.c:258-293 | replaying the lines of the entries from any point of the table completes it |
| CellConfig.EntryRoundTrip | src/osmo-smlc/cell_locations.c:119-183 | the command written for an entry sets exactly that entry |
| CellConfig.ReplayKeepsValid | src/osmo-smlc/cell_locations.c:185-245 | commands only build tables without overlaps, with printable identifiers and coordinates in range |
| CellConfig.ConfigWriteCells | src/osmo-smlc/cell_locations.c:258-293 | the loop writes one line for each entry, in order |
| CellConfig.Execute | src/osmo-smlc/cell_locations.c:185-245 | a command line changes the table as its parsed form says, and not at all when rejected |
| Decimal.FloatRoundTrip | src/osmo-smlc/cell_locations.c:286-288 | every integer survives being printed as a decimal number and parsed, for any number of digits after the point |
| Decimal.NoSpareZeros | src/osmo-smlc/cell_locations.c:286-288 | no zeros after the last digit that counts, no bare point |
| Decimal.DigitsRead | src/osmo-smlc/cell_locations.c:119-154 | what the ten digits are worth, and how a number is read |

## Left out

- `lb_conn_create_outgoing`: nothing calls it; the choice of an id is proved on its own, for any state.
- `smlc_loc_req_reset`, the DISCARDING state, `lb_peer_fsm_cleanup` and termination of a peer: nothing triggers them.
- Smlc.SmlcState.PeerReset: stated for peers that are not READY, the only ones it is called for; from READY it would pass through a state in which a peer that is not READY still has connections.
- Smlc.SmlcState.PeerSetState: a state other than READY is entered only when the peer has no connections left, as in all calls; `PeerReset` and `PeerRxReset` meet this.
- Smlc.SmlcState.ConnRx: a connection without a request is taken to be the newest one with no subscriber, which `Handle` shows is the only case; `RequestStart` covers the refusal of a second IMSI.
- After the missing request the model stays stopped; what the process does with a null pointer is not part of this model.
- Encoders and decoders of BSSAP-LE, BSSLAP and GAD, and the uncertainty quantiser (3GPP TS 23.032, section 6.2): libosmogsm is not part of this model.
- Table entries are values in a list, not linked objects; removing one frees nothing.
- Splitting command lines into words, help texts, several sessions at once, and leaving the "cells" node; a line is its command and arguments.
- The result code of a command and the text of its warnings.
- The called address of a primitive: the code only logs a mismatch.
- Message buffers, padding and who frees them; logging, counters, the CTRL interface.
- The SCCP and SIGTRAN stack, sockets, options and signals.
