/** The receive router of rxCan and storeRxCanToStorageBuffer: where each
    received frame goes. */
module Router {
  import opened CanTypes

  datatype Route =
    | ToPresence   // a heartbeat: refreshes presence, never stored
    | Rejected     // addressed to another device: dropped untouched
    | ToRxBuffer   // everything else: stored in the RX direction

  /** The route rxCan gives a frame received by the device with uid `ownUid`. */
  function Classify(p: Protocol, msg: CanFrame, ownUid: uint16): (r: Route)
    ensures r == ToPresence <==> p.InHeartbeatRange(p.parseMessageId(msg.id).pmid)
    ensures r == Rejected ==> p.InAddressedRange(p.parseMessageId(msg.id).pmid) && p.targetUidOf(msg.data) != ownUid
  {
    var id := p.parseMessageId(msg.id);
    if p.InHeartbeatRange(id.pmid) then ToPresence
    else if p.InAddressedRange(id.pmid) && p.targetUidOf(msg.data) != ownUid then Rejected
    else ToRxBuffer
  }

  /** The three outcomes, stated from the frame's side: heartbeats go to
      presence whatever their addressing, an addressed frame is stored
      exactly when it names this device, every other frame is stored. */
  lemma ClassifyCases(p: Protocol, msg: CanFrame, ownUid: uint16)
    ensures var id := p.parseMessageId(msg.id);
      && (Classify(p, msg, ownUid) == ToPresence <==> p.InHeartbeatRange(id.pmid))
      && (Classify(p, msg, ownUid) == ToRxBuffer ==> !p.InHeartbeatRange(id.pmid))
      && (!p.InHeartbeatRange(id.pmid) && p.InAddressedRange(id.pmid) ==>
           (Classify(p, msg, ownUid) == ToRxBuffer <==> p.targetUidOf(msg.data) == ownUid))
      && (!p.InHeartbeatRange(id.pmid) && !p.InAddressedRange(id.pmid) ==>
           Classify(p, msg, ownUid) == ToRxBuffer)
  {
  }

  /** No slot of the queue carries a heartbeat pmid. */
  ghost predicate NoHeartbeats(p: Protocol, q: seq<CanBuffer>) {
    forall i :: 0 <= i < |q| ==> !p.InHeartbeatRange(q[i].pmid)
  }
}
