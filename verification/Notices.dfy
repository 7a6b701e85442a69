/** The notices the service records, against the payloads the event stream carries. */
module Notices {
  import opened Wrappers
  import opened Tables
  import opened Lifecycle
  import EventStream

  /** A notice is recorded unless its document, type and channel have one already; the other channel does not count. */
  lemma NoticeRecordedExactly(db: Db, id: EventId, e: Event)
    ensures var tx := InsertEvent(db, id, e);
            if exists other | other in db.events ::
                 db.events[other].document == e.document && db.events[other].eventType == e.eventType && db.events[other].channel == e.channel
            then tx == Tx(db, None)
            else if id in db.events || e.document !in db.docs then tx == Tx(db, Some(ConstraintViolation))
            else tx.error == None && tx.db.events == db.events[id := e]
                 && tx.db.docs == db.docs && tx.db.accounts == db.accounts && tx.db.reservations == db.reservations
  {
    assert forall other | other in db.events ::
        SameNotification(db.events[other], e)
        <==> db.events[other].document == e.document && db.events[other].eventType == e.eventType && db.events[other].channel == e.channel;
  }

  /** The stored type of a notice is the type in its payload, and names what its payload's identifier is of. */
  lemma TypesAgree(mode: string, s: Status, n: EventStream.Notice)
    requires n.scan == (mode == "scan") && n.status == StatusText(s)
    ensures "type" in EventStream.Fields(n) && EventStream.Fields(n)["type"] == EventType(mode, s)
    ensures EventStream.Fields(n).Keys
            == {"eventId", "type", "status", "resource", "occurredAt", if mode == "scan" then "scanId" else "documentId"}
  {
    assert "scan" + "Id" == "scanId" && "document" + "Id" == "documentId";
    assert |"type"| == 4 && |"status"| == 6 && |"scanId"| == 6 && "scanId"[1] != "status"[1];
    assert |"documentId"| == |"occurredAt"| && "documentId"[0] != "occurredAt"[0] && |"eventId"| == 7 && |"resource"| == 8;
  }

  /** The types subscribers see. */
  lemma TypeNames(mode: string)
    ensures StatusText(Queued) == "queued" && StatusText(Processing) == "processing"
    ensures EventType("scan", Completed) == "scan.completed" && EventType("scan", Failed) == "scan.failed"
    ensures EventType("scan", Cancelled) == "scan.cancelled"
    ensures mode != "scan" ==>
              && EventType(mode, Completed) == "document.completed" && EventType(mode, Failed) == "document.failed"
              && EventType(mode, Cancelled) == "document.cancelled"
  {
  }
}
