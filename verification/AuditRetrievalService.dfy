/**
 The retrieval requests as the service handles them: rows read, changed and saved one call at a time,
 each method a run of AuditRetrieval.
 */
module AuditRetrievalJob {
  import opened Options
  import opened AuditRetrieval

  datatype Error = BadRequest | NotFound | Conflict | ServiceUnavailable

  datatype Reply = Refused(error: Error) | StillRestoring | Released(content: string)

  class AuditRetrievalService {
    const js: Runtime
    const me: nat
    var now: int
    var archives: map<nat, Archive>
    var requests: map<nat, Request>
    var events: seq<Event>
    ghost var known: map<nat, Archive>
    ghost var calls: map<nat, Call>
    ghost var released: seq<Release>

    constructor (js: Runtime, me: nat)
      ensures this.js == js && this.me == me && View() == Init()
    {
      this.js, this.me := js, me;
      now, archives, requests, events := 0, map[], map[], [];
      known, calls, released := map[], map[], [];
    }

    ghost function View(): State
      reads this
    {
      State(now, archives, requests, calls, events, known, released)
    }

    method RequestRetrieval(id: nat, archiveRecordId: nat, requesterId: string, reason: string)
      returns (error: Option<Error>)
      requires id !in requests
      modifies this
      ensures View() == Apply(js, old(View()), Ask(id, archiveRecordId, requesterId, reason))
      ensures error == Some(BadRequest) <==> |js.trim(reason)| < 10 || |reason| > 1000
      ensures error == Some(NotFound) <==>
              10 <= |js.trim(reason)| && |reason| <= 1000
              && !(archiveRecordId in archives && archives[archiveRecordId].retentionUntil > now)
      ensures requests == if error.None? then
        old(requests)[id := Request(archiveRecordId, requesterId, js.trim(reason), Pending, None)]
              else old(requests)
      ensures error.None? || error == Some(BadRequest) || error == Some(NotFound)
    {
      if |js.trim(reason)| < 10 || |reason| > 1000 {
        return Some(BadRequest);
      }
      if archiveRecordId !in archives || archives[archiveRecordId].retentionUntil <= now {
        return Some(NotFound);
      }
      requests := requests[id := Request(archiveRecordId, requesterId, js.trim(reason), Pending, None)];
      error := None;
    }

    method ApproveRetrieval(requestId: nat, approverId: string) returns (error: Option<Error>)
      modifies this
      ensures View() == Apply(js, old(View()), Approve(requestId, approverId))
      ensures error.None? <==>
              requestId in old(requests) && old(requests)[requestId].status == Pending
              && old(requests)[requestId].requester != approverId
    {
      if requestId !in requests {
        return Some(NotFound);
      }
      var request := requests[requestId];
      if request.status != Pending {
        return Some(Conflict);
      }
      if request.requester == approverId {
        return Some(BadRequest);
      }
      request := request.(status := Approved);
      request := request.(approver := Some(approverId));
      requests := requests[requestId := request];
      error := None;
    }

    /** answer is what the store says; persisted, whether the audit event could be written. */
    method RetrieveApproved(requestId: nat, adminId: string, answer: Answer, persisted: bool) returns (reply: Reply)
      requires me !in calls
      modifies this
      ensures View() == Run(js, old(View()), [Begin(me, requestId, adminId), Log(me, answer, persisted), Complete(me)])
      ensures reply.Released? ==> released == old(released) + [Release(requestId, adminId, reply.content)]
      ensures !reply.Released? ==> released == old(released) && events == old(events) && requests == old(requests)
    {
      hide Apply, Run;
      RetrievalOutcome(js, View(), me, requestId, adminId, answer, persisted);
      if requestId !in requests || requests[requestId].status == Pending {
        return Refused(NotFound);
      }
      var request := requests[requestId];
      if request.status == Fulfilled {
        return Refused(Conflict);
      }
      if request.archiveId !in archives || archives[request.archiveId].retentionUntil <= now {
        return Refused(NotFound);
      }
      var archive := archives[request.archiveId];
      if answer.Restoring? {
        return StillRestoring;
      }
      if answer.NoBody? || js.sha256(answer.content) != archive.checksum || !persisted {
        return Refused(ServiceUnavailable);
      }
      events := events + [Event(requestId, adminId, request.requester, request.approver)];
      request := request.(status := Fulfilled);
      requests := requests[requestId := request];
      released := released + [Release(requestId, adminId, answer.content)];
      reply := Released(answer.content);
    }
  }

  /** The request is approved, its archive record there and retained, and the store hands out bytes of that checksum. */
  ghost predicate Granted(js: Runtime, st: State, id: nat, answer: Answer) {
    && id in st.requests && st.requests[id].status == Approved
    && st.requests[id].archiveId in st.archives && st.archives[st.requests[id].archiveId].retentionUntil > st.now
    && answer.Body? && js.sha256(answer.content) == st.archives[st.requests[id].archiveId].checksum
  }

  /**
   A call that runs through without another in between: refused without a trace, or logged, fulfilled and released.
   */
  lemma RetrievalOutcome(js: Runtime, st: State, w: nat, id: nat, admin: string, answer: Answer, persisted: bool)
    requires w !in st.calls
    ensures Run(js, st, [Begin(w, id, admin), Log(w, answer, persisted), Complete(w)]) ==
            if !persisted || !Granted(js, st, id, answer) then st
            else st.(requests := st.requests[id := st.requests[id].(status := Fulfilled)],
                     events := st.events + [Event(id, admin, st.requests[id].requester, st.requests[id].approver)],
                     released := st.released + [Release(id, admin, answer.content)])
  {
    ThreeSteps(js, st, Begin(w, id, admin), Log(w, answer, persisted), Complete(w));
    if Retrievable(st, id) {
      var checked := Apply(js, st, Begin(w, id, admin));
      assert checked.calls - {w} == st.calls;
      var logged := Apply(js, checked, Log(w, answer, persisted));
      assert logged.calls - {w} == st.calls;
    }
  }

  lemma ThreeSteps(js: Runtime, st: State, a: Action, b: Action, c: Action)
    ensures Run(js, st, [a, b, c]) == Apply(js, Apply(js, Apply(js, st, a), b), c)
  {
    assert [a, b, c] == [a, b] + [c];
    RunOfTwo(js, st, a, b, [c]);
    assert [c][1..] == [];
  }
}
