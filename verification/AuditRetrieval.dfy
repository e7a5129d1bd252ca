/**
 Retrieval of archived audit rows (backend/src/audit/audit-retention.service.ts) as a transition
 system: requests, approval by a second administrator, and any number of calls, each in three steps.
 Begin reads the request and the archive record, Log asks the store for the object and writes the audit
 event, Complete saves the request; steps of other calls may come between them, but not inside one.
 */
module AuditRetrieval {
  import opened Options

  datatype Status = Pending | Approved | Fulfilled

  datatype Request = Request(
    archiveId: nat, requester: string, reason: string, status: Status, approver: Option<string>)

  datatype Archive = Archive(retentionUntil: int, checksum: string)

  /** The operational audit event written for a retrieval. */
  datatype Event = Event(requestId: nat, admin: string, requester: string, approver: Option<string>)

  datatype Release = Release(requestId: nat, admin: string, content: string)

  /** What a call to retrieveApproved holds: the rows it read, and the content once the event is persisted. */
  datatype Call = Call(requestId: nat, admin: string, request: Request, archive: Archive, content: Option<string>)

  /** sha256 of a content, and trim. */
  datatype Runtime = Runtime(sha256: string -> string, trim: string -> string)

  /** known and released are histories: every archive record ever written, every content ever handed out. */
  datatype State = State(
    now: int, archives: map<nat, Archive>, requests: map<nat, Request>, calls: map<nat, Call>, events: seq<Event>,
    known: map<nat, Archive>, released: seq<Release>)

  /** What the store answers: an object still being restored, no body, or bytes. */
  datatype Answer = Restoring | NoBody | Body(content: string)

  datatype Action =
    | Tick(ms: nat)
    | Index(archiveId: nat, archive: Archive)
    | Purge(archiveId: nat)
    | Ask(id: nat, archiveId: nat, requester: string, reason: string)
    | Approve(id: nat, approver: string)
    | Begin(w: nat, id: nat, admin: string)
    | Log(w: nat, answer: Answer, persisted: bool)
    | Complete(w: nat)
    | Abandon(w: nat)

  predicate GoodReason(js: Runtime, reason: string) {
    |js.trim(reason)| >= 10 && |reason| <= 1000
  }

  predicate Retained(st: State, archiveId: nat) {
    archiveId in st.archives && st.archives[archiveId].retentionUntil > st.now
  }

  predicate Retrievable(st: State, id: nat) {
    id in st.requests && st.requests[id].status == Approved && Retained(st, st.requests[id].archiveId)
  }

  predicate Intact(js: Runtime, answer: Answer, archive: Archive) {
    answer.Body? && js.sha256(answer.content) == archive.checksum
  }

  function Apply(js: Runtime, st: State, a: Action): State {
    match a
    case Tick(ms) => st.(now := st.now + ms)
    case Index(k, archive) =>
        if k in st.known then st else st.(archives := st.archives[k := archive], known := st.known[k := archive])
    case Purge(k) => if k in st.archives && !Retained(st, k) then st.(archives := st.archives - {k}) else st
    case Ask(id, k, requester, reason) =>
      if id in st.requests || !GoodReason(js, reason) || !Retained(st, k) then st
      else st.(requests := st.requests[id := Request(k, requester, js.trim(reason), Pending, None)])
    case Approve(id, approver) =>
      if id !in st.requests || st.requests[id].status != Pending || st.requests[id].requester == approver then st
      else st.(requests := st.requests[id := st.requests[id].(status := Approved, approver := Some(approver))])
    case Begin(w, id, admin) =>
      if w in st.calls || !Retrievable(st, id) then st
      else st.(calls := st.calls[w := Call(id, admin, st.requests[id], st.archives[st.requests[id].archiveId], None)])
    case Log(w, answer, persisted) =>
      if w !in st.calls || st.calls[w].content.Some? then st
      else
        var c := st.calls[w];
        if !Intact(js, answer, c.archive) || !persisted then st.(calls := st.calls - {w})
        else st.(events := st.events + [Event(c.requestId, c.admin, c.request.requester, c.request.approver)],
                 calls := st.calls[w := c.(content := Some(answer.content))])
    case Complete(w) =>
      if w !in st.calls || st.calls[w].content.None? then st
      else
        var c := st.calls[w];
        st.(requests := st.requests[c.requestId := c.request.(status := Fulfilled)], calls := st.calls - {w},
            released := st.released + [Release(c.requestId, c.admin, c.content.value)])
    case Abandon(w) => st.(calls := st.calls - {w})
  }

  function Run(js: Runtime, st: State, actions: seq<Action>): State
    decreases |actions|
  {
    if actions == [] then st else Run(js, Apply(js, st, actions[0]), actions[1..])
  }

  function Init(): State {
    State(0, map[], map[], map[], [], map[], [])
  }

  // ---- Who may see what ----

  /** A second person approved the request. */
  ghost predicate FourEyes(r: Request) {
    r.status != Pending && r.approver.Some? && r.approver.value != r.requester
  }

  /** Approved by another administrator, logged before, and exactly the bytes that were archived. */
  ghost predicate Authorised(js: Runtime, st: State, r: Release) {
    && r.requestId in st.requests && FourEyes(st.requests[r.requestId])
    && Event(r.requestId, r.admin, st.requests[r.requestId].requester, st.requests[r.requestId].approver) in st.events
    && st.requests[r.requestId].archiveId in st.known
    && js.sha256(r.content) == st.known[st.requests[r.requestId].archiveId].checksum
  }

  ghost predicate AllAuthorised(js: Runtime, st: State) {
    forall r :: r in st.released ==> Authorised(js, st, r) && st.requests[r.requestId].status == Fulfilled
  }

  ghost predicate GoodRequest(st: State, r: Request) {
    r.archiveId in st.known && if r.status == Pending then r.approver.None? else FourEyes(r)
  }

  /** The stored request is the one the call read, but for its status. */
  ghost predicate GoodCall(js: Runtime, st: State, c: Call) {
    && c.requestId in st.requests && c.request.status == Approved && FourEyes(c.request)
    && st.requests[c.requestId] == c.request.(status := st.requests[c.requestId].status)
       && st.requests[c.requestId].status != Pending
    && c.request.archiveId in st.known && c.archive == st.known[c.request.archiveId]
    && (c.content.Some? ==>
          js.sha256(c.content.value) == c.archive.checksum
          && Event(c.requestId, c.admin, c.request.requester, c.request.approver) in st.events)
  }

  ghost predicate Inv(js: Runtime, st: State) {
    && (forall k :: k in st.archives ==> k in st.known && st.known[k] == st.archives[k])
    && (forall id :: id in st.requests ==> GoodRequest(st, st.requests[id]))
    && (forall w :: w in st.calls ==> GoodCall(js, st, st.calls[w]))
    && AllAuthorised(js, st)
  }

  /** What every step leaves in place: known archives, events, and requests but for a status that moves forward. */
  ghost predicate Extends(st: State, st': State) {
    && (forall k :: k in st.known ==> k in st'.known && st'.known[k] == st.known[k])
    && (forall e :: e in st.events ==> e in st'.events)
    && (forall id :: id in st.requests ==> id in st'.requests && Forward(st.requests[id], st'.requests[id]))
  }

  ghost predicate Forward(r: Request, r': Request) {
    || r' == r
    || (r.status == Pending && r'.status != Pending && r'.archiveId == r.archiveId && r'.requester == r.requester
       && r'.reason == r.reason)
    || (r.status != Pending && r' == r.(status := Fulfilled))
  }

  lemma CallStays(js: Runtime, st: State, st': State, c: Call)
    requires Extends(st, st') && GoodCall(js, st, c)
    ensures GoodCall(js, st', c)
  {
    assert Forward(st.requests[c.requestId], st'.requests[c.requestId]);
  }

  lemma ReleaseStays(js: Runtime, st: State, st': State, r: Release)
    requires Extends(st, st') && Authorised(js, st, r) && st.requests[r.requestId].status == Fulfilled
    ensures Authorised(js, st', r) && st'.requests[r.requestId].status == Fulfilled
  {
    assert Forward(st.requests[r.requestId], st'.requests[r.requestId]);
  }

  lemma CompleteExtends(js: Runtime, st: State, w: nat)
    requires Inv(js, st)
    ensures Extends(st, Apply(js, st, Complete(w)))
  {
    if w in st.calls {
      assert GoodCall(js, st, st.calls[w]);
    }
  }

  lemma OthersExtend(js: Runtime, st: State, a: Action)
    requires !a.Complete?
    ensures Extends(st, Apply(js, st, a))
  {
  }

  lemma StepExtends(js: Runtime, st: State, a: Action)
    requires Inv(js, st)
    ensures Extends(st, Apply(js, st, a))
  {
    if a.Complete? {
      CompleteExtends(js, st, a.w);
    } else {
      OthersExtend(js, st, a);
    }
  }

  lemma NewCallIsGood(js: Runtime, st: State, w: nat, id: nat, admin: string)
    requires Inv(js, st) && w !in st.calls && Retrievable(st, id)
    ensures var st' := Apply(js, st, Begin(w, id, admin)); GoodCall(js, st', st'.calls[w])
  {
    assert GoodRequest(st, st.requests[id]);
  }

  lemma LoggedCallIsGood(js: Runtime, st: State, a: Action)
    requires Inv(js, st) && a.Log? && a.w in st.calls && a.w in Apply(js, st, a).calls
    ensures GoodCall(js, Apply(js, st, a), Apply(js, st, a).calls[a.w])
  {
    var c := st.calls[a.w];
    assert GoodCall(js, st, c);
  }

  lemma CallsStayGood(js: Runtime, st: State, a: Action, w: nat)
    requires Inv(js, st) && w in Apply(js, st, a).calls
    ensures GoodCall(js, Apply(js, st, a), Apply(js, st, a).calls[w])
  {
    StepExtends(js, st, a);
    if w in st.calls && Apply(js, st, a).calls[w] == st.calls[w] {
      hide Apply, Extends;
      CallStays(js, st, Apply(js, st, a), st.calls[w]);
    } else {
      ChangedCall(js, st, a, w);
      if a.Begin? {
        hide Apply, GoodCall;
        NewCallIsGood(js, st, a.w, a.id, a.admin);
      } else {
        hide Apply, GoodCall;
        LoggedCallIsGood(js, st, a);
      }
    }
  }

  /** Only a call's own steps change what it holds. */
  lemma ChangedCall(js: Runtime, st: State, a: Action, w: nat)
    requires w in Apply(js, st, a).calls && !(w in st.calls && Apply(js, st, a).calls[w] == st.calls[w])
    ensures (a.Begin? && a.w == w && w !in st.calls && Retrievable(st, a.id)) || (a.Log? && a.w == w && w in st.calls)
  {
  }

  lemma StoredRequest(js: Runtime, st: State, a: Action, id: nat)
    requires Inv(js, st) && id in Apply(js, st, a).requests
    ensures id in st.requests
      || (a.Ask? && a.id == id && Retained(st, a.archiveId)
      && Apply(js, st, a).requests[id] == Request(a.archiveId, a.requester, js.trim(a.reason), Pending, None))
  {
    if a.Complete? && a.w in st.calls {
      assert GoodCall(js, st, st.calls[a.w]);
    }
  }

  lemma ForwardIsGood(st: State, st': State, a: Request, b: Request)
    requires GoodRequest(st, a) && Extends(st, st') && Forward(a, b)
      && (a.status == Pending && b.status != Pending ==> FourEyes(b))
    ensures GoodRequest(st', b)
  {
  }

  lemma ApprovedByAnother(js: Runtime, st: State, a: Action, id: nat)
    requires Inv(js, st) && id in st.requests && id in Apply(js, st, a).requests
    ensures st.requests[id].status == Pending && Apply(js, st, a).requests[id].status != Pending ==>
      FourEyes(Apply(js, st, a).requests[id])
  {
    if a.Complete? && a.w in st.calls {
      assert GoodCall(js, st, st.calls[a.w]);
    }
  }

  lemma RequestsStayGood(js: Runtime, st: State, a: Action, id: nat)
    requires Inv(js, st) && id in Apply(js, st, a).requests
    ensures GoodRequest(Apply(js, st, a), Apply(js, st, a).requests[id])
  {
    hide Apply, GoodCall, AllAuthorised, FourEyes;
    var st' := Apply(js, st, a);
    StepExtends(js, st, a);
    StoredRequest(js, st, a, id);
    if id in st.requests {
      ApprovedByAnother(js, st, a, id);
      ForwardIsGood(st, st', st.requests[id], st'.requests[id]);
    }
  }

  lemma ReleasesStayGood(js: Runtime, st: State, a: Action)
    requires Inv(js, st)
    ensures AllAuthorised(js, Apply(js, st, a))
  {
    var st' := Apply(js, st, a);
    StepExtends(js, st, a);
    forall r | r in st'.released ensures Authorised(js, st', r) && st'.requests[r.requestId].status == Fulfilled {
      if r in st.released {
        ReleaseStays(js, st, st', r);
      } else {
        assert GoodCall(js, st, st.calls[a.w]);
      }
    }
  }

  lemma ApplyKeepsInv(js: Runtime, st: State, a: Action)
    requires Inv(js, st)
    ensures Inv(js, Apply(js, st, a))
  {
    hide GoodCall, GoodRequest, AllAuthorised;
    var st' := Apply(js, st, a);
    forall w | w in st'.calls ensures GoodCall(js, st', st'.calls[w]) {
      CallsStayGood(js, st, a, w);
    }
    forall id | id in st'.requests ensures GoodRequest(st', st'.requests[id]) {
      RequestsStayGood(js, st, a, id);
    }
    ReleasesStayGood(js, st, a);
  }

  lemma {:induction false} RunKeepsInv(js: Runtime, st: State, actions: seq<Action>)
    requires Inv(js, st)
    ensures Inv(js, Run(js, st, actions)) && Extends(st, Run(js, st, actions))
    decreases |actions|
  {
    hide Inv;
    if actions != [] {
      var next := Apply(js, st, actions[0]);
      ApplyKeepsInv(js, st, actions[0]);
      StepExtends(js, st, actions[0]);
      RunKeepsInv(js, next, actions[1..]);
      ExtendsTransitive(st, next, Run(js, next, actions[1..]));
    }
  }

  lemma ExtendsTransitive(a: State, b: State, c: State)
    requires Extends(a, b) && Extends(b, c)
    ensures Extends(a, c)
  {
    forall id | id in a.requests ensures Forward(a.requests[id], c.requests[id]) {
      assert Forward(a.requests[id], b.requests[id]) && Forward(b.requests[id], c.requests[id]);
    }
  }

  /**
   In every run, however calls interleave and wherever they break off, nothing leaves the archive unauthorised or
   unlogged.
   */
  lemma EveryReleaseIsAuthorised(js: Runtime, actions: seq<Action>, r: Release)
    requires r in Run(js, Init(), actions).released
    ensures Authorised(js, Run(js, Init(), actions), r)
  {
    RunKeepsInv(js, Init(), actions);
  }

  // ---- Once per request ----

  /** No call is under way for the request. */
  ghost predicate Free(st: State, id: nat) {
    forall w :: w in st.calls ==> st.calls[w].requestId != id
  }

  /**
   A call passes the check while another call for the same request is under way. The service does nothing to prevent
   it.
   */
  ghost predicate Overlaps(st: State, a: Action) {
    a.Begin? && a.w !in st.calls && Retrievable(st, a.id) && !Free(st, a.id)
  }

  ghost predicate Serial(js: Runtime, st: State, actions: seq<Action>)
    decreases |actions|
  {
    actions == [] || (!Overlaps(st, actions[0]) && Serial(js, Apply(js, st, actions[0]), actions[1..]))
  }

  ghost predicate ReleasedOnce(st: State) {
    forall i, j :: 0 <= i < j < |st.released| ==> st.released[i].requestId != st.released[j].requestId
  }

  /** A released request is held by no call, and no two calls hold one request. */
  ghost predicate OnceInv(st: State) {
    && ReleasedOnce(st)
    && (forall r :: r in st.released ==>
       r.requestId in st.requests && st.requests[r.requestId].status == Fulfilled && Free(st, r.requestId))
    && (forall v, w :: v in st.calls && w in st.calls && v != w ==> st.calls[v].requestId != st.calls[w].requestId)
  }

  lemma CallsComeFromBegin(js: Runtime, st: State, a: Action, id: nat)
    requires Free(st, id) && !(a.Begin? && a.id == id)
    ensures Free(Apply(js, st, a), id)
  {
  }

  lemma ReleasedStaysFree(js: Runtime, st: State, a: Action, r: Release)
    requires Inv(js, st) && OnceInv(st) && r in st.released
    ensures var st' := Apply(js, st, a);
            r.requestId in st'.requests && st'.requests[r.requestId].status == Fulfilled && Free(st', r.requestId)
  {
    StepExtends(js, st, a);
    ReleaseStays(js, st, Apply(js, st, a), r);
    if !(a.Begin? && a.id == r.requestId) {
      CallsComeFromBegin(js, st, a, r.requestId);
    }
  }

  lemma CallsStayApart(js: Runtime, st: State, a: Action, v: nat, w: nat)
    requires OnceInv(st) && !Overlaps(st, a)
    requires v in Apply(js, st, a).calls && w in Apply(js, st, a).calls && v != w
    ensures Apply(js, st, a).calls[v].requestId != Apply(js, st, a).calls[w].requestId
  {
  }

  lemma NewReleaseIsFree(js: Runtime, st: State, a: Action)
    requires Inv(js, st) && OnceInv(st) && a.Complete? && a.w in st.calls && st.calls[a.w].content.Some?
    ensures var st' := Apply(js, st, a); var id := st.calls[a.w].requestId;
            id in st'.requests && st'.requests[id].status == Fulfilled && Free(st', id)
            && forall r :: r in st.released ==> r.requestId != id
  {
  }

  lemma ApplyKeepsOnce(js: Runtime, st: State, a: Action)
    requires Inv(js, st) && OnceInv(st) && !Overlaps(st, a)
    ensures OnceInv(Apply(js, st, a))
  {
    hide Inv;
    var st' := Apply(js, st, a);
    forall v, w | v in st'.calls && w in st'.calls && v != w ensures st'.calls[v].requestId != st'.calls[w].requestId {
      CallsStayApart(js, st, a, v, w);
    }
    if st'.released != st.released {
      NewReleaseIsFree(js, st, a);
    }
    forall r | r in st'.released
      ensures r.requestId in st'.requests && st'.requests[r.requestId].status == Fulfilled && Free(st', r.requestId)
    {
      if r in st.released {
        ReleasedStaysFree(js, st, a, r);
      }
    }
  }

  lemma {:induction false} SerialRunKeepsOnce(js: Runtime, st: State, actions: seq<Action>)
    requires Inv(js, st) && OnceInv(st) && Serial(js, st, actions)
    ensures OnceInv(Run(js, st, actions))
    decreases |actions|
  {
    hide Inv, OnceInv;
    if actions != [] {
      ApplyKeepsInv(js, st, actions[0]);
      ApplyKeepsOnce(js, st, actions[0]);
      SerialRunKeepsOnce(js, Apply(js, st, actions[0]), actions[1..]);
    }
  }

  /** As long as calls for one request do not overlap, an approved request is good for one release. */
  lemma SerialCallsReleaseOnce(js: Runtime, actions: seq<Action>)
    requires Serial(js, Init(), actions)
    ensures ReleasedOnce(Run(js, Init(), actions))
  {
    SerialRunKeepsOnce(js, Init(), actions);
  }

  ghost predicate ReleasedTwice(st: State, id: nat) {
    exists i, j :: 0 <= i < j < |st.released| && st.released[i].requestId == id && st.released[j].requestId == id
  }

  /** Both calls log and complete: from any state in which two calls hold one request. */
  function Finish(v: nat, w: nat, content: string): seq<Action> {
    [Log(v, Body(content), true), Log(w, Body(content), true), Complete(v), Complete(w)]
  }

  lemma RunOfTwo(js: Runtime, st: State, a: Action, b: Action, rest: seq<Action>)
    ensures Run(js, st, [a, b] + rest) == Run(js, Apply(js, Apply(js, st, a), b), rest)
  {
    assert ([a, b] + rest)[1..] == [b] + rest;
    assert ([b] + rest)[1..] == rest;
  }

  lemma RunOfFour(js: Runtime, st: State, a: Action, b: Action, c: Action, d: Action)
    ensures Run(js, st, [a, b, c, d]) == Apply(js, Apply(js, Apply(js, Apply(js, st, a), b), c), d)
  {
    assert [a, b, c, d] == [a, b] + ([c, d] + []);
    RunOfTwo(js, st, a, b, [c, d] + []);
    RunOfTwo(js, Apply(js, Apply(js, st, a), b), c, d, []);
  }

  /** The archived bytes come back for the call. */
  ghost predicate Answerable(js: Runtime, st: State, w: nat, id: nat, content: string) {
    w in st.calls && st.calls[w].requestId == id && js.sha256(content) == st.calls[w].archive.checksum
  }

  ghost predicate Logged(st: State, w: nat, id: nat) {
    w in st.calls && st.calls[w].requestId == id && st.calls[w].content.Some?
  }

  lemma LogStep(js: Runtime, st: State, v: nat, w: nat, id: nat, content: string)
    requires v != w && Answerable(js, st, v, id, content)
    ensures var s := Apply(js, st, Log(v, Body(content), true));
            && Logged(s, v, id) && (Answerable(js, st, w, id, content) ==> Answerable(js, s, w, id, content))
            && (Logged(st, w, id) ==> Logged(s, w, id))
  {
  }

  lemma CompleteStep(js: Runtime, st: State, v: nat, w: nat, id: nat)
    requires v != w && Logged(st, v, id)
    ensures var s := Apply(js, st, Complete(v));
            && |s.released| == |st.released| + 1 && s.released[..|st.released|] == st.released
               && s.released[|st.released|].requestId == id
            && (Logged(st, w, id) ==> Logged(s, w, id))
  {
  }

  lemma FinishReleasesTwice(js: Runtime, st: State, v: nat, w: nat, id: nat, content: string)
    requires v != w && Answerable(js, st, v, id, content) && Answerable(js, st, w, id, content)
    ensures ReleasedTwice(Run(js, st, Finish(v, w, content)), id)
  {
    hide Apply, Answerable, Logged;
    var s1 := Apply(js, st, Log(v, Body(content), true));
    LogStep(js, st, v, w, id, content);
    var s2 := Apply(js, s1, Log(w, Body(content), true));
    LogStep(js, s1, w, v, id, content);
    var s3 := Apply(js, s2, Complete(v));
    CompleteStep(js, s2, v, w, id);
    var s4 := Apply(js, s3, Complete(w));
    CompleteStep(js, s3, w, v, id);
    var n := |s2.released|;
    assert s4.released[n] == s4.released[..n + 1][n] == s3.released[n];
    RunOfFour(js, st, Log(v, Body(content), true), Log(w, Body(content), true), Complete(v), Complete(w));
  }

  /** A continuation that starts no call overlaps nothing. */
  lemma {:induction false} NoBeginIsSerial(js: Runtime, st: State, actions: seq<Action>)
    requires forall i :: 0 <= i < |actions| ==> !actions[i].Begin?
    ensures Serial(js, st, actions)
    decreases |actions|
  {
    if actions != [] {
      NoBeginIsSerial(js, Apply(js, st, actions[0]), actions[1..]);
    }
  }

  /** The check passed twice: both calls hold the request and the archive it names. */
  lemma OverlapHolds(js: Runtime, st: State, v: nat, w: nat, id: nat, admin: string, content: string)
    requires Inv(js, st) && Overlaps(st, Begin(w, id, admin)) && v in st.calls && st.calls[v].requestId == id
    requires js.sha256(content) == st.archives[st.requests[id].archiveId].checksum
    ensures var s := Apply(js, st, Begin(w, id, admin));
      Answerable(js, s, v, id, content) && Answerable(js, s, w, id, content)
  {
    assert GoodCall(js, st, st.calls[v]);
  }

  /** Calls that do not overlap finish what follows a further call. */
  ghost predicate CanReleaseTwice(js: Runtime, st: State, a: Action, id: nat) {
    exists rest :: Serial(js, Apply(js, st, a), rest) && ReleasedTwice(Run(js, Apply(js, st, a), rest), id)
  }

  /** From every state of the invariant, overlaps behind it or not, an overlapping call can end in a second release. */
  lemma OverlapCanReleaseTwice(js: Runtime, st: State, w: nat, id: nat, admin: string, content: string)
    requires Inv(js, st) && Overlaps(st, Begin(w, id, admin))
    requires js.sha256(content) == st.archives[st.requests[id].archiveId].checksum
    ensures CanReleaseTwice(js, st, Begin(w, id, admin), id)
  {
    hide Inv, Apply;
    var after := Apply(js, st, Begin(w, id, admin));
    var v :| v in st.calls && st.calls[v].requestId == id;
    OverlapHolds(js, st, v, w, id, admin, content);
    NoBeginIsSerial(js, after, Finish(v, w, content));
    FinishReleasesTwice(js, after, v, w, id, content);
  }

  /**
   In a state reached without overlaps, a further call can end in two releases of its request exactly when
   the request is retrievable and another call for it is under way: what the service could look up first.
   content stands for the archived bytes.
   */
  lemma DoubleReleaseIff(js: Runtime, before: seq<Action>, w: nat, id: nat, admin: string, content: string)
    requires Serial(js, Init(), before) && w !in Run(js, Init(), before).calls
    requires var st := Run(js, Init(), before);
      Retrievable(st, id) ==> js.sha256(content) == st.archives[st.requests[id].archiveId].checksum
    ensures var st := Run(js, Init(), before);
            CanReleaseTwice(js, st, Begin(w, id, admin), id) <==> Retrievable(st, id) && !Free(st, id)
  {
    hide Inv, OnceInv, Apply;
    var st := Run(js, Init(), before);
    var a := Begin(w, id, admin);
    NothingReleased(js);
    RunKeepsInv(js, Init(), before);
    SerialRunKeepsOnce(js, Init(), before);
    if Overlaps(st, a) {
      OverlapCanReleaseTwice(js, st, w, id, admin, content);
    } else {
      ApplyKeepsInv(js, st, a);
      ApplyKeepsOnce(js, st, a);
      forall rest | Serial(js, Apply(js, st, a), rest) ensures !ReleasedTwice(Run(js, Apply(js, st, a), rest), id) {
        SerialRunKeepsOnce(js, Apply(js, st, a), rest);
        OnceIsOnce(Run(js, Apply(js, st, a), rest), id);
      }
    }
  }

  lemma NothingReleased(js: Runtime)
    ensures Inv(js, Init()) && OnceInv(Init())
  {
  }

  lemma OnceIsOnce(st: State, id: nat)
    requires OnceInv(st)
    ensures !ReleasedTwice(st, id)
  {
  }

  // ---- The condition is met: a run with two overlapping calls ----

  function Asked(checksum: string, reason: string): seq<Action> {
    [Index(0, Archive(1, checksum)), Ask(0, 0, "a", reason), Approve(0, "b"), Begin(1, 0, "a")]
  }

  /** One approved request, one call under way: the next call can release the row again. */
  lemma OverlappingCallsReleaseTwice(js: Runtime, content: string, reason: string)
    requires GoodReason(js, reason)
    ensures var before := Asked(js.sha256(content), reason);
            Serial(js, Init(), before) && CanReleaseTwice(js, Run(js, Init(), before), Begin(2, 0, "c"), 0)
  {
    var checksum := js.sha256(content);
    var before := Asked(checksum, reason);
    var s1 := Apply(js, Init(), before[0]);
    var s2 := Apply(js, s1, before[1]);
    var s3 := Apply(js, s2, before[2]);
    var s4 := Apply(js, s3, before[3]);
    RunOfFour(js, Init(), before[0], before[1], before[2], before[3]);
    assert before == [before[0], before[1], before[2], before[3]];
    assert Retrievable(s3, 0) && s3.calls == map[];
    SerialOfFour(js, Init(), before[0], before[1], before[2], before[3]);
    assert Retrievable(s4, 0) && s4.calls.Keys == {1} && s4.calls[1].requestId == 0;
    DoubleReleaseIff(js, before, 2, 0, "c", content);
  }

  lemma SerialOfFour(js: Runtime, st: State, a: Action, b: Action, c: Action, d: Action)
    requires !a.Begin? && !b.Begin? && !c.Begin? && !Overlaps(Apply(js, Apply(js, Apply(js, st, a), b), c), d)
    ensures Serial(js, st, [a, b, c, d])
  {
    hide Apply, Overlaps;
    var s1 := Apply(js, st, a);
    var s2 := Apply(js, s1, b);
    assert [a, b, c, d][1..] == [b, c, d] && [b, c, d][1..] == [c, d] && [c, d][1..] == [d] && [d][1..] == [];
    assert Serial(js, Apply(js, s2, c), [d]);
    assert Serial(js, s2, [c, d]) by { NotOverlap(s2, c); }
    assert Serial(js, s1, [b, c, d]) by { NotOverlap(s1, b); }
    NotOverlap(st, a);
  }

  lemma NotOverlap(st: State, a: Action)
    requires !a.Begin?
    ensures !Overlaps(st, a)
  {
  }
}
