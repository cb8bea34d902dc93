/** The client library's requests: reference counts, handles, callbacks, under asynchronous replies. */
module ThumbnailClientSpec {
  import opened Common

  /** Requests are known by creation number, the address of the C object. */
  type RequestId = nat
  type Handle = nat

  /** `daemon` tells a request sent to the daemon from one answered from the cache; `caller` is how many
      of the references the application holds; `called` counts runs of its callback. A request with no
      references left is finalized. */
  datatype Request = Request(daemon: bool, refs: nat, caller: nat, key: Option<Handle>, unqueued: bool, called: nat)

  /** A callback of the application that is running now. */
  datatype Activity = None | Finishing(handle: Handle) | Answering(request: RequestId)

  /** Pending calls and idle sources each hold a reference on their request, as does a table entry. */
  datatype State = State(
    next: RequestId, requests: map<RequestId, Request>, tasks: map<Handle, RequestId>,
    queueReplies: set<RequestId>, unqueueReplies: multiset<RequestId>, idles: set<RequestId>, activity: Activity)

  const INIT := State(0, map[], map[], {}, multiset{}, {}, Activity.None)

  function Unref(requests: map<RequestId, Request>, r: RequestId): map<RequestId, Request> {
    if r in requests && requests[r].refs > 0 then requests[r := requests[r].(refs := requests[r].refs - 1)] else requests
  }

  /** The table drops its entry under a handle, if there is one, and the reference with it. */
  function RemoveTask(s: State, h: Handle): State {
    if h in s.tasks then s.(tasks := s.tasks - {h}, requests := Unref(s.requests, s.tasks[h])) else s
  }

  function NewRequest(s: State, have: bool): State {
    var r := s.next;
    var t := s.(next := r + 1, requests := s.requests[r := Request(!have, 2, 1, Option.None, false, 0)]);
    if have then t.(idles := s.idles + {r}) else t.(queueReplies := s.queueReplies + {r})
  }

  function CallerRef(s: State, r: RequestId): State
    requires r in s.requests
  {
    var q := s.requests[r];
    s.(requests := s.requests[r := q.(refs := q.refs + 1, caller := q.caller + 1)])
  }

  function CallerUnref(s: State, r: RequestId): State
    requires r in s.requests && s.requests[r].caller > 0
  {
    var q := s.requests[r];
    s.(requests := Unref(s.requests[r := q.(caller := q.caller - 1)], r))
  }

  /** The reply to Queue; an existing entry under the same handle is replaced and released. */
  function GotHandle(s: State, r: RequestId, h: Handle): State
    requires r in s.requests
  {
    var t := s.(queueReplies := s.queueReplies - {r});
    var q := s.requests[r];
    if q.unqueued then t.(requests := Unref(s.requests, r))
    else
      var t1 := RemoveTask(t.(requests := s.requests[r := q.(key := Some(h))]), h);
      t1.(tasks := t1.tasks[h := r])
  }

  function Called(q: Request): Request {
    q.(called := q.called + 1)
  }

  /** The Finished signal: the callback runs unless the request was unqueued. */
  function FinishBegin(s: State, h: Handle): State {
    if h in s.tasks && s.tasks[h] in s.requests then
      var r := s.tasks[h];
      var q := s.requests[r];
      s.(requests := s.requests[r := if q.unqueued then q else Called(q)], activity := Finishing(h))
    else s
  }

  function FinishEnd(s: State, h: Handle): State {
    RemoveTask(s, h).(activity := Activity.None)
  }

  function UnqueueCall(s: State, r: RequestId): State
    requires r in s.requests
  {
    var q := s.requests[r].(unqueued := true);
    if q.key.Some?
    then s.(requests := s.requests[r := q.(refs := q.refs + 1)], unqueueReplies := s.unqueueReplies + multiset{r})
    else s.(requests := s.requests[r := q])
  }

  function Unqueued(s: State, r: RequestId): State
    requires r in s.requests && s.requests[r].key.Some?
  {
    var t := RemoveTask(s, s.requests[r].key.value);
    t.(requests := Unref(t.requests, r), unqueueReplies := s.unqueueReplies - multiset{r})
  }

  function IdleBegin(s: State, r: RequestId): State
    requires r in s.requests
  {
    s.(requests := s.requests[r := Called(s.requests[r])], activity := Answering(r))
  }

  function IdleEnd(s: State, r: RequestId): State {
    s.(idles := s.idles - {r}, requests := Unref(s.requests, r), activity := Activity.None)
  }

  // ---------------------------------------------------------------- runs

  datatype Event =
    | ERequest(have: bool)
    | ERef(r: RequestId)
    | EUnref(r: RequestId)
    | EUnqueue(r: RequestId)
    | EGotHandle(r: RequestId, h: Handle)
    | EFinish(h: Handle)
    | EFinishEnd
    | EUnqueued(r: RequestId)
    | EIdle(r: RequestId)
    | EIdleEnd

  /** The application acts at any time, also from inside its callbacks, on requests it holds a
      reference to; replies, signals and idle sources come from the main loop. */
  predicate Enabled(s: State, e: Event) {
    match e
    case ERequest(_) => true
    case ERef(r) => r in s.requests && s.requests[r].caller > 0
    case EUnref(r) => r in s.requests && s.requests[r].caller > 0
    case EUnqueue(r) => r in s.requests && s.requests[r].caller > 0
    case EGotHandle(r, _) => s.activity.None? && r in s.queueReplies && r in s.requests
    case EFinish(_) => s.activity.None?
    case EFinishEnd => s.activity.Finishing?
    case EUnqueued(r) => s.activity.None? && r in s.unqueueReplies && r in s.requests && s.requests[r].key.Some?
    case EIdle(r) => s.activity.None? && r in s.idles && r in s.requests
    case EIdleEnd => s.activity.Answering?
  }

  function Step(s: State, e: Event): State
    requires Enabled(s, e)
  {
    match e
    case ERequest(have) => NewRequest(s, have)
    case ERef(r) => CallerRef(s, r)
    case EUnref(r) => CallerUnref(s, r)
    case EUnqueue(r) => UnqueueCall(s, r)
    case EGotHandle(r, h) => GotHandle(s, r, h)
    case EFinish(h) => FinishBegin(s, h)
    case EFinishEnd => FinishEnd(s, s.activity.handle)
    case EUnqueued(r) => Unqueued(s, r)
    case EIdle(r) => IdleBegin(s, r)
    case EIdleEnd => IdleEnd(s, s.activity.request)
  }

  /** Events that are not possible where they stand are skipped. */
  function Run(es: seq<Event>): State {
    if es == [] then INIT
    else
      var s := Run(es[..|es| - 1]);
      Next(s, es[|es| - 1])
  }

  function Next(s: State, e: Event): State {
    if Enabled(s, e) then Step(s, e) else s
  }

  // ---------------------------------------------------------------- invariant

  function One(b: bool): nat { if b then 1 else 0 }

  predicate InTasks(s: State, r: RequestId)
    requires r in s.requests
  {
    s.requests[r].key.Some? && s.requests[r].key.value in s.tasks && s.tasks[s.requests[r].key.value] == r
  }

  predicate RequestInv(s: State, r: RequestId) {
    && (r in s.requests <==> r < s.next)
    && (r !in s.requests ==> r !in s.queueReplies && r !in s.idles && s.unqueueReplies[r] == 0)
    && (r in s.requests ==>
          var q := s.requests[r];
          && q.refs == q.caller + One(r in s.queueReplies) + One(r in s.idles) + One(InTasks(s, r)) + s.unqueueReplies[r]
          && (r in s.queueReplies ==> q.daemon && q.key.None? && q.called == 0)
          && (r in s.idles ==> !q.daemon && (s.activity != Answering(r) ==> q.called == 0))
          && (!q.daemon ==> q.key.None?)
          && (InTasks(s, r) && s.activity != Finishing(q.key.value) ==> q.called == 0)
          && (s.unqueueReplies[r] > 0 ==> q.key.Some? && q.unqueued)
          && q.called <= 1)
  }

  predicate EntryInv(s: State, h: Handle) {
    h in s.tasks ==> s.tasks[h] in s.requests && s.requests[s.tasks[h]].key == Some(h)
  }

  ghost predicate Inv(s: State) {
    && (forall r :: RequestInv(s, r))
    && (forall h :: EntryInv(s, h))
    && (s.activity.Finishing? ==> s.activity.handle in s.tasks)
    && (s.activity.Answering? ==> s.activity.request in s.idles)
  }

  lemma RequestKeeps(s: State, have: bool)
    requires Inv(s)
    ensures Inv(NewRequest(s, have))
  {
    var t := NewRequest(s, have);
    assert RequestInv(s, s.next);
    forall r ensures RequestInv(t, r) { assert RequestInv(s, r); }
    forall h ensures EntryInv(t, h) { assert EntryInv(s, h); }
  }

  lemma CallerKeeps(s: State, e: Event)
    requires Inv(s) && Enabled(s, e) && (e.ERef? || e.EUnref? || e.EUnqueue?)
    ensures Inv(Step(s, e))
  {
    var t := Step(s, e);
    assert RequestInv(s, e.r);
    forall r ensures RequestInv(t, r) { assert RequestInv(s, r); }
    forall h ensures EntryInv(t, h) { assert EntryInv(s, h); }
  }

  lemma GotHandleKeeps(s: State, r0: RequestId, h0: Handle)
    requires Inv(s) && Enabled(s, EGotHandle(r0, h0))
    ensures Inv(GotHandle(s, r0, h0))
  {
    var t := GotHandle(s, r0, h0);
    assert RequestInv(s, r0) && EntryInv(s, h0);
    if h0 in s.tasks { assert RequestInv(s, s.tasks[h0]); }
    forall r ensures RequestInv(t, r) { assert RequestInv(s, r); }
    forall h ensures EntryInv(t, h) { assert EntryInv(s, h); }
  }

  lemma FinishKeeps(s: State, h0: Handle)
    requires Inv(s) && s.activity.None?
    ensures Inv(FinishBegin(s, h0))
  {
    var t := FinishBegin(s, h0);
    assert EntryInv(s, h0);
    if h0 in s.tasks { assert RequestInv(s, s.tasks[h0]); }
    forall r ensures RequestInv(t, r) { assert RequestInv(s, r); }
    forall h ensures EntryInv(t, h) { assert EntryInv(s, h); }
  }

  lemma FinishEndKeeps(s: State)
    requires Inv(s) && s.activity.Finishing?
    ensures Inv(FinishEnd(s, s.activity.handle))
  {
    var t := FinishEnd(s, s.activity.handle);
    assert EntryInv(s, s.activity.handle) && RequestInv(s, s.tasks[s.activity.handle]);
    forall r ensures RequestInv(t, r) { assert RequestInv(s, r); }
    forall h ensures EntryInv(t, h) { assert EntryInv(s, h); }
  }

  lemma RemoveKeeps(s: State, h0: Handle)
    requires Inv(s) && s.activity.None?
    ensures Inv(RemoveTask(s, h0))
  {
    var t := RemoveTask(s, h0);
    assert EntryInv(s, h0);
    if h0 in s.tasks { assert RequestInv(s, s.tasks[h0]); }
    forall r ensures RequestInv(t, r) { assert RequestInv(s, r); }
    forall h ensures EntryInv(t, h) { assert EntryInv(s, h); }
  }

  lemma ReplyDone(s: State, r0: RequestId)
    requires Inv(s) && s.activity.None? && r0 in s.unqueueReplies
    ensures Inv(s.(requests := Unref(s.requests, r0), unqueueReplies := s.unqueueReplies - multiset{r0}))
  {
    var t := s.(requests := Unref(s.requests, r0), unqueueReplies := s.unqueueReplies - multiset{r0});
    assert RequestInv(s, r0);
    forall r ensures RequestInv(t, r) { assert RequestInv(s, r); }
    forall h ensures EntryInv(t, h) { assert EntryInv(s, h); }
  }

  lemma UnqueuedKeeps(s: State, r0: RequestId)
    requires Inv(s) && Enabled(s, EUnqueued(r0))
    ensures Inv(Unqueued(s, r0))
  {
    RemoveKeeps(s, s.requests[r0].key.value);
    ReplyDone(RemoveTask(s, s.requests[r0].key.value), r0);
  }

  lemma IdleKeeps(s: State, e: Event)
    requires Inv(s) && Enabled(s, e) && (e.EIdle? || e.EIdleEnd?)
    ensures Inv(Step(s, e))
  {
    var t := Step(s, e);
    var r0 := if e.EIdle? then e.r else s.activity.request;
    assert RequestInv(s, r0);
    forall r ensures RequestInv(t, r) { assert RequestInv(s, r); }
    forall h ensures EntryInv(t, h) { assert EntryInv(s, h); }
  }

  lemma StepKeeps(s: State, e: Event)
    requires Inv(s) && Enabled(s, e)
    ensures Inv(Step(s, e))
  {
    match e
    case ERequest(have) => RequestKeeps(s, have);
    case EGotHandle(r, h) => GotHandleKeeps(s, r, h);
    case EFinish(h) => FinishKeeps(s, h);
    case EFinishEnd => FinishEndKeeps(s);
    case EUnqueued(r) => UnqueuedKeeps(s, r);
    case EIdle(_) => IdleKeeps(s, e);
    case EIdleEnd => IdleKeeps(s, e);
    case _ => CallerKeeps(s, e);
  }

  lemma RunAppend(es: seq<Event>, e: Event)
    ensures Run(es + [e]) == Next(Run(es), e)
  {
    assert (es + [e])[..|es|] == es;
  }

  lemma {:induction false} RunKeepsInv(es: seq<Event>)
    ensures Inv(Run(es))
  {
    if es != [] {
      var before := es[..|es| - 1];
      RunKeepsInv(before);
      if Enabled(Run(before), es[|es| - 1]) {
        StepKeeps(Run(before), es[|es| - 1]);
      }
    }
  }

  // ---------------------------------------------------------------- main results

  /** In every reachable state a request's count is the application's references plus one for each
      pending Queue reply, pending idle answer, table entry and pending Unqueue reply. */
  lemma ReferencesAreAccounted(es: seq<Event>, r: RequestId)
    requires r < Run(es).next
    ensures var s := Run(es);
      && r in s.requests
      && s.requests[r].refs == s.requests[r].caller + One(r in s.queueReplies) + One(r in s.idles)
                               + One(InTasks(s, r)) + s.unqueueReplies[r]
  {
    RunKeepsInv(es);
    assert RequestInv(Run(es), r);
  }

  /** The requests a handler works on. */
  function Touched(s: State, e: Event): set<RequestId> {
    match e
    case EGotHandle(r, h) => {r} + (if h in s.tasks then {s.tasks[h]} else {})
    case EFinish(h) => if h in s.tasks then {s.tasks[h]} else {}
    case EFinishEnd => if s.activity.Finishing? && s.activity.handle in s.tasks then {s.tasks[s.activity.handle]} else {}
    case EUnqueued(r) =>
      {r} + (if r in s.requests && s.requests[r].key.Some? && s.requests[r].key.value in s.tasks
             then {s.tasks[s.requests[r].key.value]} else {})
    case EIdle(r) => {r}
    case EIdleEnd => if s.activity.Answering? then {s.activity.request} else {}
    case ERef(r) => {r}
    case EUnref(r) => {r}
    case EUnqueue(r) => {r}
    case ERequest(_) => {}
  }

  lemma NothingDead(s: State, e: Event)
    requires Inv(s) && Enabled(s, e)
    ensures forall r :: r in Touched(s, e) ==> r in s.requests && s.requests[r].refs > 0
  {
    forall r | r in Touched(s, e) ensures r in s.requests && s.requests[r].refs > 0 {
      assert RequestInv(s, r);
      match e
      case EGotHandle(_, h) => assert EntryInv(s, h);
      case EFinish(h) => assert EntryInv(s, h);
      case EFinishEnd => assert EntryInv(s, s.activity.handle);
      case EUnqueued(q) => assert EntryInv(s, s.requests[q].key.value);
      case _ =>
    }
  }

  /** No handler ever works on a finalized request. */
  lemma NothingFinalizedIsTouched(es: seq<Event>, e: Event, r: RequestId)
    requires Enabled(Run(es), e) && r in Touched(Run(es), e)
    ensures r in Run(es).requests && Run(es).requests[r].refs > 0
  {
    RunKeepsInv(es);
    NothingDead(Run(es), e);
  }

  /** The callback of a request runs at most once, whatever handles the daemon answers. */
  lemma CalledAtMostOnce(es: seq<Event>, r: RequestId)
    requires r in Run(es).requests
    ensures Run(es).requests[r].called <= 1
  {
    RunKeepsInv(es);
    assert RequestInv(Run(es), r);
  }

  // ---------------------------------------------------------------- the fields are the history

  /** What an event can mean for request r. */
  datatype Fact =
    | AsksDaemon(r: RequestId)
    | FoundInCache(r: RequestId)
    | CallerRefs(r: RequestId)
    | CallerUnrefs(r: RequestId)
    | Unqueues(r: RequestId)
    | TellsDaemon(r: RequestId)
    | DaemonTold(r: RequestId)
    | Replied(r: RequestId)
    | Accepted(r: RequestId)
    | CallsBack(r: RequestId)
    | IdleDone(r: RequestId)

  predicate Says(f: Fact, s: State, e: Event)
    requires Enabled(s, e)
  {
    match f
    case AsksDaemon(r) => e == ERequest(false) && s.next == r
    case FoundInCache(r) => e == ERequest(true) && s.next == r
    case CallerRefs(r) => e == ERef(r)
    case CallerUnrefs(r) => e == EUnref(r)
    case Unqueues(r) => e == EUnqueue(r)
    case TellsDaemon(r) => e == EUnqueue(r) && s.requests[r].key.Some?
    case DaemonTold(r) => e == EUnqueued(r)
    case Replied(r) => e.EGotHandle? && e.r == r
    case Accepted(r) => e.EGotHandle? && e.r == r && !s.requests[r].unqueued
    case CallsBack(r) => e == EIdle(r) || (e.EFinish? && Entry(s, e.h, r) && !s.requests[r].unqueued)
    case IdleDone(r) => e.EIdleEnd? && s.activity == Answering(r)
  }

  predicate Entry(s: State, h: Handle, r: RequestId) {
    h in s.tasks && s.tasks[h] == r && r in s.requests
  }

  /** How often it has happened. */
  function Times(es: seq<Event>, f: Fact): nat {
    if es == [] then 0
    else
      var before, e := es[..|es| - 1], es[|es| - 1];
      Times(before, f) + One(Enabled(Run(before), e) && Says(f, Run(before), e))
  }

  lemma {:induction false} TimesAppend(es: seq<Event>, e: Event, f: Fact)
    ensures Times(es + [e], f) == Times(es, f) + One(Enabled(Run(es), e) && Says(f, Run(es), e))
  {
    assert (es + [e])[..|es|] == es;
  }

  /** What one step changes about a request. */
  predicate Moves(s: State, e: Event, r: RequestId)
    requires Enabled(s, e) && r in s.requests && r in Step(s, e).requests
  {
    var t := Step(s, e);
    var (q, q') := (s.requests[r], t.requests[r]);
    && q'.daemon == q.daemon
    && q'.called == q.called + One(Says(CallsBack(r), s, e))
    && q'.caller == q.caller + One(Says(CallerRefs(r), s, e)) - One(Says(CallerUnrefs(r), s, e))
    && (q'.unqueued <==> q.unqueued || Says(Unqueues(r), s, e))
    && One(q'.key.Some?) == One(q.key.Some?) + One(Says(Accepted(r), s, e))
    && t.unqueueReplies[r] == s.unqueueReplies[r] + One(Says(TellsDaemon(r), s, e)) - One(Says(DaemonTold(r), s, e))
    && One(r in t.queueReplies) == One(r in s.queueReplies) - One(Says(Replied(r), s, e))
    && One(r in t.idles) == One(r in s.idles) - One(Says(IdleDone(r), s, e))
  }

  /** Dropping an entry changes nothing of a request but its count. */
  predicate SameButRefs(s: State, t: State, r: RequestId) {
    && r in s.requests && r in t.requests && t.requests[r] == s.requests[r].(refs := t.requests[r].refs)
    && t.queueReplies == s.queueReplies && t.unqueueReplies == s.unqueueReplies && t.idles == s.idles
  }

  lemma RemoveTaskSame(s: State, h: Handle, r: RequestId)
    requires r in s.requests
    ensures SameButRefs(s, RemoveTask(s, h), r)
  {}

  lemma NewRequestMoves(s: State, e: Event, r: RequestId)
    requires Inv(s) && e.ERequest? && r in s.requests
    ensures r in Step(s, e).requests && Moves(s, e, r)
  {
    assert RequestInv(s, s.next) && RequestInv(s, r);
  }

  lemma CallerRefMoves(s: State, e: Event, r: RequestId)
    requires Enabled(s, e) && e.ERef? && r in s.requests
    ensures r in Step(s, e).requests && Moves(s, e, r)
  {}

  lemma CallerUnrefMoves(s: State, e: Event, r: RequestId)
    requires Enabled(s, e) && e.EUnref? && r in s.requests
    ensures r in Step(s, e).requests && Moves(s, e, r)
  {}

  lemma UnqueueMoves(s: State, e: Event, r: RequestId)
    requires Enabled(s, e) && e.EUnqueue? && r in s.requests
    ensures r in Step(s, e).requests && Moves(s, e, r)
  {}

  lemma LateReplyMoves(s: State, e: Event, r: RequestId)
    requires Inv(s) && Enabled(s, e) && e.EGotHandle? && s.requests[e.r].unqueued && r in s.requests
    ensures r in Step(s, e).requests && Moves(s, e, r)
  {
    assert RequestInv(s, e.r);
  }

  lemma AcceptedMoves(s: State, e: Event, r: RequestId)
    requires Inv(s) && Enabled(s, e) && e.EGotHandle? && !s.requests[e.r].unqueued && r in s.requests
    ensures r in Step(s, e).requests && Moves(s, e, r)
  {
    assert RequestInv(s, e.r);
    var q := s.requests[e.r].(key := Some(e.h));
    RemoveTaskSame(s.(queueReplies := s.queueReplies - {e.r}, requests := s.requests[e.r := q]), e.h, r);
  }

  lemma FinishMoves(s: State, e: Event, r: RequestId)
    requires Inv(s) && Enabled(s, e) && (e.EFinish? || e.EFinishEnd?) && r in s.requests
    ensures r in Step(s, e).requests && Moves(s, e, r)
  {
    if e.EFinish? {
      assert EntryInv(s, e.h);
    } else {
      RemoveTaskSame(s, s.activity.handle, r);
    }
  }

  lemma UnrefSame(s: State, t: State, r0: RequestId, r: RequestId)
    requires SameButRefs(s, t, r)
    ensures SameButRefs(s, t.(requests := Unref(t.requests, r0)), r)
  {}

  lemma UnqueuedMoves(s: State, e: Event, r: RequestId)
    requires Inv(s) && Enabled(s, e) && e.EUnqueued? && r in s.requests
    ensures r in Step(s, e).requests && Moves(s, e, r)
  {
    var t := RemoveTask(s, s.requests[e.r].key.value);
    RemoveTaskSame(s, s.requests[e.r].key.value, r);
    UnrefSame(s, t, e.r, r);
    assert Step(s, e) == t.(requests := Unref(t.requests, e.r)).(unqueueReplies := s.unqueueReplies - multiset{e.r});
  }

  lemma IdleMoves(s: State, e: Event, r: RequestId)
    requires Inv(s) && Enabled(s, e) && e.EIdle? && r in s.requests
    ensures r in Step(s, e).requests && Moves(s, e, r)
  {}

  lemma IdleEndMoves(s: State, e: Event, r: RequestId)
    requires Inv(s) && Enabled(s, e) && e.EIdleEnd? && r in s.requests
    ensures r in Step(s, e).requests && Moves(s, e, r)
  {
    UnrefSame(s, s, s.activity.request, r);
  }

  lemma StepMoves(s: State, e: Event, r: RequestId)
    requires Inv(s) && Enabled(s, e) && r in s.requests
    ensures r in Step(s, e).requests && Moves(s, e, r)
  {
    match e
    case ERequest(_) => NewRequestMoves(s, e, r);
    case EGotHandle(r0, _) => if s.requests[r0].unqueued { LateReplyMoves(s, e, r); } else { AcceptedMoves(s, e, r); }
    case EFinish(_) => FinishMoves(s, e, r);
    case EFinishEnd => FinishMoves(s, e, r);
    case EUnqueued(_) => UnqueuedMoves(s, e, r);
    case EIdle(_) => IdleMoves(s, e, r);
    case EIdleEnd => IdleEndMoves(s, e, r);
    case ERef(_) => CallerRefMoves(s, e, r);
    case EUnref(_) => CallerUnrefMoves(s, e, r);
    case EUnqueue(_) => UnqueueMoves(s, e, r);
  }

  lemma {:induction false} NothingBefore(es: seq<Event>, f: Fact)
    requires f.r >= Run(es).next
    ensures Times(es, f) == 0
  {
    if es != [] {
      var before, e := es[..|es| - 1], es[|es| - 1];
      assert es == before + [e];
      RunAppend(before, e);
      RunKeepsInv(before);
      assert RequestInv(Run(before), f.r);
      NextGrows(Run(before), e);
      NothingBefore(before, f);
      if Enabled(Run(before), e) {
        NotYet(Run(before), e, f);
      }
    }
  }

  lemma NextGrows(s: State, e: Event)
    ensures Enabled(s, e) ==> Step(s, e).next == s.next + One(e.ERequest?)
  {}

  lemma NotYet(s: State, e: Event, f: Fact)
    requires Enabled(s, e) && f.r !in s.requests && f.r >= Step(s, e).next
    requires RequestInv(s, f.r) && (s.activity.Answering? ==> s.activity.request in s.idles)
    ensures !Says(f, s, e)
  {
    NextGrows(s, e);
  }

  /** The state of a request, written as counts of what has happened to it. */
  predicate Accounted(es: seq<Event>, r: RequestId) {
    var s := Run(es);
    && r in s.requests
    && s.requests[r].called == Times(es, CallsBack(r))
    && s.requests[r].caller == 1 + Times(es, CallerRefs(r)) - Times(es, CallerUnrefs(r))
    && (s.requests[r].unqueued <==> Times(es, Unqueues(r)) > 0)
    && One(s.requests[r].key.Some?) == Times(es, Accepted(r))
    && s.unqueueReplies[r] == Times(es, TellsDaemon(r)) - Times(es, DaemonTold(r))
    && One(r in s.queueReplies) == Times(es, AsksDaemon(r)) - Times(es, Replied(r))
    && One(r in s.idles) == Times(es, FoundInCache(r)) - Times(es, IdleDone(r))
    && One(s.requests[r].daemon) == Times(es, AsksDaemon(r))
    && One(!s.requests[r].daemon) == Times(es, FoundInCache(r))
  }

  lemma AllTimesAppend(es: seq<Event>, e: Event, r: RequestId)
    requires Enabled(Run(es), e)
    ensures var s := Run(es);
      && Times(es + [e], CallsBack(r)) == Times(es, CallsBack(r)) + One(Says(CallsBack(r), s, e))
      && Times(es + [e], CallerRefs(r)) == Times(es, CallerRefs(r)) + One(Says(CallerRefs(r), s, e))
      && Times(es + [e], CallerUnrefs(r)) == Times(es, CallerUnrefs(r)) + One(Says(CallerUnrefs(r), s, e))
      && Times(es + [e], Unqueues(r)) == Times(es, Unqueues(r)) + One(Says(Unqueues(r), s, e))
      && Times(es + [e], Accepted(r)) == Times(es, Accepted(r)) + One(Says(Accepted(r), s, e))
      && Times(es + [e], TellsDaemon(r)) == Times(es, TellsDaemon(r)) + One(Says(TellsDaemon(r), s, e))
      && Times(es + [e], DaemonTold(r)) == Times(es, DaemonTold(r)) + One(Says(DaemonTold(r), s, e))
      && Times(es + [e], AsksDaemon(r)) == Times(es, AsksDaemon(r)) + One(Says(AsksDaemon(r), s, e))
      && Times(es + [e], FoundInCache(r)) == Times(es, FoundInCache(r)) + One(Says(FoundInCache(r), s, e))
      && Times(es + [e], Replied(r)) == Times(es, Replied(r)) + One(Says(Replied(r), s, e))
      && Times(es + [e], IdleDone(r)) == Times(es, IdleDone(r)) + One(Says(IdleDone(r), s, e))
  {
    TimesAppend(es, e, CallsBack(r));
    TimesAppend(es, e, CallerRefs(r));
    TimesAppend(es, e, CallerUnrefs(r));
    TimesAppend(es, e, Unqueues(r));
    TimesAppend(es, e, Accepted(r));
    TimesAppend(es, e, TellsDaemon(r));
    TimesAppend(es, e, DaemonTold(r));
    TimesAppend(es, e, AsksDaemon(r));
    TimesAppend(es, e, FoundInCache(r));
    TimesAppend(es, e, Replied(r));
    TimesAppend(es, e, IdleDone(r));
  }

  lemma AccountedOn(es: seq<Event>, e: Event, r: RequestId)
    requires Accounted(es, r) && Enabled(Run(es), e)
    ensures Accounted(es + [e], r)
  {
    RunKeepsInv(es);
    StepMoves(Run(es), e, r);
    AllTimesAppend(es, e, r);
    RunAppend(es, e);
    assert RequestInv(Run(es), r);
  }

  lemma NothingYet(es: seq<Event>, r: RequestId)
    requires r >= Run(es).next
    ensures Times(es, CallsBack(r)) == 0 && Times(es, CallerRefs(r)) == 0 && Times(es, CallerUnrefs(r)) == 0
    ensures Times(es, Unqueues(r)) == 0 && Times(es, Accepted(r)) == 0 && Times(es, TellsDaemon(r)) == 0
    ensures Times(es, DaemonTold(r)) == 0 && Times(es, AsksDaemon(r)) == 0 && Times(es, FoundInCache(r)) == 0
    ensures Times(es, Replied(r)) == 0 && Times(es, IdleDone(r)) == 0
  {
    NothingBefore(es, CallsBack(r));
    NothingBefore(es, CallerRefs(r));
    NothingBefore(es, CallerUnrefs(r));
    NothingBefore(es, Unqueues(r));
    NothingBefore(es, Accepted(r));
    NothingBefore(es, TellsDaemon(r));
    NothingBefore(es, DaemonTold(r));
    NothingBefore(es, AsksDaemon(r));
    NothingBefore(es, FoundInCache(r));
    NothingBefore(es, Replied(r));
    NothingBefore(es, IdleDone(r));
  }

  lemma BornState(s: State, have: bool)
    requires RequestInv(s, s.next)
    ensures var (t, r) := (NewRequest(s, have), s.next);
      && r in t.requests && t.requests[r] == Request(!have, 2, 1, Option.None, false, 0) && t.unqueueReplies[r] == 0
      && (r in t.queueReplies <==> !have) && (r in t.idles <==> have)
  {}

  lemma AccountedAtBirth(es: seq<Event>, have: bool)
    ensures Accounted(es + [ERequest(have)], Run(es).next)
  {
    var e, s := ERequest(have), Run(es);
    var r := s.next;
    RunKeepsInv(es);
    assert RequestInv(s, r);
    NothingYet(es, r);
    AllTimesAppend(es, e, r);
    BornAll(s, have);
    BornState(s, have);
    RunAppend(es, e);
  }

  lemma BornAll(s: State, have: bool)
    requires RequestInv(s, s.next)
    ensures var (e, r) := (ERequest(have), s.next);
      && !Says(CallsBack(r), s, e) && !Says(CallerRefs(r), s, e) && !Says(CallerUnrefs(r), s, e) && !Says(Unqueues(r), s, e)
      && !Says(Accepted(r), s, e) && !Says(TellsDaemon(r), s, e) && !Says(DaemonTold(r), s, e) && !Says(Replied(r), s, e)
      && !Says(IdleDone(r), s, e) && (Says(AsksDaemon(r), s, e) <==> !have) && (Says(FoundInCache(r), s, e) <==> have)
  {}

  /** In every run the state of a request is the sum of what has happened to it: how often the application
      was called back and took or dropped references, whether it was unqueued, and which replies are due. */
  lemma {:induction false} StateIsHistory(es: seq<Event>, r: RequestId)
    requires r < Run(es).next
    ensures Accounted(es, r)
  {
    var before, e := es[..|es| - 1], es[|es| - 1];
    assert es == before + [e];
    RunAppend(before, e);
    if r < Run(before).next {
      StateIsHistory(before, r);
      if Enabled(Run(before), e) {
        AccountedOn(before, e, r);
      } else {
        SkippedKeeps(before, e, r);
      }
    } else {
      NextGrows(Run(before), e);
      AccountedAtBirth(before, e.have);
    }
  }

  lemma SkippedKeeps(es: seq<Event>, e: Event, r: RequestId)
    requires Accounted(es, r) && !Enabled(Run(es), e)
    ensures Accounted(es + [e], r)
  {
    RunAppend(es, e);
    assert (es + [e])[..|es|] == es;
  }

  /** The Finished signal calls the application back exactly for an entry that was not unqueued, and
      nobody else. */
  lemma FinishedCallsBack(es: seq<Event>, h: Handle)
    requires Run(es).activity.None? && h in Run(es).tasks
    ensures var (s, t) := (Run(es), Run(es + [EFinish(h)])); var r := s.tasks[h];
      && r in s.requests && r in t.requests && t.requests[r].called == (if s.requests[r].unqueued then 0 else 1)
      && forall q :: q in s.requests && q != r ==> q in t.requests && t.requests[q].called == s.requests[q].called
  {
    RunKeepsInv(es);
    RunAppend(es, EFinish(h));
    assert EntryInv(Run(es), h) && RequestInv(Run(es), Run(es).tasks[h]);
  }

  /** Nothing in the step touches the entry of r under h. */
  predicate Spares(s: State, e: Event, r: RequestId, h: Handle) {
    e != EUnqueue(r) && e != EFinish(h) && !UnqueuesKey(s, e, h) && !(e.EGotHandle? && e.h == h)
  }

  predicate Waits(s: State, r: RequestId, h: Handle) {
    Entry(s, h, r) && !s.requests[r].unqueued && s.activity != Finishing(h)
  }

  lemma WaitsOn(s: State, e: Event, r: RequestId, h: Handle)
    requires Inv(s) && Waits(s, r, h) && Spares(s, e, r, h)
    ensures Waits(Next(s, e), r, h)
  {
    if Enabled(s, e) {
      StepMoves(s, e, r);
      assert EntryInv(s, h);
      StepEntries(s, e, h);
      EntrySame(s, e, h);
    }
  }

  lemma EntrySame(s: State, e: Event, h: Handle)
    requires Enabled(s, e) && h in s.tasks && h in Step(s, e).tasks && !(e.EGotHandle? && e.h == h)
    ensures Step(s, e).tasks[h] == s.tasks[h]
  {}

  predicate SparedAt(es: seq<Event>, mid: seq<Event>, k: nat, r: RequestId, h: Handle)
    requires k < |mid|
  {
    Spares(Run(es + mid[..k]), mid[k], r, h)
  }

  predicate AllSpared(es: seq<Event>, mid: seq<Event>, r: RequestId, h: Handle) {
    forall k :: 0 <= k < |mid| ==> SparedAt(es, mid, k, r, h)
  }

  lemma {:induction false} SparedBefore(es: seq<Event>, mid: seq<Event>, r: RequestId, h: Handle, n: nat)
    requires AllSpared(es, mid, r, h) && n <= |mid|
    ensures AllSpared(es, mid[..n], r, h)
  {
    forall k | 0 <= k < n ensures SparedAt(es, mid[..n], k, r, h) {
      assert SparedAt(es, mid, k, r, h);
      assert mid[..n][..k] == mid[..k];
    }
  }

  lemma {:induction false} WaitsThrough(es: seq<Event>, mid: seq<Event>, r: RequestId, h: Handle)
    requires Waits(Run(es), r, h) && AllSpared(es, mid, r, h)
    ensures Waits(Run(es + mid), r, h)
  {
    if mid == [] {
      assert es + mid == es;
    } else {
      var n := |mid| - 1;
      SparedBefore(es, mid, r, h, n);
      WaitsThrough(es, mid[..n], r, h);
      assert es + mid == es + mid[..n] + [mid[n]];
      assert SparedAt(es, mid, n, r, h);
      WaitsNext(es + mid[..n], mid[n], r, h);
    }
  }

  lemma {:induction false} WaitsNext(es: seq<Event>, e: Event, r: RequestId, h: Handle)
    requires Waits(Run(es), r, h) && Spares(Run(es), e, r, h)
    ensures Waits(Run(es + [e]), r, h)
  {
    RunKeepsInv(es);
    RunAppend(es, e);
    WaitsOn(Run(es), e, r, h);
  }

  lemma {:induction false} CalledStays(es: seq<Event>, later: seq<Event>, r: RequestId)
    requires r in Run(es).requests
    ensures r in Run(es + later).requests && Run(es + later).requests[r].called >= Run(es).requests[r].called
  {
    if later == [] {
      assert es + later == es;
    } else {
      var n := |later| - 1;
      CalledStays(es, later[..n], r);
      assert es + later == es + later[..n] + [later[n]];
      RunAppend(es + later[..n], later[n]);
      RunKeepsInv(es + later[..n]);
      if Enabled(Run(es + later[..n]), later[n]) {
        StepMoves(Run(es + later[..n]), later[n], r);
      }
    }
  }

  /** Exactly once: a request whose Queue reply is accepted and followed by its Finished signal, with no
      unqueue and no reuse of the handle between, is called back once and never again. */
  lemma {:induction false} CalledExactlyOnce(es: seq<Event>, r: RequestId, h: Handle, mid: seq<Event>, later: seq<Event>)
    requires Enabled(Run(es), EGotHandle(r, h)) && !Run(es).requests[r].unqueued
    requires var all := es + [EGotHandle(r, h)];
      AllSpared(all, mid, r, h) && Run(all + mid).activity.None?
    ensures var end := es + [EGotHandle(r, h)] + mid + [EFinish(h)] + later;
      r in Run(end).requests && Run(end).requests[r].called == 1
  {
    var all := es + [EGotHandle(r, h)];
    RunAppend(es, EGotHandle(r, h));
    RunKeepsInv(es);
    RunKeepsInv(all);
    assert Waits(Run(all), r, h);
    WaitsThrough(all, mid, r, h);
    FinishedCallsBack(all + mid, h);
    CalledStays(all + mid + [EFinish(h)], later, r);
    CalledAtMostOnce(all + mid + [EFinish(h)] + later, r);
  }

  /** A request answered from the cache is called back once, when its idle source is dispatched. */
  lemma CachedIsCalledOnce(es: seq<Event>, r: RequestId)
    requires Enabled(Run(es), EIdle(r))
    ensures r in Run(es + [EIdle(r)]).requests && Run(es + [EIdle(r)]).requests[r].called == 1
  {
    RunKeepsInv(es);
    RunAppend(es, EIdle(r));
    assert RequestInv(Run(es), r);
  }

  /** Nothing that has yet to come can run the callback of r. */
  predicate Silent(s: State, r: RequestId, called: nat) {
    && r in s.requests && s.requests[r].unqueued && s.requests[r].called == called
    && (r in s.idles ==> s.activity == Answering(r))
  }

  lemma RemoveTaskSilent(s: State, h: Handle, r: RequestId, called: nat)
    requires Silent(s, r, called)
    ensures Silent(RemoveTask(s, h), r, called)
  {}

  lemma SilentStays(s: State, e: Event, r: RequestId, called: nat)
    requires Inv(s) && Enabled(s, e) && Silent(s, r, called)
    ensures Silent(Step(s, e), r, called)
  {
    assert RequestInv(s, r);
    match e
    case ERequest(_) => assert RequestInv(s, s.next);
    case EGotHandle(r0, h) =>
      if !s.requests[r0].unqueued {
        var q := s.requests[r0].(key := Some(h));
        RemoveTaskSilent(s.(queueReplies := s.queueReplies - {r0}, requests := s.requests[r0 := q]), h, r, called);
      }
    case EFinishEnd => RemoveTaskKeeps(s, s.activity.handle, r);
    case EUnqueued(r0) => RemoveTaskSilent(s, s.requests[r0].key.value, r, called);
    case _ =>
  }

  lemma RemoveTaskKeeps(s: State, h: Handle, r: RequestId)
    requires r in s.requests
    ensures var t := RemoveTask(s, h);
      && r in t.requests && t.requests[r].called == s.requests[r].called
      && t.requests[r].unqueued == s.requests[r].unqueued && t.requests[r].daemon == s.requests[r].daemon
      && t.idles == s.idles && t.activity == s.activity
  {}

  lemma {:induction false} SilentForever(es: seq<Event>, later: seq<Event>, r: RequestId, called: nat)
    requires Silent(Run(es), r, called)
    ensures Silent(Run(es + later), r, called)
  {
    if later == [] {
      assert es + later == es;
    } else {
      var n := |later| - 1;
      SilentForever(es, later[..n], r, called);
      RunAppend(es + later[..n], later[n]);
      assert es + later == es + later[..n] + [later[n]];
      RunKeepsInv(es + later[..n]);
      if Enabled(Run(es + later[..n]), later[n]) {
        SilentStays(Run(es + later[..n]), later[n], r, called);
      }
    }
  }

  /** The idle source that answers r from the cache is still to be dispatched. */
  predicate AnswerPending(s: State, r: RequestId) {
    r in s.idles && s.activity != Answering(r)
  }

  predicate PendingWith(s: State, r: RequestId, called: nat) {
    AnswerPending(s, r) && r in s.requests && s.requests[r].called == called
  }

  lemma EndsFinishing(s: State, r: RequestId, called: nat)
    requires PendingWith(s, r, called)
    ensures PendingWith(Next(s, EFinishEnd), r, called) && !Next(s, EFinishEnd).activity.Finishing?
  {
    if s.activity.Finishing? {
      RemoveTaskKeeps(s, s.activity.handle, r);
    }
  }

  lemma EndsAnswering(s: State, r: RequestId, called: nat)
    requires PendingWith(s, r, called) && !s.activity.Finishing?
    ensures PendingWith(Next(s, EIdleEnd), r, called) && Next(s, EIdleEnd).activity.None?
  {}

  lemma AnswersNow(s: State, r: RequestId, called: nat)
    requires PendingWith(s, r, called) && s.activity.None?
    ensures r in Next(s, EIdle(r)).requests && Next(s, EIdle(r)).requests[r].called == called + 1
  {}

  /** Ends whatever callback is running, then dispatches the idle source. */
  lemma {:induction false} PendingAnswerComes(es: seq<Event>, r: RequestId)
    requires AnswerPending(Run(es), r)
    ensures r in Run(es).requests
    ensures var t := Run(es + [EFinishEnd, EIdleEnd, EIdle(r)]);
      r in t.requests && t.requests[r].called == Run(es).requests[r].called + 1
  {
    RunKeepsInv(es);
    assert RequestInv(Run(es), r);
    var called := Run(es).requests[r].called;
    var a, b := es + [EFinishEnd], es + [EFinishEnd] + [EIdleEnd];
    RunAppend(es, EFinishEnd);
    EndsFinishing(Run(es), r, called);
    RunAppend(a, EIdleEnd);
    EndsAnswering(Run(a), r, called);
    RunAppend(b, EIdle(r));
    AnswersNow(Run(b), r, called);
    assert es + [EFinishEnd, EIdleEnd, EIdle(r)] == b + [EIdle(r)];
  }

  /** From the state after es, no continuation changes how often r has been called back. */
  ghost predicate NeverCalledAgain(es: seq<Event>, r: RequestId, called: nat) {
    forall later :: r in Run(es + later).requests && Run(es + later).requests[r].called == called
  }

  /** Exactly when `unqueue` silences a request: unless it was answered from the cache and the idle
      source with that answer has not been dispatched yet, its callback never runs after `unqueue` returns. */
  lemma UnqueueSilencesIff(es: seq<Event>, r: RequestId)
    requires Enabled(Run(es), EUnqueue(r))
    ensures NeverCalledAgain(es + [EUnqueue(r)], r, Run(es).requests[r].called) <==> !AnswerPending(Run(es), r)
  {
    var all, called := es + [EUnqueue(r)], Run(es).requests[r].called;
    RunAppend(es, EUnqueue(r));
    assert AnswerPending(Run(all), r) <==> AnswerPending(Run(es), r);
    if AnswerPending(Run(es), r) {
      PendingAnswerComes(all, r);
    } else {
      forall later ensures r in Run(all + later).requests && Run(all + later).requests[r].called == called {
        SilentForever(all, later, r, called);
      }
    }
  }

  predicate Quiet(s: State, r: RequestId, called: nat) {
    r in s.requests && s.requests[r].daemon && s.requests[r].unqueued && s.requests[r].called == called
  }

  lemma {:induction false} SentToDaemonStays(es: seq<Event>, later: seq<Event>, r: RequestId)
    requires r in Run(es).requests
    ensures r in Run(es + later).requests && Run(es + later).requests[r].daemon == Run(es).requests[r].daemon
  {
    if later == [] {
      assert es + later == es;
    } else {
      var n := |later| - 1;
      SentToDaemonStays(es, later[..n], r);
      RunAppend(es + later[..n], later[n]);
      assert es + later == es + later[..n] + [later[n]];
      RunKeepsInv(es + later[..n]);
      if Enabled(Run(es + later[..n]), later[n]) {
        StepKeepsKind(Run(es + later[..n]), later[n], r);
      }
    }
  }

  lemma StepKeepsKind(s: State, e: Event, r: RequestId)
    requires Inv(s) && Enabled(s, e) && r in s.requests
    ensures r in Step(s, e).requests && Step(s, e).requests[r].daemon == s.requests[r].daemon
  {
    StepMoves(s, e, r);
  }

  /** Once `unqueue` has returned for a request that went to the daemon, its callback never runs again. */
  lemma NoCallbackAfterUnqueue(es: seq<Event>, later: seq<Event>, r: RequestId)
    requires Enabled(Run(es), EUnqueue(r)) && Run(es).requests[r].daemon
    ensures Quiet(Run(es + [EUnqueue(r)] + later), r, Run(es).requests[r].called)
  {
    var all := es + [EUnqueue(r)];
    RunAppend(es, EUnqueue(r));
    RunKeepsInv(es);
    assert RequestInv(Run(es), r);
    SilentForever(all, later, r, Run(es).requests[r].called);
    SentToDaemonStays(all, later, r);
  }

  /** A request answered from the cache is called back though it was unqueued before: the other side of
      `UnqueueSilencesIff`. */
  lemma CachedIgnoresUnqueue()
    ensures var s := Run([ERequest(true), EUnqueue(0), EIdle(0)]);
      0 in s.requests && s.requests[0].unqueued && s.requests[0].called == 1
  {
    var es := [ERequest(true), EUnqueue(0), EIdle(0)];
    assert es[..2] == [ERequest(true), EUnqueue(0)] && es[..2][..1] == [ERequest(true)] && [ERequest(true)][..0] == [];
    assert Run([ERequest(true)]) == NewRequest(INIT, true);
    assert Run(es[..2]) == UnqueueCall(NewRequest(INIT, true), 0);
  }

  /** Event i is a Queue reply that puts a request, not unqueued by then, under the handle. */
  predicate AcceptsAt(es: seq<Event>, i: nat, h: Handle) {
    && i < |es| && es[i].EGotHandle? && es[i].h == h
    && Enabled(Run(es[..i]), es[i]) && !Run(es[..i]).requests[es[i].r].unqueued
  }

  /** The event is a Finished signal for the handle or the reply to an unqueue of a request keyed by it. */
  predicate Drops(s: State, e: Event, h: Handle) {
    Enabled(s, e) && (e == EFinish(h) || UnqueuesKey(s, e, h))
  }

  predicate UnqueuesKey(s: State, e: Event, h: Handle) {
    e.EUnqueued? && e.r in s.requests && s.requests[e.r].key == Some(h)
  }

  predicate DropsAt(es: seq<Event>, j: nat, h: Handle) {
    j < |es| && Drops(Run(es[..j]), es[j], h)
  }

  /** Which entries a step leaves in the table. */
  lemma StepEntries(s: State, e: Event, h: Handle)
    requires Inv(s) && Enabled(s, e)
    ensures h in Step(s, e).tasks <==>
      (e.EGotHandle? && e.h == h && !s.requests[e.r].unqueued) ||
      (h in s.tasks && !UnqueuesKey(s, e, h) && !(e.EFinishEnd? && s.activity == Finishing(h)))
    ensures Step(s, e).activity == Finishing(h) ==> e == EFinish(h) || s.activity == Finishing(h)
    ensures s.activity == Finishing(h) ==> e.EFinishEnd? || Step(s, e).activity == Finishing(h)
    ensures e == EFinish(h) && h in s.tasks ==> Step(s, e).activity == Finishing(h)
  {
    assert EntryInv(s, h);
  }

  /** Event i put a request under the handle, and nothing since has taken it away, except perhaps a
      Finished signal whose callback is running now. */
  ghost predicate Awaits(es: seq<Event>, h: Handle, i: nat) {
    && AcceptsAt(es, i, h)
    && forall j :: i < j < |es| && DropsAt(es, j, h) ==> es[j] == EFinish(h) && Run(es).activity == Finishing(h)
  }

  lemma AwaitsLonger(es: seq<Event>, e: Event, h: Handle, i: nat)
    requires Awaits(es, h, i) && Inv(Run(es))
    requires h in Run(es).tasks && h in Run(es + [e]).tasks
    ensures Awaits(es + [e], h, i)
  {
    var all := es + [e];
    RunAppend(es, e);
    assert all[..i] == es[..i] && all[..|es|] == es;
    if Enabled(Run(es), e) {
      StepEntries(Run(es), e, h);
    }
    forall j | i < j < |all| && DropsAt(all, j, h) ensures all[j] == EFinish(h) && Run(all).activity == Finishing(h) {
      if j < |es| {
        assert all[..j] == es[..j] && es[j] == all[j] && DropsAt(es, j, h);
      }
    }
  }

  /** An entry stays in the table only for a Queue reply that neither a Finished signal nor the reply to
      an unqueue has followed. */
  lemma {:induction false} EntriesAwaitFinished(es: seq<Event>, h: Handle) returns (i: nat)
    requires h in Run(es).tasks
    ensures Awaits(es, h, i)
  {
    var before, e := es[..|es| - 1], es[|es| - 1];
    assert es == before + [e];
    RunAppend(before, e);
    RunKeepsInv(before);
    if Enabled(Run(before), e) {
      StepEntries(Run(before), e, h);
    }
    if h in Run(before).tasks && !(Enabled(Run(before), e) && e.EGotHandle? && e.h == h && !Run(before).requests[e.r].unqueued) {
      i := EntriesAwaitFinished(before, h);
      AwaitsLonger(before, e, h, i);
    } else {
      i := |before|;
      assert es[..i] == before;
    }
  }

  /** Event i put a request under the handle, and no event since could take it away. */
  ghost predicate Undisturbed(es: seq<Event>, h: Handle, i: nat) {
    AcceptsAt(es, i, h) && forall j :: i < j < |es| ==> !DropsAt(es, j, h)
  }

  lemma {:induction false} UndisturbedStays(es: seq<Event>, h: Handle, i: nat)
    requires Undisturbed(es, h, i)
    ensures h in Run(es).tasks && Run(es).activity != Finishing(h)
    decreases |es|
  {
    var before, e := es[..|es| - 1], es[|es| - 1];
    assert es == before + [e] && es[..|before|] == before;
    RunAppend(before, e);
    RunKeepsInv(before);
    if i < |before| {
      assert before[..i] == es[..i];
      forall j | i < j < |before| ensures !DropsAt(before, j, h) {
        assert before[..j] == es[..j] && !DropsAt(es, j, h);
      }
      UndisturbedStays(before, h, i);
      assert !DropsAt(es, |before|, h);
    }
    if Enabled(Run(before), e) {
      StepEntries(Run(before), e, h);
    }
  }

  /** Exactly when the table holds an entry between callbacks: some Queue reply put it there, and since
      then neither a Finished signal for the handle nor the reply to an unqueue under it has come. */
  lemma EntryStaysIff(es: seq<Event>, h: Handle)
    requires Run(es).activity != Finishing(h)
    ensures h in Run(es).tasks <==> exists i: nat :: Undisturbed(es, h, i)
  {
    if h in Run(es).tasks {
      var i := EntriesAwaitFinished(es, h);
      assert Undisturbed(es, h, i);
    }
    if i: nat :| Undisturbed(es, h, i) {
      UndisturbedStays(es, h, i);
    }
  }

  /** What the reply at event i put into the table was taken out by a later event. */
  predicate Settled(es: seq<Event>, i: nat, h: Handle) {
    exists j :: i < j < |es| && DropsAt(es, j, h)
  }

  /** Between callbacks the table is empty if and only if every accepted Queue reply has been settled. */
  lemma TableEmptyIff(es: seq<Event>)
    requires Run(es).activity.None?
    ensures Run(es).tasks == map[] <==> forall i, h :: AcceptsAt(es, i, h) ==> Settled(es, i, h)
  {
    forall h ensures h in Run(es).tasks <==> exists i: nat :: Undisturbed(es, h, i) {
      EntryStaysIff(es, h);
    }
    if Run(es).tasks == map[] {
      forall i: nat, h | AcceptsAt(es, i, h) ensures Settled(es, i, h) {
        assert h !in Run(es).tasks;
        assert !Undisturbed(es, h, i);
      }
    } else {
      var h :| h in Run(es).tasks;
      var i: nat :| Undisturbed(es, h, i);
      assert AcceptsAt(es, i, h) && !Settled(es, i, h);
    }
  }

  /** A Finished signal for the handle answered at event i comes later. */
  predicate Followed(es: seq<Event>, i: nat)
    requires i < |es| && es[i].EGotHandle?
  {
    exists j :: i < j < |es| && es[j] == EFinish(es[i].h) && Enabled(Run(es[..j]), es[j])
  }

  /** If every Queue reply that was delivered is followed by its Finished signal, the table ends empty. */
  lemma TableEndsEmpty(es: seq<Event>)
    requires Run(es).activity.None?
    requires forall i :: 0 <= i < |es| && es[i].EGotHandle? && Enabled(Run(es[..i]), es[i]) ==> Followed(es, i)
    ensures Run(es).tasks == map[]
  {
    forall i: nat, h | AcceptsAt(es, i, h) ensures Settled(es, i, h) {
      assert Followed(es, i);
      var j :| i < j < |es| && es[j] == EFinish(es[i].h) && Enabled(Run(es[..j]), es[j]);
      assert DropsAt(es, j, h);
    }
    TableEmptyIff(es);
  }

  /** A Finished signal that overtakes the Queue reply leaves its entry behind: nothing that comes after
      the reply settles it. */
  lemma OvertakingLeavesEntry()
    ensures 7 in Run([ERequest(false), EFinish(7), EGotHandle(0, 7)]).tasks
  {
    var es := [ERequest(false), EFinish(7), EGotHandle(0, 7)];
    assert es[..2] == [ERequest(false), EFinish(7)] && es[..2][..1] == [ERequest(false)] && [ERequest(false)][..0] == [];
    assert Run([ERequest(false)]) == NewRequest(INIT, false);
    assert Run(es[..2]) == NewRequest(INIT, false);
  }
}

/** The factory object and its callbacks. */
module ThumbnailClient {
  import opened Common
  import S = ThumbnailClientSpec

  class Factory {
    /** The request objects, by identity. */
    var requests: map<S.RequestId, S.Request>
    var tasks: map<S.Handle, S.RequestId>
    /** Calls and sources in flight, each with the reference it holds. */
    var next: S.RequestId
    var queueReplies: set<S.RequestId>
    var unqueueReplies: multiset<S.RequestId>
    var idles: set<S.RequestId>
    var activity: S.Activity
    /** Everything that has happened to this object. */
    ghost var events: seq<S.Event>

    ghost function Model(): S.State
      reads this
    {
      S.State(next, requests, tasks, queueReplies, unqueueReplies, idles, activity)
    }

    /** The object is where its history leads, so what holds of all runs holds of it. */
    ghost predicate Valid()
      reads this
    {
      Model() == S.Run(events)
    }

    /** The object has just taken the step `e` of its history. */
    ghost method Record(before: S.State, e: S.Event)
      requires before == S.Run(events) && S.Enabled(before, e) && Model() == S.Step(before, e)
      modifies this`events
      ensures Valid() && events == old(events) + [e]
    {
      S.RunAppend(events, e);
      events := events + [e];
    }

    constructor ()
      ensures Valid() && events == [] && Model() == S.INIT
    {
      events := [];
      requests, tasks, next := map[], map[], 0;
      queueReplies, unqueueReplies, idles, activity := {}, multiset{}, {}, S.Activity.None;
    }

    /** `g_object_unref` on a request. */
    method Unref(r: S.RequestId)
      requires r in requests && requests[r].refs > 0
      modifies this`requests
      ensures requests == S.Unref(old(requests), r)
    {
      requests := requests[r := requests[r].(refs := requests[r].refs - 1)];
    }

    /** `g_hash_table_remove` on the task table, whose values are references. */
    method RemoveTask(h: S.Handle)
      requires h in tasks ==> tasks[h] in requests && requests[tasks[h]].refs > 0
      modifies this`requests, this`tasks
      ensures Model() == S.RemoveTask(old(Model()), h)
    {
      if h in tasks {
        var r := tasks[h];
        tasks := tasks - {h};
        Unref(r);
      }
    }

    method RequestGeneric(have: bool) returns (r: S.RequestId)
      requires Valid()
      modifies this
      ensures Valid() && events == old(events) + [S.ERequest(have)]
      ensures Model() == S.NewRequest(old(Model()), have) && r == old(next)
    {
      ghost var model := Model();
      r := next;
      next := next + 1;
      ghost var before := requests;
      requests := requests[r := S.Request(!have, 1, 1, Option.None, false, 0)];
      requests := requests[r := requests[r].(refs := requests[r].refs + 1)];
      assert requests == before[r := S.Request(!have, 2, 1, Option.None, false, 0)];
      if !have {
        queueReplies := queueReplies + {r};
      } else {
        idles := idles + {r};
      }
      Record(model, S.ERequest(have));
    }

    method OnGotHandle(r: S.RequestId, h: S.Handle)
      requires Valid() && S.Enabled(Model(), S.EGotHandle(r, h))
      modifies this
      ensures Valid() && events == old(events) + [S.EGotHandle(r, h)]
      ensures Model() == S.GotHandle(old(Model()), r, h)
    {
      S.RunKeepsInv(events);
      S.RunAppend(events, S.EGotHandle(r, h));
      events := events + [S.EGotHandle(r, h)];
      S.NothingDead(Model(), S.EGotHandle(r, h));
      queueReplies := queueReplies - {r};
      if !requests[r].unqueued {
        requests := requests[r := requests[r].(key := Some(h))];
        RemoveTask(h);
        tasks := tasks[h := r];
      } else {
        Unref(r);
      }
    }

    /** Up to where the application's callback runs. */
    method OnTaskFinishedBegin(h: S.Handle)
      requires Valid() && S.Enabled(Model(), S.EFinish(h))
      modifies this
      ensures Valid() && events == old(events) + [S.EFinish(h)]
      ensures Model() == S.FinishBegin(old(Model()), h)
    {
      S.RunKeepsInv(events);
      ghost var model := Model();
      S.NothingDead(Model(), S.EFinish(h));
      if h in tasks {
        var request := tasks[h];
        if !requests[request].unqueued {
          requests := requests[request := S.Called(requests[request])];
        }
        activity := S.Finishing(h);
      }
      Record(model, S.EFinish(h));
    }

    method OnTaskFinishedEnd()
      requires Valid() && S.Enabled(Model(), S.EFinishEnd)
      modifies this
      ensures Valid() && events == old(events) + [S.EFinishEnd]
      ensures Model() == S.FinishEnd(old(Model()), old(activity).handle)
    {
      S.RunKeepsInv(events);
      S.RunAppend(events, S.EFinishEnd);
      events := events + [S.EFinishEnd];
      S.NothingDead(Model(), S.EFinishEnd);
      RemoveTask(activity.handle);
      activity := S.Activity.None;
    }

    method RequestUnqueue(r: S.RequestId)
      requires Valid() && S.Enabled(Model(), S.EUnqueue(r))
      modifies this
      ensures Valid() && events == old(events) + [S.EUnqueue(r)]
      ensures Model() == S.UnqueueCall(old(Model()), r)
    {
      S.RunAppend(events, S.EUnqueue(r));
      events := events + [S.EUnqueue(r)];
      ghost var before := requests;
      requests := requests[r := requests[r].(unqueued := true)];
      if requests[r].key.Some? {
        requests := requests[r := requests[r].(refs := requests[r].refs + 1)];
        assert requests == before[r := before[r].(unqueued := true, refs := before[r].refs + 1)];
        unqueueReplies := unqueueReplies + multiset{r};
      }
    }

    method OnUnqueued(r: S.RequestId)
      requires Valid() && S.Enabled(Model(), S.EUnqueued(r))
      modifies this
      ensures Valid() && events == old(events) + [S.EUnqueued(r)]
      ensures Model() == S.Unqueued(old(Model()), r)
    {
      S.RunKeepsInv(events);
      S.RunAppend(events, S.EUnqueued(r));
      events := events + [S.EUnqueued(r)];
      S.NothingDead(Model(), S.EUnqueued(r));
      S.RemoveKeeps(Model(), requests[r].key.value);
      RemoveTask(requests[r].key.value);
      S.NothingDead(Model(), S.EUnqueued(r));
      Unref(r);
      unqueueReplies := unqueueReplies - multiset{r};
    }

    /** Up to where the application's callback runs. */
    method HaveAllForRequestBegin(r: S.RequestId)
      requires Valid() && S.Enabled(Model(), S.EIdle(r))
      modifies this
      ensures Valid() && events == old(events) + [S.EIdle(r)]
      ensures Model() == S.IdleBegin(old(Model()), r)
    {
      S.RunAppend(events, S.EIdle(r));
      events := events + [S.EIdle(r)];
      requests := requests[r := S.Called(requests[r])];
      activity := S.Answering(r);
    }

    /** The source is destroyed and with it its reference. */
    method HaveAllForRequestEnd()
      requires Valid() && S.Enabled(Model(), S.EIdleEnd)
      modifies this
      ensures Valid() && events == old(events) + [S.EIdleEnd]
      ensures Model() == S.IdleEnd(old(Model()), old(activity).request)
    {
      S.RunKeepsInv(events);
      S.RunAppend(events, S.EIdleEnd);
      events := events + [S.EIdleEnd];
      S.NothingDead(Model(), S.EIdleEnd);
      var r := activity.request;
      idles := idles - {r};
      Unref(r);
      activity := S.Activity.None;
    }
  }
}
