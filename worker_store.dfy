/** The task registry of the worker store (`WorkerStore.js`): every
    `executeTask` call starts a fresh worker, records `{id, worker}` at the end
    of `tasks`, and settles its promise from the worker's first message or
    fault; `terminateTask` cancels by id. Promise scheduling is not modelled:
    each callback is one atomic event, and what the callbacks do to the
    caller's promise and to the worker is written to an event log. */
module WorkerStore {
  import opened Wrappers
  import opened Replies

  /** A Worker object. Only its identity matters here; the script it runs is
      kept for reference. */
  class Worker {
    const moduleUrl: string

    constructor (moduleUrl: string)
      ensures this.moduleUrl == moduleUrl
    {
      this.moduleUrl := moduleUrl;
    }
  }

  /** A record of `tasks`. Its id is a timestamp, so two records may share it. */
  datatype Task = Task(id: int, worker: Worker)

  /** An observable effect of the store. The promise of an `executeTask` call
      is named by the worker that call created. */
  datatype Event =
    | Resolve(worker: Worker, value: Value)
    | Reject(worker: Worker, reason: Value)
    | Terminate(worker: Worker)

  /** How the `onmessage` callback settles the promise. */
  datatype Settlement = Resolves(value: Value) | Rejects(reason: Value) | Unsettled

  /** The outcome rule of `onmessage`: a truthy `error` rejects, whatever the
      payload; otherwise a truthy `payload` resolves; otherwise nothing is
      settled. */
  function Settle(m: Message): (s: Settlement)
    ensures s.Rejects? <==> IsTruthy(m.error)
    ensures s.Rejects? ==> s.reason == m.error.value
    ensures s.Resolves? <==> !IsTruthy(m.error) && IsTruthy(m.payload)
    ensures s.Resolves? ==> s.value == m.payload.value
  {
    if IsTruthy(m.error) then Rejects(m.error.value)
    else if IsTruthy(m.payload) then Resolves(m.payload.value)
    else Unsettled
  }

  /** The events a settlement writes for the promise named by `w`. */
  function SettleEvents(w: Worker, s: Settlement): seq<Event>
  {
    match s
    case Resolves(v) => [Resolve(w, v)]
    case Rejects(r) => [Reject(w, r)]
    case Unsettled => []
  }

  /** `tasks.filter(t => t.id !== id)`. */
  function RemoveId(tasks: seq<Task>, id: int): (r: seq<Task>)
    ensures forall t :: t in r ==> t in tasks && t.id != id
    ensures forall t :: t in tasks && t.id != id ==> t in r
    ensures |r| <= |tasks|
  {
    if tasks == [] then []
    else (if tasks[0].id == id then [] else [tasks[0]]) + RemoveId(tasks[1..], id)
  }

  /** `tasks.find(t => t.id === id)`: the first record with that id. */
  function FirstWithId(tasks: seq<Task>, id: int): (r: Option<Task>)
    ensures r.None? <==> forall t :: t in tasks ==> t.id != id
    ensures r.Some? ==> exists i :: 0 <= i < |tasks| && tasks[i] == r.value && r.value.id == id &&
                                    forall j :: 0 <= j < i ==> tasks[j].id != id
  {
    if tasks == [] then None
    else if tasks[0].id == id then Some(tasks[0])
    else
      var r := FirstWithId(tasks[1..], id);
      if r.Some? then
        ghost var i :| 0 <= i < |tasks[1..]| && tasks[1..][i] == r.value && r.value.id == id &&
                       forall j :: 0 <= j < i ==> tasks[1..][j].id != id;
        assert tasks[i + 1] == r.value && forall j :: 0 <= j < i + 1 ==> tasks[j].id != id;
        r
      else r
  }

  /** Filtering distributes over concatenation. */
  lemma {:induction false} RemoveIdConcat(a: seq<Task>, b: seq<Task>, id: int)
    ensures RemoveId(a + b, id) == RemoveId(a, id) + RemoveId(b, id)
  {
    if a == [] {
      assert a + b == b;
    } else {
      assert (a + b)[1..] == a[1..] + b;
      RemoveIdConcat(a[1..], b, id);
    }
  }

  /** Records that survive keep their relative order: two kept records with
      a stretch between them stay in that order with the filtered stretch
      between them. */
  lemma RemoveIdKeepsOrder(a: seq<Task>, x: Task, b: seq<Task>, y: Task, c: seq<Task>, id: int)
    requires x.id != id && y.id != id
    ensures RemoveId(a + [x] + b + [y] + c, id) == RemoveId(a, id) + [x] + RemoveId(b, id) + [y] + RemoveId(c, id)
  {
    var ax, axb, axby := a + [x], a + [x] + b, a + [x] + b + [y];
    assert RemoveId([x], id) == [x] && RemoveId([y], id) == [y];
    RemoveIdConcat(a, [x], id);
    assert RemoveId(ax, id) == RemoveId(a, id) + [x];
    RemoveIdConcat(ax, b, id);
    assert RemoveId(axb, id) == RemoveId(a, id) + [x] + RemoveId(b, id);
    RemoveIdConcat(axb, [y], id);
    assert RemoveId(axby, id) == RemoveId(a, id) + [x] + RemoveId(b, id) + [y];
    RemoveIdConcat(axby, c, id);
  }

  /** When no record has the id, the filter changes nothing. */
  lemma {:induction false} RemoveIdAbsent(tasks: seq<Task>, id: int)
    requires forall t :: t in tasks ==> t.id != id
    ensures RemoveId(tasks, id) == tasks
  {
    if tasks != [] {
      assert forall t :: t in tasks[1..] ==> t in tasks;
      RemoveIdAbsent(tasks[1..], id);
    }
  }

  /** Removing an id twice is removing it once. */
  lemma RemoveIdIdempotent(tasks: seq<Task>, id: int)
    ensures RemoveId(RemoveId(tasks, id), id) == RemoveId(tasks, id)
  {
    RemoveIdAbsent(RemoveId(tasks, id), id);
  }

  /** A record appended by `executeTask` and then dropped by its own callback
      leaves the list as the filter of what was there before; when no earlier
      record shared its id, exactly as it was. */
  lemma StartThenRemove(tasks: seq<Task>, t: Task)
    ensures RemoveId(tasks + [t], t.id) == RemoveId(tasks, t.id)
    ensures (forall u :: u in tasks ==> u.id != t.id) ==> RemoveId(tasks + [t], t.id) == tasks
  {
    RemoveIdConcat(tasks, [t], t.id);
    assert RemoveId([t], t.id) == [];
    if forall u :: u in tasks ==> u.id != t.id {
      RemoveIdAbsent(tasks, t.id);
    }
  }

  /** A non-ok status seen by a try/catch worker always rejects the promise,
      with "HTTP <status>", whatever body came with it. */
  lemma TryCatchNonOkRejects(res: Fetched)
    requires res.Response? && !IsOk(res.status)
    ensures Settle(TryCatch(res).posts[0]) == Rejects(Str(HttpError(res.status)))
  {
    HttpErrorIsTruthy(res.status);
  }

  /** A readable ok response seen by a try/catch worker resolves the promise
      with the body, unless the body is falsy (null, false, 0, ""), in which
      case the promise is never settled. */
  lemma TryCatchOkSettlement(res: Fetched)
    requires res.Response? && IsOk(res.status) && res.body.Read?
    ensures Settle(TryCatch(res).posts[0]) ==
              if Truthy(res.body.value) then Resolves(res.body.value) else Unsettled
  {
  }

  /** A fetch rejection is reported as `{error: err.message}`; an empty
      message is falsy, so the promise is then never settled. */
  lemma TryCatchRejectionSettlement(reason: string)
    ensures Settle(TryCatch(Rejected(reason)).posts[0]) ==
              if reason != "" then Rejects(Str(reason)) else Unsettled
  {
  }

  /** Without a status check, an error status with a truthy body resolves
      the promise with that body. */
  lemma UncheckedErrorStatusResolves(status: nat, v: Value)
    requires Truthy(v)
    ensures Settle(Unchecked(Response(status, Read(v))).posts[0]) == Resolves(v)
  {
  }

  /** The registry: the `tasks` list plus a log of what was done to promises
      and workers. `started` is every record ever appended. */
  class Registry {
    var tasks: seq<Task>
    var events: seq<Event>
    ghost var started: set<Task>

    /** Every listed record was started, each worker belongs to one record,
        and no listed record's worker has been terminated. */
    ghost predicate Valid()
      reads this
    {
      && (forall t :: t in tasks ==> t in started)
      && (forall t, u :: t in started && u in started && t.worker == u.worker ==> t == u)
      && (forall t :: t in tasks ==> Terminate(t.worker) !in events)
    }

    constructor ()
      ensures Valid() && tasks == [] && events == [] && started == {}
    {
      tasks := [];
      events := [];
      started := {};
    }

    /** The synchronous part of `executeTask`: a fresh worker, a record
        appended at the end, nothing else touched. */
    method Start(id: int, moduleUrl: string) returns (t: Task)
      requires Valid()
      modifies this
      ensures Valid()
      ensures fresh(t.worker) && t.worker.moduleUrl == moduleUrl && t.id == id
      ensures tasks == old(tasks) + [t]
      ensures events == old(events)
      ensures started == old(started) + {t}
    {
      var w := new Worker(moduleUrl);
      t := Task(id, w);
      tasks := tasks + [t];
      started := started + {t};
    }

    /** The `onmessage` callback of the call that produced `t`: settle by the
        outcome rule, terminate the worker, drop every record with `t.id`. */
    method OnMessage(t: Task, m: Message)
      requires Valid() && t in started
      modifies this
      ensures Valid()
      ensures events == old(events) + SettleEvents(t.worker, Settle(m)) + [Terminate(t.worker)]
      ensures tasks == RemoveId(old(tasks), t.id)
      ensures started == old(started)
    {
      events := events + SettleEvents(t.worker, Settle(m)) + [Terminate(t.worker)];
      tasks := RemoveId(tasks, t.id);
    }

    /** The `onerror` callback of the call that produced `t`: reject with the
        error's message, terminate the worker, drop every record with `t.id`. */
    method OnError(t: Task, message: string)
      requires Valid() && t in started
      modifies this
      ensures Valid()
      ensures events == old(events) + [Reject(t.worker, Str(message)), Terminate(t.worker)]
      ensures tasks == RemoveId(old(tasks), t.id)
      ensures started == old(started)
    {
      events := events + [Reject(t.worker, Str(message)), Terminate(t.worker)];
      tasks := RemoveId(tasks, t.id);
    }

    /** `terminateTask(id)`: when some record has the id, terminate the first
        such record's worker and drop every record with the id; no promise is
        settled. Otherwise nothing changes. */
    method TerminateTask(id: int)
      requires Valid()
      modifies this
      ensures Valid()
      ensures started == old(started)
      ensures FirstWithId(old(tasks), id).None? ==> tasks == old(tasks) && events == old(events)
      ensures FirstWithId(old(tasks), id).Some? ==>
                && events == old(events) + [Terminate(FirstWithId(old(tasks), id).value.worker)]
                && tasks == RemoveId(old(tasks), id)
    {
      var task := FirstWithId(tasks, id);
      if task.Some? {
        events := events + [Terminate(task.value.worker)];
        tasks := RemoveId(tasks, id);
      }
    }
  }

  /** Two `executeTask` calls in the same millisecond share an id. The first
      to answer drops both records, so the second task can no longer be
      found by `terminateTask`, although its worker is still running; when
      the second task answers later, its filter removes nothing more. */
  method SharedIdDropsSibling(r: Registry, id: int, url: string, m: Message) returns (a: Task, b: Task)
    requires r.Valid()
    modifies r
    ensures r.Valid()
    ensures a.id == b.id == id && a.worker != b.worker
    ensures b !in r.tasks && a !in r.tasks
    ensures Terminate(b.worker) !in r.events
    ensures FirstWithId(r.tasks, id).None?
    ensures RemoveId(r.tasks, b.id) == r.tasks
  {
    a := r.Start(id, url);
    b := r.Start(id, url);
    ghost var listed := r.tasks;
    r.OnMessage(a, m);
    RemoveIdIdempotent(listed, id);
  }
}
