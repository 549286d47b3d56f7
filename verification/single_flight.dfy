/** The keyed single-flight guard shared by `OAuth2Service.fetchOAuthToken`,
    `ProfileService.fetchProfile` and `ProfileImageService.fetchProfileImageURL`: a
    service remembers its running task and the key (authorization code or token)
    it was started for. Tasks carry identities here so that a completion can be
    told apart from the task it belongs to, which the services themselves never do. */
module SingleFlight {
  import opened Base
  import opened Foundation
  import opened Http

  type TaskId = nat

  /** `task` and `lastCode` / `lastToken`. */
  datatype Guard<K> = Guard(task: Option<TaskId>, lastKey: Option<K>)

  function Idle<K>(): Guard<K> {
    Guard(None, None)
  }

  /** How a call was admitted: refused as a repeat of the running key, refused
      because no request could be built, or started as task `id`. */
  datatype Admission = Duplicate | Unbuildable | Launched(id: TaskId)

  /** The guard after a call, the task the call cancelled, and the admission. */
  datatype Begun<K> = Begun(guard: Guard<K>, cancelled: Option<TaskId>, admission: Admission)

  /** Entry of a guarded fetch for `key`. `buildable` says whether the request
      could be built; `id` names the task a launch creates. */
  function Begin<K(==)>(g: Guard<K>, key: K, buildable: bool, id: TaskId): (r: Begun<K>)
    ensures r.admission.Duplicate? <==> g.lastKey == Some(key)
    ensures r.admission.Duplicate? ==> r.guard == g && r.cancelled.None?
    ensures !r.admission.Duplicate? ==> r.cancelled == g.task
    ensures r.admission.Unbuildable? <==> g.lastKey != Some(key) && !buildable
    ensures r.admission.Unbuildable? ==> r.guard == Guard(g.task, None)
    ensures r.admission.Launched? ==> r.admission.id == id && r.guard == Guard(Some(id), Some(key))
  {
    if g.lastKey == Some(key) then Begun(g, None, Duplicate)
    else if !buildable then Begun(Guard(g.task, None), g.task, Unbuildable)
    else Begun(Guard(Some(id), Some(key)), g.task, Launched(id))
  }

  /** The completion handler of task `id`: it clears both fields, whichever task
      it belongs to. */
  function Finish<K>(g: Guard<K>, id: TaskId): (r: Guard<K>)
    ensures r.task.None? && r.lastKey.None?
  {
    Idle()
  }

  /** A recorded key always has a task behind it. */
  ghost predicate Consistent<K>(g: Guard<K>) {
    g.lastKey.Some? ==> g.task.Some?
  }

  lemma BeginKeepsConsistent<K>(g: Guard<K>, key: K, buildable: bool, id: TaskId)
    requires Consistent(g)
    ensures Consistent(Begin(g, key, buildable, id).guard)
    ensures Consistent(Finish(g, id))
  {
  }

  /** While a task for `key` runs, asking again for `key` is refused and cancels
      nothing. */
  lemma RepeatRejected<K>(g: Guard<K>, key: K, id1: TaskId, buildable: bool, id2: TaskId)
    requires Begin(g, key, true, id1).admission.Launched?
    ensures var b := Begin(Begin(g, key, true, id1).guard, key, buildable, id2);
      b.admission == Duplicate && b.cancelled.None? && b.guard == Guard(Some(id1), Some(key))
  {
  }

  /** Asking for another key cancels the running task and records the new key. */
  lemma NewKeyCancels<K>(g: Guard<K>, key1: K, key2: K, id1: TaskId, id2: TaskId)
    requires key1 != key2
    requires Begin(g, key1, true, id1).admission.Launched?
    ensures var b := Begin(Begin(g, key1, true, id1).guard, key2, true, id2);
      b.cancelled == Some(id1) && b.admission == Launched(id2) && b.guard.lastKey == Some(key2)
  {
  }

  /** After any completion the next call is admitted, whatever its key. */
  lemma FinishReopens<K>(g: Guard<K>, id: TaskId, key: K, buildable: bool, next: TaskId)
    ensures !Begin(Finish(g, id), key, buildable, next).admission.Duplicate?
    ensures Begin(Finish(g, id), key, buildable, next).cancelled.None?
  {
  }

  /** A completion cannot tell which task finished. */
  lemma FinishIgnoresIdentity<K>(g: Guard<K>, a: TaskId, b: TaskId)
    ensures Finish(g, a) == Finish(g, b)
  {
  }

  /** The guard as written lets a stale completion through: task `t1` for `key1`
      is superseded by `t2` for `key2`; the cancelled `t1` still runs its
      completion, which clears the guard, so a repeat of `key2` is launched as `t3`
      while `t2` is still in flight, and `t2` is no longer cancelled by anyone. */
  lemma StaleCompletionReopens<K>(key1: K, key2: K, t1: TaskId, t2: TaskId, t3: TaskId)
    requires key1 != key2
    ensures var b1 := Begin(Idle(), key1, true, t1);
      var b2 := Begin(b1.guard, key2, true, t2);
      var b3 := Begin(Finish(b2.guard, t1), key2, true, t3);
      && b2.cancelled == Some(t1)
      && b3.admission == Launched(t3)
      && b3.cancelled.None?
  {
  }

  /** When the request cannot be built the key is forgotten, so the same key may be
      tried again at once; the previous task stays recorded, already cancelled. */
  lemma UnbuildableForgetsKey<K>(g: Guard<K>, key: K, id: TaskId, next: TaskId)
    requires g.lastKey != Some(key)
    ensures var b := Begin(g, key, false, id);
      b.admission == Unbuildable && b.guard.task == g.task && b.cancelled == g.task
      && !Begin(b.guard, key, true, next).admission.Duplicate?
  {
  }

  // ---------------------------------------------------------------------------
  // The guarded fetch as the services run it

  /** What a service call does besides updating its guard, in order: cancel a
      task, launch one, call the caller's completion, or post a change
      notification. */
  datatype Effect<T> =
    | Cancel(task: TaskId)
    | Launch(task: TaskId, request: Request)
    | Deliver(result: Result<T, Error>)
    | Post(value: T)

  datatype Step<K, T> = Step(guard: Guard<K>, effects: seq<Effect<T>>)

  /** `task?.cancel()`. */
  function Cancels<K, T>(g: Guard<K>): (r: seq<Effect<T>>)
    ensures g.task.None? ==> r == []
    ensures g.task.Some? ==> r == [Cancel(g.task.value)]
  {
    if g.task.Some? then [Cancel(g.task.value)] else []
  }

  /** Entry of a guarded fetch: `request` is what the service's request builder
      returned and `refusal` the error the service reports for a repeated key or a
      request it could not build. */
  function Fetch<K(==), T>(g: Guard<K>, key: K, request: Option<Request>, id: TaskId, refusal: Error): (r: Step<K, T>)
    ensures g.lastKey == Some(key) ==> r == Step(g, [Deliver(Failure(refusal))])
    ensures g.lastKey != Some(key) && request.None? ==>
              r.guard == Guard(g.task, None) && r.effects == Cancels(g) + [Deliver(Failure(refusal))]
    ensures g.lastKey != Some(key) && request.Some? ==>
              r.guard == Guard(Some(id), Some(key)) && r.effects == Cancels(g) + [Launch(id, request.value)]
  {
    var b := Begin(g, key, request.Some?, id);
    match b.admission
    case Duplicate => Step(g, [Deliver(Failure(refusal))])
    case Unbuildable => Step(b.guard, Cancels(g) + [Deliver(Failure(refusal))])
    case Launched(t) => Step(b.guard, Cancels(g) + [Launch(t, request.value)])
  }

  /** Whether an effect answers the call: a delivery or a launched request. */
  predicate Answers<T>(e: Effect<T>) {
    e.Deliver? || e.Launch?
  }

  /** Every call is answered exactly once, by its last effect, either with an
      immediate completion or with a launched request whose completion answers
      later; cancellations come first. */
  lemma FetchAnswersOnce<K, T>(g: Guard<K>, key: K, request: Option<Request>, id: TaskId, refusal: Error)
    ensures var r: Step<K, T> := Fetch(g, key, request, id, refusal);
      && r.effects != []
      && Answers(r.effects[|r.effects| - 1])
      && forall i :: 0 <= i < |r.effects| - 1 ==> r.effects[i].Cancel?
  {
  }

  /** A call never launches a second task for the key already in flight. */
  lemma NoDuplicateLaunch<K, T>(g: Guard<K>, key: K, request: Option<Request>, id: TaskId, refusal: Error)
    requires g.lastKey == Some(key)
    ensures var r: Step<K, T> := Fetch(g, key, request, id, refusal);
      r.guard == g && forall i :: 0 <= i < |r.effects| ==> !r.effects[i].Launch? && !r.effects[i].Cancel?
  {
  }
}
