/**
 The engine service (cpp/src/engine_service.cpp): admission of dispatches by fence, the worker that runs
 whole batches on the continuous engine, cancellation and draining. Every critical section is one
 function on values; the class runs them in place.
 */
module EngineServices {
  import opened Text
  import opened Requests
  import opened EngineSpec
  import opened ContinuousEngines

  const UINT32_MAX: nat := 0xFFFF_FFFF

  type UInt32 = n: int | 0 <= n <= UINT32_MAX

  /** The fields of a dispatched request that the engine reads; temperature and top_p are doubles in the source. */
  datatype InferenceRequest = InferenceRequest(
    requestId: string,
    modelRevision: string,
    tokenizerRevision: string,
    promptHash: string,
    promptTokens: UInt32,
    maxOutputTokens: UInt32,
    priority: UInt32,
    seed: nat,
    temperature: real,
    topP: real)

  datatype Dispatch = Dispatch(request: InferenceRequest, partition: int, epoch: nat, attempt: nat)

  /** A job is done once it has a result. */
  datatype Job = Job(dispatch: Dispatch, superseded: bool, result: Option<EngineResult>)

  function Micros(x: real): nat {
    if x <= 0.0 then 0 else (x * 1_000_000.0).Floor
  }

  function ToEngineRequest(r: InferenceRequest): EngineRequest {
    EngineRequest(r.requestId, r.modelRevision, r.tokenizerRevision, r.promptHash, [], r.promptTokens, r.maxOutputTokens,
                  r.priority, r.seed, Micros(r.temperature), Micros(r.topP), 0)
  }

  /** Micros truncates towards zero and clamps negative values. */
  lemma MicrosIs(x: real)
    ensures if x <= 0.0 then Micros(x) == 0 else Micros(x) as real <= x * 1_000_000.0 < Micros(x) as real + 1.0
  {
  }

  /** What a dispatched request means to the engine: which requests fit, and what their output is. */
  lemma EngineRequestIs(c: EngineConfig, r: InferenceRequest)
    ensures Fits(c, ToEngineRequest(r)) <==>
      && r.promptTokens <= c.maxBatchTokens && r.promptTokens + r.maxOutputTokens <= c.kvBlocks * c.kvBlockSizeTokens
    ensures SimulatedOutput(ToEngineRequest(r))
      == "simulated:" + r.modelRevision + ":" + r.promptHash + ":" + Decimal(r.maxOutputTokens) + ":" + Decimal(r.seed)
  {
    hide Decimal;
  }

  /** Two dispatched requests share a cached result exactly when the fields that matter agree, to the micro. */
  lemma SharedResultIff(a: InferenceRequest, b: InferenceRequest)
    ensures ResultKey(ToEngineRequest(a)) == ResultKey(ToEngineRequest(b)) <==>
      && a.modelRevision == b.modelRevision && a.tokenizerRevision == b.tokenizerRevision
      && a.promptHash == b.promptHash && a.maxOutputTokens == b.maxOutputTokens && a.seed == b.seed
      && Micros(a.temperature) == Micros(b.temperature) && Micros(a.topP) == Micros(b.topP)
  {
    hide ResultKey;
    ResultKeyIff(ToEngineRequest(a), ToEngineRequest(b));
  }

  // ---------------------------------------------------------------- critical sections

  /**
     Jobs are named by their index in `jobs`. `batch` is what the worker is running and `stored` how many
     of it have their result. `accepted` and `drained` are history: the accepted jobs in order, and
     whether some Drain call has returned.
   */
  datatype Service = Service(
    capacity: nat,
    jobs: seq<Job>,
    queue: seq<nat>,
    batch: seq<nat>,
    stored: nat,
    running: nat,
    epochs: map<int, nat>,
    attempts: map<string, nat>,
    live: map<string, nat>,
    draining: bool,
    accepted: seq<nat>,
    drained: bool)

  function Start(capacity: nat): Service {
    Service(capacity, [], [], [], 0, 0, map[], map[], map[], false, [], false)
  }

  /** The answer to a dispatch; everything but Accepted is the reason of a rejection. */
  datatype Verdict =
    | Accepted
    | Draining
    | QueueFull
    | StaleOwnershipEpoch
    | StaleOrDuplicateAttempt
    | RequestAlreadyInFlight

  /** ValidateAndReserve, in the order of its tests. */
  function Refusal(s: Service, d: Dispatch): Verdict {
    if s.draining then Draining
    else if |s.queue| >= s.capacity then QueueFull
    else if d.partition in s.epochs && d.epoch < s.epochs[d.partition] then StaleOwnershipEpoch
    else if d.request.requestId in s.attempts && d.attempt <= s.attempts[d.request.requestId] then StaleOrDuplicateAttempt
    else if d.request.requestId in s.live then RequestAlreadyInFlight
    else Accepted
  }

  /** A dispatch that passes the epoch test moves the partition's epoch, even when it is refused afterwards. */
  predicate MovesEpoch(s: Service, d: Dispatch) {
    var v := Refusal(s, d);
    v.Accepted? || v.StaleOrDuplicateAttempt? || v.RequestAlreadyInFlight?
  }

  function Reserved(s: Service, d: Dispatch): Service {
    var job := |s.jobs|;
    var s1 := s.(jobs := s.jobs + [Job(d, false, None)],
                 epochs := if MovesEpoch(s, d) then s.epochs[d.partition := d.epoch] else s.epochs);
    if !Refusal(s, d).Accepted? then s1
    else s1.(attempts := s.attempts[d.request.requestId := d.attempt], live := s.live[d.request.requestId := job],
             queue := s.queue + [job], accepted := s.accepted + [job])
  }

  function Taken(s: Service): Service {
    s.(batch := s.queue, queue := [], stored := 0, running := s.running + |s.queue|)
  }

  /** What the worker stores: the engine's result, or a failure once the job has been superseded. */
  function Reported(job: Job, result: EngineResult): EngineResult {
    if job.superseded then result.(succeeded := false, failureReason := "superseded") else result
  }

  predicate JobsInRange(s: Service) {
    && (forall i | 0 <= i < |s.queue| :: s.queue[i] < |s.jobs|)
    && (forall i | 0 <= i < |s.batch| :: s.batch[i] < |s.jobs|)
    && (forall id | id in s.live :: s.live[id] < |s.jobs|)
  }

  function Stored(s: Service, result: EngineResult): Service
    requires JobsInRange(s) && s.stored < |s.batch|
  {
    var j := s.batch[s.stored];
    s.(jobs := s.jobs[j := s.jobs[j].(result := Some(Reported(s.jobs[j], result)))], stored := s.stored + 1)
  }

  function Id(s: Service, j: nat): string
    requires j < |s.jobs|
  {
    s.jobs[j].dispatch.request.requestId
  }

  /** The live table after the worker has struck out the first `n` jobs of its batch. */
  function Struck(s: Service, n: nat): map<string, nat>
    requires JobsInRange(s) && n <= |s.batch|
  {
    if n == 0 then s.live
    else
      var live := Struck(s, n - 1);
      var j := s.batch[n - 1];
      if Id(s, j) in live && live[Id(s, j)] == j then live - {Id(s, j)} else live
  }

  function Cleaned(s: Service): Service
    requires JobsInRange(s)
  {
    s.(batch := [], stored := 0, running := if s.running >= |s.batch| then s.running - |s.batch| else 0,
       live := Struck(s, |s.batch|))
  }

  predicate CancelAccepted(s: Service, id: string, epoch: nat, attempt: nat)
    requires JobsInRange(s)
  {
    id in s.live && s.jobs[s.live[id]].dispatch.epoch == epoch && s.jobs[s.live[id]].dispatch.attempt == attempt
  }

  function Cancelled(s: Service, id: string, epoch: nat, attempt: nat): Service
    requires JobsInRange(s)
  {
    if CancelAccepted(s, id, epoch, attempt)
    then s.(jobs := s.jobs[s.live[id] := s.jobs[s.live[id]].(superseded := true)])
    else s
  }

  /** A cancellation supersedes the live job of exactly its fence; with another epoch or attempt it changes nothing. */
  lemma CancelIsFenced(s: Service, id: string, epoch: nat, attempt: nat)
    requires JobsInRange(s)
    ensures id !in s.live ==> Cancelled(s, id, epoch, attempt) == s
    ensures id in s.live ==>
      var j := s.live[id];
      if s.jobs[j].dispatch.epoch != epoch || s.jobs[j].dispatch.attempt != attempt
      then Cancelled(s, id, epoch, attempt) == s
      else Cancelled(s, id, epoch, attempt) == s.(jobs := s.jobs[j := s.jobs[j].(superseded := true)])
  {
  }

  // ---------------------------------------------------------------- interleavings

  datatype Step =
    | Arrive(dispatch: Dispatch)
    | Take
    | Store(result: EngineResult)
    | CleanUp
    | Cancel(id: string, epoch: nat, attempt: nat)
    | BeginDrain
    | EndDrain

  ghost predicate Enabled(s: Service, step: Step) {
    match step
    case Take => s.batch == [] && s.queue != []
    case Store(_) => s.stored < |s.batch|
    case CleanUp => s.batch != [] && s.stored == |s.batch|
    case EndDrain => s.draining && s.queue == [] && s.running == 0
    case _ => true
  }

  ghost function Next(s: Service, step: Step): Service
    requires JobsInRange(s) && Enabled(s, step)
  {
    match step
    case Arrive(d) => Reserved(s, d)
    case Take => Taken(s)
    case Store(result) => Stored(s, result)
    case CleanUp => Cleaned(s)
    case Cancel(id, epoch, attempt) => Cancelled(s, id, epoch, attempt)
    case BeginDrain => s.(draining := true)
    case EndDrain => s.(drained := true)
  }

  /** Accepted and not yet struck out. */
  ghost predicate InFlight(s: Service, j: nat) {
    j in s.queue || j in s.batch
  }

  /** The live table is exactly the jobs in flight, one per request id. */
  ghost predicate LiveOk(s: Service) {
    && JobsInRange(s)
    && (forall id | id in s.live :: InFlight(s, s.live[id]) && Id(s, s.live[id]) == id)
    && (forall j: nat | InFlight(s, j) :: j < |s.jobs| && Id(s, j) in s.live && s.live[Id(s, j)] == j)
    && (forall i, k | 0 <= i < k < |s.batch| :: s.batch[i] != s.batch[k])
    && (forall i, k | 0 <= i < k < |s.queue| :: s.queue[i] != s.queue[k])
    && (forall i | 0 <= i < |s.queue| :: s.queue[i] !in s.batch)
    && s.running == |s.batch|
  }

  /** The tables bound every accepted fence, and accepted fences ascend. */
  ghost predicate FencesOk(s: Service) {
    && (forall i | 0 <= i < |s.accepted| :: s.accepted[i] < |s.jobs|)
    && (forall i | 0 <= i < |s.accepted| ::
          var d := s.jobs[s.accepted[i]].dispatch;
          && d.request.requestId in s.attempts && d.attempt <= s.attempts[d.request.requestId]
          && d.partition in s.epochs && d.epoch <= s.epochs[d.partition])
    && (forall i, k | 0 <= i < k < |s.accepted| ::
          FencesAscend(s.jobs[s.accepted[i]].dispatch, s.jobs[s.accepted[k]].dispatch))
  }

  ghost predicate FencesAscend(a: Dispatch, b: Dispatch) {
    && (a.request.requestId == b.request.requestId ==> a.attempt < b.attempt)
    && (a.partition == b.partition ==> a.epoch <= b.epoch)
  }

  ghost predicate DrainOk(s: Service) {
    s.drained ==> s.draining && s.queue == [] && s.batch == []
  }

  ghost predicate Inv(s: Service) {
    LiveOk(s) && FencesOk(s) && DrainOk(s)
  }

  lemma ArriveKeeps(s: Service, d: Dispatch)
    requires Inv(s)
    ensures Inv(Reserved(s, d))
  {
    ArriveKeepsLive(s, d);
    ArriveKeepsFences(s, d);
  }

  lemma AddJob(s: Service, job: Job, epochs: map<int, nat>)
    requires LiveOk(s)
    ensures var s' := s.(jobs := s.jobs + [job], epochs := epochs); LiveOk(s') && !InFlight(s', |s.jobs|)
  {
    var s' := s.(jobs := s.jobs + [job], epochs := epochs);
    assert forall j | 0 <= j < |s.jobs| :: Id(s', j) == Id(s, j);
    assert forall j: nat :: InFlight(s', j) <==> InFlight(s, j);
  }

  lemma Enqueue(s: Service, j: nat, attempts: map<string, nat>, accepted: seq<nat>)
    requires LiveOk(s) && j < |s.jobs| && !InFlight(s, j) && Id(s, j) !in s.live
    ensures LiveOk(s.(live := s.live[Id(s, j) := j], queue := s.queue + [j], attempts := attempts, accepted := accepted))
  {
    var s' := s.(live := s.live[Id(s, j) := j], queue := s.queue + [j], attempts := attempts, accepted := accepted);
    assert forall k: nat :: InFlight(s', k) <==> InFlight(s, k) || k == j;
    assert forall k | 0 <= k < |s.jobs| :: Id(s', k) == Id(s, k);
  }

  lemma ArriveKeepsLive(s: Service, d: Dispatch)
    requires LiveOk(s)
    ensures LiveOk(Reserved(s, d))
  {
    hide Refusal, MovesEpoch, LiveOk, InFlight;
    RefusalIs(s, d);
    var job, epochs := Job(d, false, None), if MovesEpoch(s, d) then s.epochs[d.partition := d.epoch] else s.epochs;
    AddJob(s, job, epochs);
    if Refusal(s, d).Accepted? {
      var s1 := s.(jobs := s.jobs + [job], epochs := epochs);
      Enqueue(s1, |s.jobs|, Reserved(s, d).attempts, Reserved(s, d).accepted);
    }
  }

  /**
     Exactly when a refused dispatch moves the partition's epoch: the service takes dispatches, the epoch
     is newer than the partition's, and the refusal is for the attempt or a job in flight.
   */
  lemma RefusedMovesEpochIff(s: Service, d: Dispatch)
    requires !Refusal(s, d).Accepted?
    ensures Reserved(s, d).epochs != s.epochs <==>
      && !s.draining && |s.queue| < s.capacity
      && (d.partition !in s.epochs || d.epoch > s.epochs[d.partition])
      && ((d.request.requestId in s.attempts && d.attempt <= s.attempts[d.request.requestId])
          || d.request.requestId in s.live)
  {
    var moved := s.epochs[d.partition := d.epoch];
    assert moved == s.epochs <==> d.partition in s.epochs && s.epochs[d.partition] == d.epoch by {
      assert moved[d.partition] == d.epoch;
    }
  }

  /** A dispatch of a partition's request. */
  function Fenced(request: InferenceRequest, epoch: nat, attempt: nat): Dispatch {
    Dispatch(request, 0, epoch, attempt)
  }

  lemma FencingOut(first: InferenceRequest, second: InferenceRequest)
    ensures var s0 := Start(2);
      var s1 := Reserved(s0, Fenced(first, 1, 1));
      var s2 := Reserved(s1, Fenced(first, 2, 2));
      var s3 := Reserved(s2, Fenced(second, 1, 1));
      && JobsInRange(s0) && JobsInRange(s1) && JobsInRange(s2)
      && Refusal(s0, Fenced(first, 1, 1)) == Accepted && s1.epochs == map[0 := 1]
      && Refusal(s1, Fenced(first, 2, 2)) == RequestAlreadyInFlight && s2.epochs == map[0 := 2]
      && s2.accepted == s1.accepted && Refusal(s2, Fenced(second, 1, 1)) == StaleOwnershipEpoch
  {
    var s1 := Reserved(Start(2), Fenced(first, 1, 1));
    assert s1.queue == [0] && s1.epochs == map[0 := 1] && s1.attempts == map[first.requestId := 1]
      && s1.live == map[first.requestId := 0];
  }

  /**
     A refused dispatch fences out the owner: while a job of the first request is in flight, its retry under
     a new epoch is refused, and from then on a new request under the epoch of the last accepted dispatch is
     answered as stale.
   */
  lemma RefusedDispatchFencesOut(c: EngineConfig, first: InferenceRequest, second: InferenceRequest) returns (r: Run)
    requires c.kvBlockSizeTokens > 0 && first.requestId != second.requestId
    ensures IsRun(r) && r.steps == [Arrive(Fenced(first, 1, 1)), Arrive(Fenced(first, 2, 2)), Arrive(Fenced(second, 1, 1))]
    ensures Refusal(r.services[0], Fenced(first, 1, 1)) == Accepted
    ensures Refusal(r.services[1], Fenced(first, 2, 2)) == RequestAlreadyInFlight
    ensures r.services[1].epochs == map[0 := 1] && r.services[2].epochs == map[0 := 2]
    ensures r.services[2].accepted == r.services[1].accepted
    ensures Refusal(r.services[2], Fenced(second, 1, 1)) == StaleOwnershipEpoch
  {
    hide Reserved, Refusal, MovesEpoch;
    var s0 := Start(2);
    var s1 := Reserved(s0, Fenced(first, 1, 1));
    var s2 := Reserved(s1, Fenced(first, 2, 2));
    var s3 := Reserved(s2, Fenced(second, 1, 1));
    FencingOut(first, second);
    r := Run(c, [s0, s1, s2, s3], [Arrive(Fenced(first, 1, 1)), Arrive(Fenced(first, 2, 2)), Arrive(Fenced(second, 1, 1))]);
    assert Follows(r, 0) && Follows(r, 1) && Follows(r, 2);
  }

  /** An accepted dispatch is not draining, has a current epoch, a new attempt and no job in flight. */
  lemma RefusalIs(s: Service, d: Dispatch)
    ensures Refusal(s, d).Accepted? <==>
      && !s.draining && |s.queue| < s.capacity
      && (d.partition in s.epochs ==> d.epoch >= s.epochs[d.partition])
      && (d.request.requestId in s.attempts ==> d.attempt > s.attempts[d.request.requestId])
      && d.request.requestId !in s.live
    ensures Refusal(s, d).Accepted? ==> MovesEpoch(s, d)
    ensures MovesEpoch(s, d) ==> d.partition in s.epochs ==> d.epoch >= s.epochs[d.partition]
  {
  }

  lemma ArriveKeepsFences(s: Service, d: Dispatch)
    requires FencesOk(s)
    ensures FencesOk(Reserved(s, d))
  {
    hide Refusal, MovesEpoch;
    RefusalIs(s, d);
    var s' := Reserved(s, d);
    assert forall i | 0 <= i < |s.accepted| :: s'.jobs[s'.accepted[i]].dispatch == s.jobs[s.accepted[i]].dispatch;
  }

  lemma TakeKeeps(s: Service)
    requires Inv(s) && Enabled(s, Take)
    ensures Inv(Taken(s))
  {
    var s' := Taken(s);
    assert forall j: nat :: InFlight(s', j) <==> InFlight(s, j);
  }

  lemma StoreKeeps(s: Service, result: EngineResult)
    requires Inv(s) && s.stored < |s.batch|
    ensures Inv(Stored(s, result))
  {
    var s' := Stored(s, result);
    SameDispatches(s, s');
  }

  lemma CancelKeeps(s: Service, id: string, epoch: nat, attempt: nat)
    requires Inv(s)
    ensures Inv(Cancelled(s, id, epoch, attempt))
  {
    SameDispatches(s, Cancelled(s, id, epoch, attempt));
  }

  /** Results and cancellations do not touch what the invariant speaks about. */
  lemma SameDispatches(s: Service, s': Service)
    requires Inv(s) && s' == s.(jobs := s'.jobs, stored := s'.stored) && |s'.jobs| == |s.jobs|
    requires forall j | 0 <= j < |s.jobs| :: s'.jobs[j].dispatch == s.jobs[j].dispatch
    ensures Inv(s')
  {
    assert forall j | 0 <= j < |s.jobs| :: Id(s', j) == Id(s, j);
    assert forall j: nat :: InFlight(s', j) <==> InFlight(s, j);
  }

  lemma {:induction false} StruckKeys(s: Service, n: nat)
    requires JobsInRange(s) && n <= |s.batch|
    ensures Struck(s, n).Keys <= s.live.Keys
  {
    if n > 0 {
      StruckKeys(s, n - 1);
    }
  }

  lemma BatchIsLive(s: Service, i: nat)
    requires LiveOk(s) && i < |s.batch|
    ensures Id(s, s.batch[i]) in s.live && s.live[Id(s, s.batch[i])] == s.batch[i]
    ensures forall id | id in s.live :: Id(s, s.live[id]) == id
  {
    assert InFlight(s, s.batch[i]);
  }

  /** Exactly the jobs of the batch leave the live table. */
  lemma {:induction false} StruckAt(s: Service, n: nat, id: string)
    requires JobsInRange(s) && LiveOk(s) && n <= |s.batch| && id in s.live
    ensures if s.live[id] in s.batch[..n] then id !in Struck(s, n)
            else id in Struck(s, n) && Struck(s, n)[id] == s.live[id]
  {
    hide LiveOk;
    if n > 0 {
      StruckAt(s, n - 1, id);
      BatchIsLive(s, n - 1);
      assert s.batch[..n] == s.batch[..n - 1] + [s.batch[n - 1]];
    }
  }

  lemma CleanUpKeeps(s: Service)
    requires Inv(s)
    ensures Inv(Cleaned(s))
  {
    hide FencesOk;
    var s' := Cleaned(s);
    StruckKeys(s, |s.batch|);
    assert s.batch[..|s.batch|] == s.batch;
    forall id | id in s.live
      ensures if s.live[id] in s.batch then id !in s'.live else id in s'.live && s'.live[id] == s.live[id]
    {
      StruckAt(s, |s.batch|, id);
    }
    forall j: nat | InFlight(s', j) ensures j < |s'.jobs| && Id(s', j) in s'.live && s'.live[Id(s', j)] == j {
      assert InFlight(s, j) && j !in s.batch;
    }
    forall id | id in s'.live ensures InFlight(s', s'.live[id]) && Id(s', s'.live[id]) == id {
      assert InFlight(s, s.live[id]);
    }
    assert FencesOk(s') by {
      SameFences(s, s');
    }
  }

  lemma SameFences(s: Service, s': Service)
    requires FencesOk(s) && s'.jobs == s.jobs && s'.accepted == s.accepted && s'.attempts == s.attempts
    requires s'.epochs == s.epochs
    ensures FencesOk(s')
  {
  }

  /** Every step of every handler and of the worker keeps the invariant. */
  lemma StepKeeps(s: Service, step: Step)
    requires Inv(s) && Enabled(s, step)
    ensures Inv(Next(s, step))
  {
    match step
    case Arrive(d) => ArriveKeeps(s, d);
    case Take => TakeKeeps(s);
    case Store(result) => StoreKeeps(s, result);
    case CleanUp => CleanUpKeeps(s);
    case Cancel(id, epoch, attempt) => CancelKeeps(s, id, epoch, attempt);
    case _ =>
      var s' := Next(s, step);
      assert forall j: nat :: InFlight(s', j) <==> InFlight(s, j);
  }

  // ---------------------------------------------------------------- every job is answered once

  ghost predicate Answered(s: Service, j: nat) {
    j < |s.jobs| && s.jobs[j].result.Some?
  }

  /** Jobs get their result in batch order; an accepted job without one is still in flight. */
  ghost predicate AnswersOk(s: Service) {
    && s.stored <= |s.batch|
    && (forall i | 0 <= i < |s.queue| :: !Answered(s, s.queue[i]))
    && (forall i | 0 <= i < |s.batch| :: Answered(s, s.batch[i]) <==> i < s.stored)
    && (forall i | 0 <= i < |s.accepted| :: Answered(s, s.accepted[i]) || InFlight(s, s.accepted[i]))
  }

  lemma StoreKeepsAnswers(s: Service, result: EngineResult)
    requires LiveOk(s) && AnswersOk(s) && s.stored < |s.batch|
    ensures AnswersOk(Stored(s, result))
  {
    var s' := Stored(s, result);
    var j := s.batch[s.stored];
    assert forall k: nat :: Answered(s', k) <==> Answered(s, k) || k == j;
    assert forall k: nat :: InFlight(s', k) <==> InFlight(s, k);
  }

  lemma ArriveKeepsAnswers(s: Service, d: Dispatch)
    requires LiveOk(s) && AnswersOk(s)
    ensures AnswersOk(Reserved(s, d))
  {
    hide Refusal, MovesEpoch;
    var s' := Reserved(s, d);
    assert forall k: nat :: Answered(s', k) <==> Answered(s, k);
    assert forall k: nat :: InFlight(s, k) ==> InFlight(s', k);
    assert Refusal(s, d).Accepted? ==> InFlight(s', |s.jobs|);
  }

  lemma CleanUpKeepsAnswers(s: Service)
    requires LiveOk(s) && AnswersOk(s) && s.stored == |s.batch|
    ensures AnswersOk(Cleaned(s))
  {
    hide Struck;
    var s' := Cleaned(s);
    assert forall k: nat :: Answered(s', k) <==> Answered(s, k);
    assert forall k: nat :: InFlight(s, k) ==> InFlight(s', k) || Answered(s', k);
  }

  lemma CancelKeepsAnswers(s: Service, id: string, epoch: nat, attempt: nat)
    requires LiveOk(s) && AnswersOk(s)
    ensures AnswersOk(Cancelled(s, id, epoch, attempt))
  {
    var s' := Cancelled(s, id, epoch, attempt);
    assert forall k: nat :: Answered(s', k) <==> Answered(s, k);
    assert forall k: nat :: InFlight(s', k) <==> InFlight(s, k);
  }

  lemma OtherKeepsAnswers(s: Service, step: Step)
    requires LiveOk(s) && AnswersOk(s) && Enabled(s, step) && (step.Take? || step.BeginDrain? || step.EndDrain?)
    ensures AnswersOk(Next(s, step))
  {
    var s' := Next(s, step);
    assert forall k: nat :: Answered(s', k) <==> Answered(s, k);
    assert forall k: nat :: InFlight(s', k) <==> InFlight(s, k);
  }

  lemma StepKeepsAnswers(s: Service, step: Step)
    requires LiveOk(s) && AnswersOk(s) && Enabled(s, step)
    ensures AnswersOk(Next(s, step))
  {
    hide AnswersOk, Reserved, Cleaned, Cancelled, Stored, Taken;
    match step
    case Arrive(d) => ArriveKeepsAnswers(s, d);
    case Store(result) => StoreKeepsAnswers(s, result);
    case CleanUp => CleanUpKeepsAnswers(s);
    case Cancel(id, epoch, attempt) => CancelKeepsAnswers(s, id, epoch, attempt);
    case _ => OtherKeepsAnswers(s, step);
  }

  // ---------------------------------------------------------------- whole runs

  /** A run of the service over an engine of configuration `config`. */
  datatype Run = Run(config: EngineConfig, services: seq<Service>, steps: seq<Step>)

  /** The engine's answer to the job whose turn it is; EngineWorker.RunBatch supplies nothing else. */
  ghost predicate AnswersNext(c: EngineConfig, s: Service, result: EngineResult)
    requires c.kvBlockSizeTokens > 0 && JobsInRange(s)
  {
    s.stored < |s.batch| && ResultFor(c, result, Core(ToEngineRequest(s.jobs[s.batch[s.stored]].dispatch.request)))
  }

  ghost predicate Follows(r: Run, i: nat)
    requires i < |r.steps| && |r.services| == |r.steps| + 1 && r.config.kvBlockSizeTokens > 0
  {
    && JobsInRange(r.services[i]) && Enabled(r.services[i], r.steps[i])
    && (r.steps[i].Store? ==> AnswersNext(r.config, r.services[i], r.steps[i].result))
    && r.services[i + 1] == Next(r.services[i], r.steps[i])
  }

  ghost predicate IsRun(r: Run) {
    && r.config.kvBlockSizeTokens > 0
    && |r.services| == |r.steps| + 1 && r.services[0] == Start(r.services[0].capacity)
    && forall i | 0 <= i < |r.steps| :: Follows(r, i)
  }

  lemma {:induction false} RunInv(r: Run, n: nat)
    requires IsRun(r) && n < |r.services|
    ensures Inv(r.services[n]) && AnswersOk(r.services[n])
  {
    if n > 0 {
      hide Next, Enabled, FencesOk, DrainOk, AnswersOk;
      RunInv(r, n - 1);
      assert Follows(r, n - 1);
      var s, step := r.services[n - 1], r.steps[n - 1];
      StepKeeps(s, step);
      StepKeepsAnswers(s, step);
    }
  }

  /** Accepted dispatches have strictly ascending attempts per request and never descending epochs per partition. */
  lemma AcceptedFencesAscend(r: Run, n: nat, i: nat, k: nat)
    requires IsRun(r) && n < |r.services| && i < k < |r.services[n].accepted|
    ensures var s := r.services[n];
      s.accepted[i] < |s.jobs| && s.accepted[k] < |s.jobs|
      && FencesAscend(s.jobs[s.accepted[i]].dispatch, s.jobs[s.accepted[k]].dispatch)
  {
    hide LiveOk, AnswersOk;
    RunInv(r, n);
  }

  /** At most one job per request id is unfinished; a live entry always names a job that is queued or running. */
  lemma OneUnfinishedJobPerRequest(r: Run, n: nat, j: nat, k: nat)
    requires IsRun(r) && n < |r.services| && InFlight(r.services[n], j) && InFlight(r.services[n], k)
    ensures j < |r.services[n].jobs| && k < |r.services[n].jobs|
    ensures Id(r.services[n], j) == Id(r.services[n], k) ==> j == k
    ensures forall id | id in r.services[n].live :: InFlight(r.services[n], r.services[n].live[id])
  {
    hide FencesOk, AnswersOk;
    RunInv(r, n);
  }

  /** The job has the result of its own request, or it was superseded and says so. */
  ghost predicate JobAnswered(c: EngineConfig, job: Job)
    requires c.kvBlockSizeTokens > 0
  {
    job.result.Some? &&
    (ResultFor(c, job.result.value, Core(ToEngineRequest(job.dispatch.request)))
     || (job.superseded && SaysSuperseded(job.result.value)))
  }

  predicate SaysSuperseded(result: EngineResult) {
    !result.succeeded && result.failureReason == "superseded"
  }

  lemma JobStep(c: EngineConfig, s: Service, step: Step, j: nat)
    requires c.kvBlockSizeTokens > 0 && LiveOk(s) && AnswersOk(s) && Enabled(s, step) && j < |s.jobs|
    requires step.Store? ==> AnswersNext(c, s, step.result)
    ensures j < |Next(s, step).jobs|
    ensures var job, job' := s.jobs[j], Next(s, step).jobs[j];
      && job'.dispatch == job.dispatch && (job.superseded ==> job'.superseded)
      && (job.result.Some? ==> job'.result == job.result)
      && (job.result.None? && job'.result.Some? ==>
            && job'.superseded == job.superseded
            && if job.superseded then SaysSuperseded(job'.result.value)
               else ResultFor(c, job'.result.value, Core(ToEngineRequest(job.dispatch.request))))
  {
    hide Struck, Refusal, MovesEpoch, InFlight, ResultFor, Core, ToEngineRequest;
    assert step.Store? ==> !Answered(s, s.batch[s.stored]);
  }

  lemma NewJob(s: Service, step: Step, j: nat)
    requires JobsInRange(s) && Enabled(s, step) && |s.jobs| <= j < |Next(s, step).jobs|
    ensures Next(s, step).jobs[j].result.None?
  {
  }

  /**
     In every interleaving, with dispatches and cancellations between take and store, an answered job has
     the result of its own request, or reports that it was superseded.
   */
  lemma {:induction false} AnsweredHasOwnResult(r: Run, n: nat, j: nat)
    requires IsRun(r) && n < |r.services| && Answered(r.services[n], j)
    ensures JobAnswered(r.config, r.services[n].jobs[j])
  {
    hide Next, Enabled, ResultFor, Core, ToEngineRequest, AnswersNext, LiveOk, FencesOk, AnswersOk;
    if n > 0 {
      RunInv(r, n - 1);
      assert Follows(r, n - 1);
      var s, step := r.services[n - 1], r.steps[n - 1];
      if j >= |s.jobs| {
        NewJob(s, step, j);
      } else {
        JobStep(r.config, s, step, j);
        if Answered(s, j) {
          AnsweredHasOwnResult(r, n - 1, j);
        }
      }
    }
  }

  /** A job cancelled before its result is stored reports that it was superseded, whatever the engine computed. */
  lemma {:induction false} CancelledBeforeResultFails(r: Run, i: nat, n: nat, j: nat)
    requires IsRun(r) && i <= n < |r.services|
    requires j < |r.services[i].jobs| && r.services[i].jobs[j].superseded && !Answered(r.services[i], j)
    ensures j < |r.services[n].jobs| && r.services[n].jobs[j].superseded
    ensures Answered(r.services[n], j) ==> SaysSuperseded(r.services[n].jobs[j].result.value)
  {
    hide Next, Enabled, ResultFor, Core, ToEngineRequest, AnswersNext, LiveOk, FencesOk, AnswersOk;
    if i < n {
      CancelledBeforeResultFails(r, i, n - 1, j);
      RunInv(r, n - 1);
      assert Follows(r, n - 1);
      JobStep(r.config, r.services[n - 1], r.steps[n - 1], j);
    }
  }

  /** No accepted dispatch is forgotten: it is still in flight or has the result of its own request. */
  lemma AcceptedIsAnsweredOrInFlight(r: Run, n: nat, i: nat)
    requires IsRun(r) && n < |r.services| && i < |r.services[n].accepted|
    ensures var s := r.services[n];
      s.accepted[i] < |s.jobs| && (JobAnswered(r.config, s.jobs[s.accepted[i]]) || InFlight(s, s.accepted[i]))
  {
    hide LiveOk, JobAnswered;
    RunInv(r, n);
    if Answered(r.services[n], r.services[n].accepted[i]) {
      AnsweredHasOwnResult(r, n, r.services[n].accepted[i]);
    }
  }

  /** A result is never changed once it is there. */
  lemma {:induction false} AnswerIsFinal(r: Run, i: nat, n: nat, j: nat)
    requires IsRun(r) && i <= n < |r.services| && Answered(r.services[i], j)
    ensures j < |r.services[n].jobs| && r.services[n].jobs[j].result == r.services[i].jobs[j].result
  {
    if i < n {
      AnswerIsFinal(r, i, n - 1, j);
      RunInv(r, n - 1);
      assert Follows(r, n - 1);
      AnswerStep(r.services[n - 1], r.steps[n - 1], j);
    }
  }

  lemma AnswerStep(s: Service, step: Step, j: nat)
    requires LiveOk(s) && AnswersOk(s) && Enabled(s, step) && Answered(s, j)
    ensures j < |Next(s, step).jobs| && Next(s, step).jobs[j].result == s.jobs[j].result
  {
    hide Struck, Refusal, MovesEpoch, InFlight;
    assert step.Store? ==> !Answered(s, s.batch[s.stored]);
  }

  /** After some Drain call has returned, nothing is in flight and nothing is accepted any more. */
  lemma {:induction false} QuietAfterDrain(r: Run, i: nat, n: nat)
    requires IsRun(r) && i <= n < |r.services| && r.services[i].drained
    ensures r.services[n].drained && r.services[n].queue == [] && r.services[n].batch == []
    ensures r.services[n].accepted == r.services[i].accepted
  {
    hide LiveOk, FencesOk, AnswersOk;
    if i < n {
      QuietAfterDrain(r, i, n - 1);
      assert Follows(r, n - 1);
    }
    RunInv(r, n);
    if i < n {
      RunInv(r, n - 1);
      DrainedStep(r.services[n - 1], r.steps[n - 1]);
    }
  }

  lemma DrainedStep(s: Service, step: Step)
    requires LiveOk(s) && DrainOk(s) && s.drained && Enabled(s, step)
    ensures Next(s, step).drained && Next(s, step).accepted == s.accepted
  {
  }

  // ---------------------------------------------------------------- the worker's engine run

  function EngineRequests(batch: seq<InferenceRequest>): seq<EngineRequest> {
    seq(|batch|, i requires 0 <= i < |batch| => ToEngineRequest(batch[i]))
  }

  predicate DistinctIds(batch: seq<InferenceRequest>) {
    forall i, k | 0 <= i < k < |batch| :: batch[i].requestId != batch[k].requestId
  }

  /** The engine owes nobody a result. */
  ghost predicate EngineIdle(e: ContinuousEngine)
    reads e, e.kv, e.radix, e.cache, e.pending
  {
    e.Valid() && e.pending.items == [] && e.active == [] && multiset(e.served) == e.submitted
  }

  /** The new results answer exactly the new submissions. */
  lemma TailIsBatch(before: seq<EngineRequest>, served: seq<EngineRequest>, batch: seq<InferenceRequest>)
    requires before <= served
    requires multiset(served) == multiset(before) + multiset(Cores(EngineRequests(batch)))
    ensures multiset(served[|before|..]) == multiset(Cores(EngineRequests(batch)))
  {
    var tail := served[|before|..];
    assert served == before + tail;
    assert multiset(tail) == multiset(served) - multiset(before);
  }

  /** Some new result is for this request; a new result with its id is for it and nobody else. */
  lemma ResultIsForRequest(tail: seq<EngineRequest>, batch: seq<InferenceRequest>, i: nat)
    requires multiset(tail) == multiset(Cores(EngineRequests(batch))) && DistinctIds(batch) && i < |batch|
    ensures exists m :: 0 <= m < |tail| && tail[m] == Core(ToEngineRequest(batch[i]))
    ensures forall m | 0 <= m < |tail| && tail[m].requestId == batch[i].requestId ::
      tail[m] == Core(ToEngineRequest(batch[i]))
  {
    var cores := Cores(EngineRequests(batch));
    assert cores[i] in multiset(cores);
    assert cores[i] in tail;
    forall m | 0 <= m < |tail| && tail[m].requestId == batch[i].requestId
      ensures tail[m] == Core(ToEngineRequest(batch[i]))
    {
      assert tail[m] in multiset(tail);
      assert tail[m] in cores;
    }
  }

  /** Results keyed by request id, the last one winning. */
  ghost predicate Indexes(found: map<string, EngineResult>, results: seq<EngineResult>, from: nat, to: nat)
    requires from <= to <= |results|
  {
    && (forall m | from <= m < to :: results[m].requestId in found)
    && (forall id | id in found :: exists m :: from <= m < to && results[m].requestId == id && found[id] == results[m])
  }

  lemma IndexStep(found: map<string, EngineResult>, results: seq<EngineResult>, from: nat, to: nat)
    requires from <= to < |results| && Indexes(found, results, from, to)
    ensures Indexes(found[results[to].requestId := results[to]], results, from, to + 1)
  {
    var next := found[results[to].requestId := results[to]];
    forall id | id in next
      ensures exists m :: from <= m < to + 1 && results[m].requestId == id && next[id] == results[m]
    {
      if id == results[to].requestId {
        assert next[id] == results[to];
      } else {
        var m :| from <= m < to && results[m].requestId == id && found[id] == results[m];
        assert from <= m < to + 1;
      }
    }
  }

  /** Every job of the batch finds a result, and it is the result of its own request. */
  lemma BatchFindsResults(c: EngineConfig, results: seq<EngineResult>, served: seq<EngineRequest>, offset: nat,
                          batch: seq<InferenceRequest>, found: map<string, EngineResult>, i: nat)
    requires c.kvBlockSizeTokens > 0 && EngineSpec.ResultsOk(c, results, served) && offset <= |results| && i < |batch|
    requires multiset(served[offset..]) == multiset(Cores(EngineRequests(batch))) && DistinctIds(batch)
    requires Indexes(found, results, offset, |results|)
    ensures batch[i].requestId in found
    ensures ResultFor(c, found[batch[i].requestId], Core(ToEngineRequest(batch[i])))
  {
    var id, tail := batch[i].requestId, served[offset..];
    ResultIsForRequest(tail, batch, i);
    var m :| 0 <= m < |tail| && tail[m] == Core(ToEngineRequest(batch[i]));
    assert ResultFor(c, results[offset + m], served[offset + m]);
    assert results[offset + m].requestId == id;
    var k :| offset <= k < |results| && results[k].requestId == id && found[id] == results[k];
    assert ResultFor(c, results[k], served[k]) && tail[k - offset] == served[k];
  }

  class EngineWorker {
    const engine: ContinuousEngine

    constructor (engine: ContinuousEngine)
      ensures this.engine == engine
    {
      this.engine := engine;
    }

    /** Submits a whole batch to the engine. */
    method SubmitAll(batch: seq<InferenceRequest>)
      requires engine.Valid()
      modifies engine`submitted, engine.pending
      ensures engine.Valid()
      ensures engine.submitted == old(engine.submitted) + multiset(Cores(EngineRequests(batch)))
    {
      hide ContinuousEngine.Valid, Cores, EngineRequests;
      NoRequests(batch);
      for i := 0 to |batch|
        invariant engine.Valid()
        invariant engine.submitted == old(engine.submitted) + multiset(Cores(EngineRequests(batch[..i])))
      {
        engine.Submit(ToEngineRequest(batch[i]));
        OneMoreRequest(batch, i);
      }
      assert batch[..|batch|] == batch;
    }

    static lemma NoRequests(batch: seq<InferenceRequest>)
      ensures multiset(Cores(EngineRequests(batch[..0]))) == multiset{}
    {
    }

    static lemma OneMoreRequest(batch: seq<InferenceRequest>, i: nat)
      requires i < |batch|
      ensures multiset(Cores(EngineRequests(batch[..i + 1])))
        == multiset(Cores(EngineRequests(batch[..i]))) + multiset{Core(ToEngineRequest(batch[i]))}
    {
      assert EngineRequests(batch[..i + 1]) == EngineRequests(batch[..i]) + [ToEngineRequest(batch[i])];
      CoresAppend(EngineRequests(batch[..i]), [ToEngineRequest(batch[i])]);
      assert Cores([ToEngineRequest(batch[i])]) == [Core(ToEngineRequest(batch[i]))];
    }

    /** Results by request id from `offset` on. */
    method Collect(offset: nat) returns (found: map<string, EngineResult>)
      requires offset <= |engine.results|
      ensures Indexes(found, engine.results, offset, |engine.results|)
    {
      hide Indexes;
      found := map[];
      assert Indexes(found, engine.results, offset, offset) by {
        NothingIndexed(engine.results, offset);
      }
      for index := offset to |engine.results|
        invariant Indexes(found, engine.results, offset, index)
      {
        IndexStep(found, engine.results, offset, index);
        found := found[engine.results[index].requestId := engine.results[index]];
      }
    }

    static lemma NothingIndexed(results: seq<EngineResult>, offset: nat)
      requires offset <= |results|
      ensures Indexes(map[], results, offset, offset)
    {
    }

    /**
       Runs one batch of distinct request ids on the idle engine. Every job finds a result, so
       `missing_engine_result` is never reported, and the result is that of its own request.
     */
    method RunBatch(batch: seq<InferenceRequest>) returns (results: seq<EngineResult>)
      requires EngineIdle(engine) && DistinctIds(batch)
      modifies engine, engine.kv, engine.radix, engine.cache, engine.pending
      ensures EngineIdle(engine) && engine.config.kvBlockSizeTokens > 0
      ensures |results| == |batch|
      ensures forall i | 0 <= i < |batch| :: ResultFor(engine.config, results[i], Core(ToEngineRequest(batch[i])))
    {
      hide ContinuousEngine.Valid, Cores, EngineRequests, Indexes, DistinctIds, ToEngineRequest, EngineSpec.ResultsOk,
           ResultFor;
      ghost var before := engine.served;
      BlockSizePositive();
      var resultOffset := |engine.results|;
      SubmitAll(batch);
      engine.RunUntilIdle();
      TailIsBatch(before, engine.served, batch);
      ghost var all, served := engine.results, engine.served;
      var found := Collect(resultOffset);
      results := [];
      for i := 0 to |batch|
        invariant EngineIdle(engine) && |results| == i
        invariant forall k | 0 <= k < i :: ResultFor(engine.config, results[k], Core(ToEngineRequest(batch[k])))
      {
        BatchFindsResults(engine.config, all, served, resultOffset, batch, found, i);
        var id := batch[i].requestId;
        var result := if id in found then found[id]
                      else EngineResult(id, "", 0, 0, false, false, false, "missing_engine_result");
        results := results + [result];
      }
    }

    lemma BlockSizePositive()
      requires engine.Valid()
      ensures engine.config.kvBlockSizeTokens > 0 && |engine.results| == |engine.served|
    {
    }
  }

  // ---------------------------------------------------------------- the service in place

  lemma BothKept(s: Service, step: Step)
    requires Inv(s) && AnswersOk(s) && Enabled(s, step)
    ensures JobsInRange(s) && Inv(Next(s, step)) && AnswersOk(Next(s, step))
  {
    hide Next;
    StepKeeps(s, step);
    StepKeepsAnswers(s, step);
  }

  lemma BothReserved(s: Service, d: Dispatch)
    requires Inv(s) && AnswersOk(s)
    ensures Inv(Reserved(s, d)) && AnswersOk(Reserved(s, d))
  {
    BothKept(s, Arrive(d));
  }

  lemma BothTaken(s: Service)
    requires Inv(s) && AnswersOk(s) && s.batch == [] && s.queue != []
    ensures JobsInRange(s) && s.running == 0 && Inv(Taken(s)) && AnswersOk(Taken(s))
    ensures forall i, k | 0 <= i < k < |s.queue| :: Id(s, s.queue[i]) != Id(s, s.queue[k])
  {
    BothKept(s, Take);
    forall i, k | 0 <= i < k < |s.queue| ensures Id(s, s.queue[i]) != Id(s, s.queue[k]) {
      BatchIsLive(Taken(s), i);
      BatchIsLive(Taken(s), k);
    }
  }

  lemma BothCleaned(s: Service)
    requires Inv(s) && AnswersOk(s) && s.stored == |s.batch|
    ensures JobsInRange(s) && Inv(Cleaned(s)) && AnswersOk(Cleaned(s))
  {
    CleanUpKeeps(s);
    CleanUpKeepsAnswers(s);
  }

  lemma WorkerFacts(s: Service)
    requires Inv(s) && AnswersOk(s)
    ensures JobsInRange(s) && s.running == |s.batch| && s.stored <= |s.batch|
  {
  }

  /** The job reports that it was superseded if it was, and else the result of its own request. */
  ghost predicate JobReported(c: EngineConfig, job: Job)
    requires c.kvBlockSizeTokens > 0
  {
    job.result.Some? &&
    if job.superseded then SaysSuperseded(job.result.value)
    else ResultFor(c, job.result.value, Core(ToEngineRequest(job.dispatch.request)))
  }

  lemma AnswersJob(c: EngineConfig, job: Job, result: EngineResult)
    requires c.kvBlockSizeTokens > 0 && ResultFor(c, result, Core(ToEngineRequest(job.dispatch.request)))
    ensures JobReported(c, job.(result := Some(Reported(job, result))))
  {
  }

  lemma BatchDistinct(s: Service)
    requires Inv(s)
    ensures forall i, k | 0 <= i < k < |s.batch| :: s.batch[i] != s.batch[k]
  {
  }

  class EngineService {
    const queueCapacity: nat
    const worker: EngineWorker
    var jobs: seq<Job>
    var queue: seq<nat>
    var batch: seq<nat>
    var stored: nat
    var running: nat
    var epochs: map<int, nat>
    var attempts: map<string, nat>
    var live: map<string, nat>
    var draining: bool
    ghost var accepted: seq<nat>
    ghost var drained: bool

    ghost function View(): Service
      reads this
    {
      Service(queueCapacity, jobs, queue, batch, stored, running, epochs, attempts, live, draining, accepted, drained)
    }

    ghost predicate Valid()
      reads this
    {
      Inv(View()) && AnswersOk(View())
    }

    constructor (queueCapacity: nat, worker: EngineWorker)
      ensures Valid() && View() == Start(queueCapacity) && this.worker == worker
    {
      this.queueCapacity, this.worker := queueCapacity, worker;
      jobs, queue, batch, stored, running := [], [], [], 0, 0;
      epochs, attempts, live, draining := map[], map[], map[], false;
      accepted, drained := [], false;
    }

    method ValidateAndReserve(d: Dispatch) returns (verdict: Verdict)
      requires Valid()
      modifies this
      ensures Valid() && View() == Reserved(old(View()), d) && verdict == Refusal(old(View()), d)
    {
      hide Inv, AnswersOk, Reserved, Refusal;
      BothReserved(View(), d);
      verdict := TestAndReserve(d);
    }

    /** The critical section itself. */
    method TestAndReserve(d: Dispatch) returns (verdict: Verdict)
      modifies this
      ensures View() == Reserved(old(View()), d) && verdict == Refusal(old(View()), d)
    {
      var id, job := d.request.requestId, |jobs|;
      jobs := jobs + [Job(d, false, None)];
      if draining {
        return Draining;
      }
      if |queue| >= queueCapacity {
        return QueueFull;
      }
      if d.partition in epochs && d.epoch < epochs[d.partition] {
        return StaleOwnershipEpoch;
      }
      epochs := epochs[d.partition := d.epoch];
      if id in attempts && d.attempt <= attempts[id] {
        return StaleOrDuplicateAttempt;
      }
      if id in live {
        return RequestAlreadyInFlight;
      }
      attempts, live := attempts[id := d.attempt], live[id := job];
      queue, accepted := queue + [job], accepted + [job];
      return Accepted;
    }

    /** Marks the job of this very fence as superseded; a stale fence changes nothing. */
    method Cancel(id: string, epoch: nat, attempt: nat) returns (ok: bool)
      requires Valid()
      modifies this
      ensures Valid() && JobsInRange(old(View()))
      ensures View() == Cancelled(old(View()), id, epoch, attempt) && ok == CancelAccepted(old(View()), id, epoch, attempt)
    {
      hide Inv, AnswersOk;
      BothKept(View(), Step.Cancel(id, epoch, attempt));
      ok := id in live && jobs[live[id]].dispatch.epoch == epoch && jobs[live[id]].dispatch.attempt == attempt;
      if ok {
        jobs := jobs[live[id] := jobs[live[id]].(superseded := true)];
      }
    }

    /** The worker takes everything that is queued as one batch; the requests have distinct ids. */
    method TakeBatch() returns (requests: seq<InferenceRequest>)
      requires Valid() && batch == [] && queue != []
      modifies this
      ensures Valid() && View() == Taken(old(View())) && JobsInRange(View())
      ensures batch == old(queue) && queue == [] && stored == 0 && running == |batch|
      ensures |requests| == |batch| && DistinctIds(requests)
      ensures forall i | 0 <= i < |batch| :: requests[i] == jobs[batch[i]].dispatch.request
    {
      hide Inv, AnswersOk;
      ghost var s := View();
      BothTaken(s);
      requests := MoveQueue();
      running, stored := running + |batch|, 0;
    }

    /** Moves the whole queue into the batch, front first. */
    method MoveQueue() returns (requests: seq<InferenceRequest>)
      requires batch == [] && JobsInRange(View())
      modifies this`queue, this`batch
      ensures batch == old(queue) && queue == [] && |requests| == |batch|
      ensures forall i | 0 <= i < |batch| :: batch[i] < |jobs| && requests[i] == jobs[batch[i]].dispatch.request
    {
      ghost var all := queue;
      requests := [];
      while queue != []
        invariant |batch| <= |all| && batch == all[..|batch|] && queue == all[|batch|..]
        invariant |requests| == |batch|
        invariant forall i | 0 <= i < |batch| :: requests[i] == jobs[all[i]].dispatch.request
        decreases |queue|
      {
        requests := requests + [jobs[queue[0]].dispatch.request];
        batch := batch + [queue[0]];
        queue := queue[1..];
      }
    }

    /** The next job of the batch is done: it reports the engine's result, or that it was superseded. */
    method StoreResult(result: EngineResult)
      requires Valid() && stored < |batch|
      modifies this
      ensures Valid() && JobsInRange(old(View())) && View() == Stored(old(View()), result)
    {
      hide Inv, AnswersOk;
      BothKept(View(), Store(result));
      var j := batch[stored];
      jobs := jobs[j := jobs[j].(result := Some(Reported(jobs[j], result)))];
      stored := stored + 1;
    }

    /** The worker strikes its batch out of the live table. */
    method CleanUp()
      requires Valid() && stored == |batch|
      modifies this
      ensures Valid() && JobsInRange(old(View())) && View() == Cleaned(old(View()))
    {
      hide Inv, AnswersOk;
      WorkerFacts(View());
      BothCleaned(View());
      Strike();
      running := running - |batch|;
      batch, stored := [], 0;
    }

    /** A job leaves the live table only if the entry under its id is still its own. */
    method Strike()
      requires JobsInRange(View())
      modifies this`live
      ensures live == Struck(old(View()), |batch|)
    {
      ghost var s := View();
      for i := 0 to |batch|
        invariant live == Struck(s, i)
      {
        var id := jobs[batch[i]].dispatch.request.requestId;
        if id in live && live[id] == batch[i] {
          live := live - {id};
        }
      }
    }

    /**
       One turn of the worker loop, undisturbed: every queued job ends with the result of its own request,
       or with a failure if it was superseded before.
     */
    method WorkOnce()
      requires Valid() && EngineIdle(worker.engine) && batch == [] && queue != []
      modifies this, worker.engine, worker.engine.kv, worker.engine.radix, worker.engine.cache, worker.engine.pending
      ensures Valid() && EngineIdle(worker.engine) && worker.engine.config.kvBlockSizeTokens > 0
      ensures batch == [] && queue == [] && |jobs| == |old(jobs)|
      ensures forall i | 0 <= i < |old(queue)| :: old(queue)[i] < |jobs| && JobReported(worker.engine.config, jobs[old(queue)[i]])
    {
      hide Inv, AnswersOk, JobReported, EngineIdle, ResultFor, DistinctIds;
      ghost var all := queue;
      var requests := TakeBatch();
      var results := worker.RunBatch(requests);
      ghost var c := worker.engine.config;
      for i := 0 to |batch|
        invariant Valid() && batch == all && stored == i && queue == [] && |jobs| == |old(jobs)|
        invariant EngineIdle(worker.engine)
        invariant forall k | 0 <= k < |all| :: all[k] < |jobs| && jobs[all[k]].dispatch.request == requests[k]
        invariant forall k | 0 <= k < i :: JobReported(c, jobs[all[k]])
      {
        BatchDistinct(View());
        AnswersJob(c, jobs[all[i]], results[i]);
        StoreResult(results[i]);
      }
      CleanUp();
    }

    /** From here on every dispatch is refused. */
    method BeginDrain()
      requires Valid()
      modifies this
      ensures Valid() && View() == old(View()).(draining := true)
    {
      hide Inv, AnswersOk;
      BothKept(View(), Step.BeginDrain);
      draining := true;
    }
  }
}
