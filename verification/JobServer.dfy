/**
  The jobs of the documents service, as its routes are documented to treat
  them (`packages/api-client/src/openapi.d.ts`): a worker that moves jobs on
  whenever it likes, and the requests that cancel, retry and replay them.
*/
module JobServer {
  import opened Prelude

  datatype Status = Queued | Running | Cancelling | Succeeded | Failed | Interrupted | Cancelled

  /** A question of an extraction request, with its type hint. */
  datatype Field = Field(key: string, hint: string)

  datatype Request = Request(ask: seq<Field>, rerun: bool)

  datatype Job = Job(id: nat, request: Request, status: Status, attempt: nat, result: Option<nat>)

  /** A job with a worker, or on its way to one: `waitForJob` waits for its end. */
  predicate Moving(s: Status) { s in {Queued, Running, Cancelling} }

  // ------------------------------------------------------------- the worker

  /** One step of the worker. */
  predicate WorkerStep(j: Job, j': Job) {
    && j' == j.(status := j'.status, result := j'.result)
    && match j.status
       case Queued => j'.status == Running && j'.result == j.result
       case Running => (j'.status == Succeeded && j'.result.Some?) || (j'.status in {Failed, Interrupted} && j'.result == j.result)
       case Cancelling => j'.status == Cancelled && j'.result == j.result
       case _ => false
  }

  /** What any number of steps of the worker may lead to. */
  predicate Leads(s: Status, t: Status) {
    s == t
    || (s == Queued && t in {Running, Succeeded, Failed, Interrupted})
    || (s == Running && t in {Succeeded, Failed, Interrupted})
    || (s == Cancelling && t == Cancelled)
  }

  ghost predicate Steps(s: Status, t: Status) { exists j: Job, j': Job :: j.status == s && j'.status == t && WorkerStep(j, j') }

  /** That is exactly what none, one or two steps lead to, and more never do. */
  lemma LeadsExactly(s: Status, t: Status)
    ensures Leads(s, t) <==> s == t || Steps(s, t) || exists m :: Steps(s, m) && Steps(m, t)
    ensures forall m :: Leads(s, m) && Steps(m, t) ==> Leads(s, t)
  {
    var of := (u: Status) => Job(0, Request([], false), u, 0, Some(0));
    if Leads(s, t) && s != t {
      if s == Queued && t != Running {
        assert WorkerStep(of(Queued), of(Running)) && WorkerStep(of(Running), of(t));
        assert Steps(s, Running) && Steps(Running, t);
      } else {
        assert WorkerStep(of(s), of(t));
      }
    }
  }

  predicate Worked(j: Job, j': Job) {
    j' == j.(status := j'.status, result := j'.result) && Leads(j.status, j'.status) && (!Moving(j.status) ==> j' == j)
  }

  ghost predicate AllWorked(jobs: map<nat, Job>, jobs': map<nat, Job>) {
    jobs'.Keys == jobs.Keys && forall id :: id in jobs ==> Worked(jobs[id], jobs'[id])
  }

  lemma WorkedOn(j: Job, k: Job, l: Job)
    requires Worked(j, k) && (WorkerStep(k, l) || Worked(k, l))
    ensures Worked(j, l)
  {
  }

  // -------------------------------------------------------------- the rules

  /** What a cancel may make of a job it finds so. */
  predicate CancelTo(s: Status, t: Status) {
    match s
    case Queued => t in {Cancelling, Cancelled}
    case Running => t in {Cancelling, Cancelled}
    case Cancelling => t == Cancelling
    case Succeeded => t == Succeeded
    case _ => t == Cancelled
  }

  /** A request that comes again finds the job of the first: one that failed or was interrupted is queued once more. */
  function Replayed(j: Job): (int, Job) {
    if j.status in {Failed, Interrupted} then (202, j.(status := Queued, attempt := j.attempt + 1))
    else if Moving(j.status) then (202, j)
    else (200, j)
  }

  predicate Retriable(s: Status) { s in {Failed, Interrupted, Cancelled} }

  datatype Answer = Answer(http: int, job: Job) | Error(http: int, code: string)

  /** The answer to a retry: what the worker made of the job is restarted if it has ended without success, and else left alone. */
  ghost predicate RetryAnswer(was: Job, now: Job, a: Answer) {
    exists mid :: Worked(was, mid)
      && if Retriable(mid.status) then now == mid.(status := Queued, attempt := mid.attempt + 1) && a == Answer(200, now)
         else now == mid && a == Error(400, "invalid_request")
  }

  class Server {
    var jobs: map<nat, Job>
    /** The job of each extraction that was asked for without `rerun`. */
    var firsts: map<seq<Field>, nat>
    /** The request each idempotency key came with first, and its job. */
    var keys: map<string, (Request, nat)>
    var next: nat

    ghost predicate Valid()
      reads this
    {
      && (forall id :: id in jobs ==> jobs[id].id == id < next)
      && (forall ask :: ask in firsts ==> firsts[ask] in jobs && jobs[firsts[ask]].request == Request(ask, false))
      && (forall k :: k in keys ==> keys[k].1 in jobs && jobs[keys[k].1].request == keys[k].0)
    }

    /** The worker does as much as it likes. */
    method Work()
      requires Valid()
      modifies this`jobs
      ensures Valid() && AllWorked(old(jobs), jobs)
    {
      var steps :| steps >= 0;
      for _ := 0 to steps
        invariant Valid() && AllWorked(old(jobs), jobs)
      {
        var id: nat, moved: Job := *, *;
        if id in jobs && WorkerStep(jobs[id], moved) {
          WorkedOn(old(jobs)[id], jobs[id], moved);
          jobs := jobs[id := moved];
        }
      }
    }

    method Get(id: nat) returns (a: Answer)
      requires Valid()
      modifies this`jobs
      ensures Valid() && AllWorked(old(jobs), jobs)
      ensures id in jobs ==> a == Answer(200, jobs[id])
      ensures id !in jobs ==> a == Error(404, "not_found")
    {
      Work();
      if id !in jobs { return Error(404, "not_found"); }
      return Answer(200, jobs[id]);
    }

    method Cancel(id: nat) returns (a: Answer)
      requires Valid() && id in jobs
      modifies this`jobs
      ensures Valid() && jobs.Keys == old(jobs).Keys && a == Answer(200, jobs[id])
      ensures exists mid :: Leads(old(jobs[id].status), mid) && CancelTo(mid, jobs[id].status)
      ensures jobs[id].attempt == old(jobs[id].attempt) && jobs[id].request == old(jobs[id].request)
      ensures forall i :: i in jobs && i != id ==> Worked(old(jobs)[i], jobs[i])
    {
      Work();
      var choice: bool := *;
      var j := jobs[id];
      var t := match j.status
        case Queued => if choice then Cancelling else Cancelled
        case Running => if choice then Cancelling else Cancelled
        case Cancelling => Cancelling
        case Succeeded => Succeeded
        case _ => Cancelled;
      assert Leads(old(jobs[id].status), j.status) && CancelTo(j.status, t);
      jobs := jobs[id := j.(status := t)];
      return Answer(200, jobs[id]);
    }

    method Retry(id: nat) returns (a: Answer)
      requires Valid() && id in jobs
      modifies this`jobs
      ensures Valid() && jobs.Keys == old(jobs).Keys
      ensures RetryAnswer(old(jobs)[id], jobs[id], a)
      ensures forall i :: i in jobs && i != id ==> Worked(old(jobs)[i], jobs[i])
    {
      Work();
      var j := jobs[id];
      assert Worked(old(jobs)[id], j);
      if !Retriable(j.status) { return Error(400, "invalid_request"); }
      jobs := jobs[id := j.(status := Queued, attempt := j.attempt + 1)];
      return Answer(200, jobs[id]);
    }

    method Replay(id: nat) returns (a: Answer)
      requires Valid() && id in jobs
      modifies this`jobs
      ensures Valid() && ReplayAnswer(old(jobs), id, a)
      ensures forall i :: i in jobs && i != id ==> Worked(old(jobs)[i], jobs[i])
    {
      Work();
      var (http, j) := Replayed(jobs[id]);
      assert Worked(old(jobs)[id], jobs[id]);
      jobs := jobs[id := j];
      return Answer(http, j);
    }

    /** The extraction route: the job of a request already known, or a new one. */
    method Extract(request: Request, key: Option<string>) returns (a: Answer)
      requires Valid()
      modifies this
      ensures Valid() && old(jobs).Keys <= jobs.Keys && next >= old(next)
      ensures !request.rerun && request.ask in old(firsts) ==> ReplayAnswer(old(jobs), old(firsts)[request.ask], a)
      ensures request.rerun && key.Some? && key.value in old(keys) && old(keys)[key.value].0 == request ==>
        ReplayAnswer(old(jobs), old(keys)[key.value].1, a)
      ensures request.rerun && key.Some? && key.value in old(keys) && old(keys)[key.value].0 != request ==>
        a == Error(422, "idempotency_key_reused") && AllWorked(old(jobs), jobs)
      ensures request.rerun && key.Some? ==> keys == if key.value in old(keys) then old(keys) else old(keys)[key.value := (request, old(next))]
      ensures request.rerun && key.None? ==> a == Error(400, "invalid_request") && AllWorked(old(jobs), jobs)
      ensures !request.rerun || key.None? ==> keys == old(keys)
      ensures firsts == if request.rerun || request.ask in old(firsts) then old(firsts) else old(firsts)[request.ask := old(next)]
      ensures !request.rerun && request.ask !in old(firsts) ==>
        a == Answer(202, Job(old(next), request, Queued, 1, None)) && jobs.Keys == old(jobs).Keys + {old(next)} && jobs[old(next)] == a.job
      ensures request.rerun && key.Some? && key.value !in old(keys) ==>
        a == Answer(202, Job(old(next), request, Queued, 1, None)) && jobs.Keys == old(jobs).Keys + {old(next)} && jobs[old(next)] == a.job
      ensures forall id :: id in old(jobs) && (a.Answer? ==> id != a.job.id) ==> Worked(old(jobs)[id], jobs[id])
    {
      if request.rerun && key.None? {
        Work();
        return Error(400, "invalid_request");
      }
      var known := if request.rerun then key.value in keys else request.ask in firsts;
      if known {
        if request.rerun && keys[key.value].0 != request {
          Work();
          return Error(422, "idempotency_key_reused");
        }
        a := Replay(if request.rerun then keys[key.value].1 else firsts[request.ask]);
        return;
      }
      var j := Begin(request);
      if request.rerun { keys := keys[key.value := (request, j.id)]; } else { firsts := firsts[request.ask := j.id]; }
      return Answer(202, j);
    }

    /** A new job, to be run. */
    method Begin(request: Request) returns (j: Job)
      requires Valid()
      modifies this`jobs, this`next
      ensures Valid() && next == old(next) + 1 && j == Job(old(next), request, Queued, 1, None)
      ensures jobs.Keys == old(jobs).Keys + {old(next)} && jobs[old(next)] == j
      ensures forall id :: id in old(jobs) ==> Worked(old(jobs)[id], jobs[id])
    {
      Work();
      j := Job(next, request, Queued, 1, None);
      jobs := jobs[next := j];
      next := next + 1;
    }

    /** The answer to a request that is known: of the job `id`, after what the worker did to it. */
    ghost predicate ReplayAnswer(was: map<nat, Job>, id: nat, a: Answer)
      requires id in was
      reads this
    {
      && jobs.Keys == was.Keys && a.Answer? && a.job == jobs[id]
      && exists mid :: Worked(was[id], mid) && Replayed(mid) == (a.http, a.job)
    }
  }
}
