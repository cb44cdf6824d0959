/**
  The idempotency checks of `packages/documents-accept/src/extract-checks.ts`,
  run against a server that keeps the documented rules while its worker moves
  jobs on between any two requests.
*/
module ExtractChecks {
  import opened Prelude
  import opened JobServer

  datatype Outcome = Passed | Failed | Skipped

  /** What a check finds wrong. */
  datatype Problem =
    | TimedOut | Refused | NotAJob | AttemptChanged | NotInTable | EndedAs(status: Status)
    | WrongJob | WrongStatus | WrongHttp | NotRequeued | WrongResult | NotNew | KeyTaken | StillGoing

  /** What a cancel may make of a job, by what the job was just before. */
  function AfterCancel(s: Status): set<Status> {
    match s
    case Queued => {Cancelling, Cancelled, Succeeded}
    case Running => {Cancelling, Cancelled, Succeeded}
    case Cancelling => {Cancelling, Cancelled}
    case Succeeded => {Succeeded}
    case _ => {Cancelled}
  }

  /** The table holds exactly what a cancel can answer, given what the worker may have done in between. */
  lemma AfterCancelIsExact(s: Status, t: Status)
    ensures t in AfterCancel(s) <==> exists mid :: Leads(s, mid) && CancelTo(mid, t)
  {
    if t in AfterCancel(s) {
      var mid := match (s, t)
        case (Queued, Succeeded) => Succeeded
        case (Running, Succeeded) => Succeeded
        case (Cancelling, Cancelled) => Cancelled
        case _ => s;
      assert Leads(s, mid) && CancelTo(mid, t);
    }
  }

  /** The status the extraction route gives with a job. */
  function HttpOf(s: Status): int {
    if s in {Succeeded, Cancelled} then 200 else if Moving(s) then 202 else 0
  }

  // ------------------------------------------------- what a check looks at

  /** The status of an answer fits its job, as `extract` asks of any answer. */
  predicate Fitting(a: Answer) { a.Answer? && a.http == HttpOf(a.job.status) }

  /** Whatever a server answers to the same request again: nothing is found wrong exactly if it is what the rule makes of the job that had ended. */
  method JudgeReplay(before: Job, a: Answer) returns (problems: seq<Problem>, requeued: bool)
    requires !Moving(before.status)
    ensures var (http, j) := Replayed(before);
      problems == [] <==> a.Answer? && a.http == http && a.job.id == j.id && a.job.status == j.status && a.job.attempt == j.attempt && a.job.result == j.result
    ensures requeued <==> Fitting(a) && a.job.id == before.id && before.status in {Status.Failed, Interrupted}
    ensures TimedOut !in problems
  {
    requeued := false;
    if !Fitting(a) { return [Refused], requeued; }
    var after := a.job;
    if after.id != before.id { return [WrongJob], requeued; }
    requeued := before.status in {Status.Failed, Interrupted};
    var wantHttp := if requeued then 202 else 200;
    var wantStatus := if requeued then Queued else before.status;
    var wantAttempt := if requeued then before.attempt + 1 else before.attempt;
    problems := [];
    if a.http != wantHttp { problems := problems + [WrongHttp]; }
    if after.status != wantStatus || after.attempt != wantAttempt { problems := problems + [WrongStatus]; }
    if after.result != before.result { problems := problems + [WrongResult]; }
  }

  /** Whatever a cancel is answered with: nothing is found wrong exactly if the attempt stays
      and the status is one a cancel may make of it, after any steps of the worker. */
  method JudgeCancel(before: Job, answered: Job) returns (problems: seq<Problem>)
    ensures problems == [] <==> answered.attempt == before.attempt && exists mid :: Leads(before.status, mid) && CancelTo(mid, answered.status)
    ensures TimedOut !in problems
  {
    AfterCancelIsExact(before.status, answered.status);
    if answered.status !in {Cancelling, Cancelled, Succeeded} { return [StillGoing]; }
    if answered.attempt != before.attempt { return [AttemptChanged]; }
    return if answered.status !in AfterCancel(before.status) then [NotInTable] else [];
  }

  /** Whatever the request of a cancelled job is answered with: nothing is found wrong exactly if the job is left as it is. */
  method JudgeReplayed(a: Answer, id: nat, attempt: nat) returns (problems: seq<Problem>)
    ensures problems == [] <==> a.Answer? && a.http == 200 && a.job.id == id && a.job.status == Cancelled && a.job.attempt == attempt
    ensures TimedOut !in problems
  {
    if !Fitting(a) { return [Refused]; }
    problems := [];
    if a.job.id != id { problems := problems + [WrongJob]; }
    if a.job.status != Cancelled { problems := problems + [WrongStatus]; }
    if a.job.attempt != attempt { problems := problems + [AttemptChanged]; }
  }

  /** Whatever a retry is answered with: nothing is found wrong exactly if the job is queued as its next attempt. */
  method JudgeRetried(a: Answer, attempt: nat) returns (problems: seq<Problem>)
    ensures problems == [] <==> a.Answer? && a.job.status == Queued && a.job.attempt == attempt + 1
    ensures TimedOut !in problems
  {
    if a.Error? { return [Refused]; }
    return if a.job.status != Queued || a.job.attempt != attempt + 1 then [NotRequeued] else [];
  }

  /** `waitForJob`, with so many polls before the deadline: the job as the last of
      them found it, and whether that was an end of it. */
  method WaitForJob(server: Server, id: nat, polls: nat) returns (last: Job, ended: bool)
    requires server.Valid() && id in server.jobs
    modifies server`jobs
    ensures server.Valid() && AllWorked(old(server.jobs), server.jobs)
    ensures last == server.jobs[id] && (ended <==> !Moving(last.status))
  {
    last, ended := server.jobs[id], false;
    for i := 0 to polls + 1
      invariant server.Valid() && AllWorked(old(server.jobs), server.jobs)
      invariant i > 0 ==> last == server.jobs[id] && Moving(last.status) && !ended
    {
      ghost var was := server.jobs;
      var a := server.Get(id);
      forall k | k in server.jobs ensures Worked(old(server.jobs)[k], server.jobs[k]) {
        WorkedOn(old(server.jobs)[k], was[k], server.jobs[k]);
      }
      last := a.job;
      if !Moving(last.status) { return last, true; }
    }
  }

  /** `extract`: one request to the route, its answer held to its status. */
  method Extract(server: Server, request: Request, key: Option<string>) returns (a: Answer, ok: bool)
    requires server.Valid()
    modifies server
    ensures server.Valid() && old(server.jobs).Keys <= server.jobs.Keys && server.next >= old(server.next)
    ensures ok <==> a.Answer? && a.http == HttpOf(a.job.status)
    ensures !request.rerun && request.ask in old(server.firsts) ==> server.ReplayAnswer(old(server.jobs), old(server.firsts)[request.ask], a)
    ensures request.rerun && key.Some? && key.value in old(server.keys) && old(server.keys)[key.value].0 == request ==>
      server.ReplayAnswer(old(server.jobs), old(server.keys)[key.value].1, a)
    ensures request.rerun && key.Some? && key.value in old(server.keys) && old(server.keys)[key.value].0 != request ==>
      a == Error(422, "idempotency_key_reused") && AllWorked(old(server.jobs), server.jobs)
    ensures request.rerun && key.Some? ==> server.keys == if key.value in old(server.keys) then old(server.keys) else old(server.keys)[key.value := (request, old(server.next))]
    ensures !request.rerun && request.ask !in old(server.firsts) ==>
      a == Answer(202, Job(old(server.next), request, Queued, 1, None)) && server.jobs.Keys == old(server.jobs).Keys + {old(server.next)} && server.jobs[old(server.next)] == a.job
    ensures request.rerun && key.Some? && key.value !in old(server.keys) ==>
      a == Answer(202, Job(old(server.next), request, Queued, 1, None)) && server.jobs.Keys == old(server.jobs).Keys + {old(server.next)} && server.jobs[old(server.next)] == a.job
    ensures forall id :: id in old(server.jobs) && (a.Answer? ==> id != a.job.id) ==> Worked(old(server.jobs)[id], server.jobs[id])
  {
    a := server.Extract(request, key);
    ok := a.Answer? && a.http == HttpOf(a.job.status);
  }

  /** `checkReplay`: the same request again is the same job, left as it ended or queued again as its next attempt. */
  method CheckReplay(server: Server, ask: seq<Field>, id: nat, polls: nat) returns (problems: seq<Problem>, requeued: bool)
    requires server.Valid() && ask in server.firsts && server.firsts[ask] == id
    modifies server
    ensures server.Valid() && id in server.jobs
    ensures problems == [] || problems == [TimedOut]
    ensures problems == [TimedOut] <==> Moving(server.jobs[id].status) && server.jobs[id].attempt == old(server.jobs[id].attempt)
    ensures !Moving(old(server.jobs[id].status)) ==> problems == []
    ensures problems == [] && requeued ==> server.jobs[id].status == Queued && server.jobs[id].attempt == old(server.jobs[id].attempt) + 1
    ensures problems == [] && !requeued ==> server.jobs[id].status in {Succeeded, Cancelled} && Worked(old(server.jobs)[id], server.jobs[id])
  {
    var before, ended := WaitForJob(server, id, polls);
    if !ended { return [TimedOut], false; }
    var a, ok := Extract(server, Request(ask, false), None);
    problems, requeued := JudgeReplay(before, a);
  }

  /** The rest of `checkCancelledStays`: the job ends cancelled, its request leaves it so, and only a retry revives it. */
  method Revive(server: Server, ask: seq<Field>, id: nat, attempt: nat, polls: nat) returns (problems: seq<Problem>)
    requires server.Valid() && ask in server.firsts && server.firsts[ask] == id
    requires server.jobs[id].status in {Cancelling, Cancelled} && server.jobs[id].attempt == attempt
    modifies server
    ensures server.Valid() && id in server.jobs
    ensures problems == [] || problems == [TimedOut]
    ensures problems == [TimedOut] <==> server.jobs[id].status == Cancelling
    ensures problems == [TimedOut] ==> server.jobs[id].attempt == attempt
    ensures old(server.jobs[id].status) == Cancelled ==> problems == []
    ensures problems == [] ==> server.jobs[id].status == Queued && server.jobs[id].attempt == attempt + 1
  {
    var stopped, ended := WaitForJob(server, id, polls);
    if !ended { return [TimedOut]; }
    if stopped.status != Cancelled { return [EndedAs(stopped.status)]; }
    problems := if stopped.attempt != attempt then [AttemptChanged] else [];
    var replay, ok := Extract(server, Request(ask, false), None);
    var more := JudgeReplayed(replay, id, attempt);
    problems := problems + more;
    if !ok { return; }
    var retried := server.Retry(id);
    more := JudgeRetried(retried, attempt);
    problems := problems + more;
  }

  /** `checkCancelledStays`: unless the wait for its end runs out, it finds
      nothing wrong, and leaves the job queued as its next attempt, or is
      skipped for a job that had already succeeded. */
  method CheckCancelledStays(server: Server, ask: seq<Field>, id: nat, polls: nat) returns (outcome: Outcome, problems: seq<Problem>)
    requires server.Valid() && ask in server.firsts && server.firsts[ask] == id
    modifies server
    ensures server.Valid() && id in server.jobs
    ensures problems == [] || problems == [TimedOut]
    ensures problems == [TimedOut] <==> server.jobs[id].status == Cancelling
    ensures problems == [TimedOut] ==> server.jobs[id].attempt == old(server.jobs[id].attempt)
    ensures !Moving(old(server.jobs[id].status)) ==> outcome == if old(server.jobs[id].status) == Succeeded then Skipped else Passed
    ensures outcome == Outcome.Failed <==> problems != []
    ensures outcome == Passed ==> server.jobs[id].status == Queued && server.jobs[id].attempt == old(server.jobs[id].attempt) + 1
    ensures outcome == Skipped ==> server.jobs[id].status == Succeeded && server.jobs[id].attempt == old(server.jobs[id].attempt)
  {
    outcome := Outcome.Failed;
    var read := server.Get(id);
    var before := read.job;
    var answered := server.Cancel(id);
    problems := JudgeCancel(before, answered.job);
    if problems != [] { return; }
    if answered.job.status == Succeeded { return Skipped, []; }
    problems := Revive(server, ask, id, before.attempt, polls);
    outcome := if problems == [] then Passed else Outcome.Failed;
  }

  /** The last question asked with another type hint. */
  function Other(ask: seq<Field>): seq<Field> {
    if ask == [] then []
    else ask[..|ask| - 1] + [Field(ask[|ask| - 1].key, if ask[|ask| - 1].hint == "text" then "identifier" else "text")]
  }

  lemma OtherDiffers(ask: seq<Field>)
    ensures Other(ask) == ask <==> ask == []
  {
    if ask != [] { assert Other(ask)[|ask| - 1].hint != ask[|ask| - 1].hint; }
  }

  /** The same questions, all but the last with the same hint. */
  lemma OtherMeans(ask: seq<Field>)
    ensures |Other(ask)| == |ask| && forall k :: 0 <= k < |ask| ==> Other(ask)[k].key == ask[k].key && (Other(ask)[k].hint == ask[k].hint <==> k < |ask| - 1)
  {
  }

  predicate Stopping(s: Status) { s in {Cancelling, Cancelled, Succeeded} }

  /** Every job the reruns started is cancelled, whatever was found. */
  method CancelAll(server: Server, started: set<nat>) returns (problems: seq<Problem>)
    requires server.Valid() && started <= server.jobs.Keys
    modifies server`jobs
    ensures server.Valid() && server.jobs.Keys == old(server.jobs).Keys
    ensures forall id :: id in started ==> Stopping(server.jobs[id].status)
    ensures problems == []
  {
    problems := [];
    var left := started;
    while left != {}
      invariant server.Valid() && server.jobs.Keys == old(server.jobs).Keys && left <= started
      invariant forall id :: id in started - left ==> Stopping(server.jobs[id].status)
      invariant problems == []
      decreases |left|
    {
      var id :| id in left;
      left := left - {id};
      ghost var was := server.jobs;
      var a := server.Cancel(id);
      if !Stopping(a.job.status) { problems := problems + [StillGoing]; }
      assert forall i :: i in started - left && i != id ==> Worked(was[i], server.jobs[i]);
    }
  }

  /** A job other than the first one is one the reruns started. */
  function Mine(started: set<nat>, a: Answer, id: nat): set<nat> {
    if a.Answer? && a.job.id != id then started + {a.job.id} else started
  }

  /** Whatever the first request under a new key is answered with: nothing is found wrong exactly if it is a new job, still to be run. */
  method JudgeFirst(a: Answer, id: nat) returns (problems: seq<Problem>)
    ensures problems == [] <==> a.Answer? && a.http == 202 && a.job.id != id && a.job.status in {Queued, Running}
    ensures Fitting(a) && a.job.id != id <==> !(problems == [Refused] || problems == [NotNew])
  {
    if !Fitting(a) { return [Refused]; }
    if a.job.id == id { return [NotNew]; }
    return if a.job.status !in {Queued, Running} then [WrongStatus] else [];
  }

  /** Whatever the key is answered with another time: with the same request it has to be that job, and with another one it has to be refused. */
  method JudgeAgain(second: Answer, first: nat, third: Answer) returns (problems: seq<Problem>)
    ensures problems == [] <==> Fitting(second) && second.job.id == first && third == Error(422, "idempotency_key_reused")
    ensures Fitting(second) && second.job.id == first && third.Answer? ==> problems == [KeyTaken]
  {
    if !Fitting(second) { return [Refused]; }
    problems := if second.job.id != first then [WrongJob] else [];
    if third.Answer? {
      problems := problems + [KeyTaken];
    } else if !(third.http == 422 && third.code == "idempotency_key_reused") {
      problems := problems + [Refused];
    }
  }

  /** The requests of `checkRerunKey`, before the jobs it started are cancelled. */
  method AskAgain(server: Server, ask: seq<Field>, id: nat, key: string) returns (problems: seq<Problem>, started: set<nat>)
    requires server.Valid() && id in server.jobs && key !in server.keys
    modifies server
    ensures server.Valid() && server.jobs.Keys == old(server.jobs).Keys + started
    ensures problems == if ask != [] then [] else [KeyTaken]
    ensures started == {old(server.next)}
  {
    var request := Request(ask, true);
    var first, ok1 := Extract(server, request, Some(key));
    started := Mine({}, first, id);
    problems := JudgeFirst(first, id);
    if problems == [Refused] || problems == [NotNew] { return; }
    ghost var was := server.jobs;
    var second, ok2 := Extract(server, request, Some(key));
    started := Mine(started, second, id);
    assert server.jobs.Keys == was.Keys;
    if !ok2 { return problems + [Refused], started; }
    OtherDiffers(ask);
    var third, ok3 := Extract(server, Request(Other(ask), true), Some(key));
    started := Mine(started, third, id);
    var more := JudgeAgain(second, first.job.id, third);
    problems := problems + more;
  }

  /** `checkRerunKey`: with a key nobody has used it finds nothing wrong exactly
      if there is a question to ask differently, and leaves none of the jobs it
      started to run on. */
  method CheckRerunKey(server: Server, ask: seq<Field>, id: nat, key: string) returns (problems: seq<Problem>)
    requires server.Valid() && id in server.jobs && key !in server.keys
    modifies server
    ensures server.Valid() && old(server.jobs).Keys <= server.jobs.Keys
    ensures problems == if ask != [] then [] else [KeyTaken]
    ensures server.jobs.Keys == old(server.jobs).Keys + {old(server.next)} && Stopping(server.jobs[old(server.next)].status)
  {
    var found, started := AskAgain(server, ask, id, key);
    if NotNew in found { return found; }
    var more := CancelAll(server, started);
    problems := found + more;
  }
}
