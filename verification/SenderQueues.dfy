/**
  The queues of `packages/nostr-bridge/src/inbound.ts` as they are made: every
  enqueued run hangs on the promise of the last one of its key, and begins once
  that has settled. That the runs of a sender come one at a time and in order
  is what these links lead to; nothing here holds only one run by its type.
*/
module SenderQueues {
  import opened Prelude

  type Npub = string

  datatype Message = Message(from: Npub, eventId: Option<string>, content: string, createdAt: Option<int>)

  /** What `createSession` answers: an id, or none where the answer has no such member. */
  type SessionId = Option<string>

  /** What `sessionFor` takes for no session. */
  predicate Falsy(s: SessionId) { s.None? || s.value == "" }

  /** What a run waits for: its turn, a session, the agent, its reply; or nothing any more. */
  datatype Phase = Waiting | Creating | Running | Replying | Settled

  /** A run as it was enqueued: its message and the run whose promise it hangs on. */
  datatype Link = Link(message: Message, after: Option<nat>, phase: Phase) {
    function From(): Npub { message.from }
    predicate Begun() { !phase.Waiting? }
    predicate Active() { Begun() && !phase.Settled? }
  }

  /** Nothing that the run hangs on is left to settle. */
  predicate Free(links: seq<Link>, i: nat) {
    i < |links| && (links[i].after.Some? ==> links[i].after.value < |links| && links[links[i].after.value].phase.Settled?)
  }

  predicate CanBegin(links: seq<Link>, i: nat) { Free(links, i) && links[i].phase.Waiting? }

  /** No run of this sender was enqueued from `lo` to `hi`. */
  ghost predicate NoneOf(links: seq<Link>, npub: Npub, lo: int, hi: int)
    requires 0 <= lo && hi <= |links|
  {
    forall j :: lo <= j < hi ==> links[j].From() != npub
  }

  /** A run hangs on the last one of its sender before it, and has begun only after that settled. */
  ghost predicate Linked(links: seq<Link>, i: nat)
    requires i < |links|
  {
    match links[i].after
    case None => NoneOf(links, links[i].From(), 0, i)
    case Some(p) =>
      && p < i && links[p].From() == links[i].From()
      && NoneOf(links, links[i].From(), p + 1, i)
      && (links[i].Begun() ==> links[p].phase.Settled?)
  }

  /** `queues` leads to the last run of each sender that has any. */
  ghost predicate Last(links: seq<Link>, queues: map<Npub, nat>, npub: Npub) {
    if npub in queues
    then queues[npub] < |links| && links[queues[npub]].From() == npub && NoneOf(links, npub, queues[npub] + 1, |links|)
    else NoneOf(links, npub, 0, |links|)
  }

  ghost predicate Chains(links: seq<Link>, queues: map<Npub, nat>) {
    && (forall i :: 0 <= i < |links| ==> Linked(links, i))
    && (forall npub :: Last(links, queues, npub))
  }

  // -------------------------------------------------------- what links lead to

  /** When a run has begun all runs of its sender that were enqueued before it have settled. */
  lemma {:induction false} EarlierSettled(links: seq<Link>, i: nat, j: nat)
    requires forall k :: 0 <= k < |links| ==> Linked(links, k)
    requires i < j < |links| && links[i].From() == links[j].From() && links[j].Begun()
    ensures links[i].phase.Settled?
    decreases j
  {
    assert Linked(links, j);
    if links[j].after.Some? && links[j].after.value != i {
      EarlierSettled(links, i, links[j].after.value);
    }
  }

  /** Never two runs of one sender at once. */
  lemma OneAtATime(links: seq<Link>, i: nat, j: nat)
    requires forall k :: 0 <= k < |links| ==> Linked(links, k)
    requires i < |links| && j < |links| && links[i].From() == links[j].From() && links[i].Active() && links[j].Active()
    ensures i == j
  {
    if i < j { EarlierSettled(links, i, j); } else if j < i { EarlierSettled(links, j, i); }
  }

  /** No sender is stuck: with a run waiting and none going on the first that waits can begin. */
  lemma {:induction false} SomeoneNext(links: seq<Link>, i: nat) returns (first: nat)
    requires forall k :: 0 <= k < |links| ==> Linked(links, k)
    requires i < |links| && links[i].phase.Waiting?
    requires forall k :: 0 <= k < |links| && links[k].From() == links[i].From() ==> !links[k].Active()
    ensures first <= i && links[first].From() == links[i].From() && CanBegin(links, first)
    decreases i
  {
    assert Linked(links, i);
    if links[i].after.Some? && links[links[i].after.value].phase.Waiting? {
      first := SomeoneNext(links, links[i].after.value);
    } else {
      first := i;
    }
  }

  // ------------------------------------------------------- what steps keep

  /** `enqueue`: a new run hangs on the last one of its sender. */
  function Enqueued(links: seq<Link>, queues: map<Npub, nat>, m: Message): seq<Link> {
    links + [Link(m, if m.from in queues then Some(queues[m.from]) else None, Waiting)]
  }

  lemma EnqueuedKeeps(links: seq<Link>, queues: map<Npub, nat>, m: Message)
    requires Chains(links, queues)
    ensures Chains(Enqueued(links, queues, m), queues[m.from := |links|])
  {
    var (more, leads) := (Enqueued(links, queues, m), queues[m.from := |links|]);
    assert Last(links, queues, m.from);
    forall i | 0 <= i < |more| ensures Linked(more, i) {
      if i < |links| { assert Linked(links, i); }
    }
    forall npub ensures Last(more, leads, npub) {
      assert Last(links, queues, npub);
    }
  }

  function Moved(links: seq<Link>, i: nat, phase: Phase): seq<Link>
    requires i < |links|
  {
    links[i := links[i].(phase := phase)]
  }

  /** A run that has not settled goes on, or begins in its turn. */
  lemma MovedKeeps(links: seq<Link>, queues: map<Npub, nat>, i: nat, phase: Phase)
    requires Chains(links, queues) && Free(links, i) && !links[i].phase.Settled? && !phase.Waiting?
    ensures Chains(Moved(links, i, phase), queues)
  {
    var now := Moved(links, i, phase);
    forall j | 0 <= j < |now| ensures Linked(now, j) {
      assert Linked(links, j);
    }
    forall npub ensures Last(now, queues, npub) {
      assert Last(links, queues, npub);
    }
  }

  /** A run that has begun is free to go on. */
  lemma ActiveIsFree(links: seq<Link>, queues: map<Npub, nat>, i: nat)
    requires Chains(links, queues) && i < |links| && links[i].Begun()
    ensures Free(links, i)
  {
    assert Linked(links, i);
  }

  // --------------------------------------------------------------- the history

  /** A call to the agent, for a run. */
  datatype Call = CreateSession(link: nat) | RunToCompletion(link: nat, session: SessionId)

  /** The runs of a sender begin in the order in which they were enqueued. */
  ghost predicate InOrder(links: seq<Link>, begun: seq<nat>) {
    && (forall k :: 0 <= k < |begun| ==> begun[k] < |links| && links[begun[k]].Begun())
    && (forall i :: 0 <= i < |links| && links[i].Begun() ==> i in begun)
    && (forall a, b :: 0 <= a < b < |begun| && links[begun[a]].From() == links[begun[b]].From() ==> begun[a] < begun[b])
  }

  /** The agent is called only for runs that have begun, and asked for the runs of a sender in their order, each once. */
  ghost predicate CalledInOrder(links: seq<Link>, calls: seq<Call>) {
    && (forall k :: 0 <= k < |calls| ==> calls[k].link < |links| && links[calls[k].link].Begun())
    && (forall k :: 0 <= k < |calls| && calls[k].RunToCompletion? ==> !links[calls[k].link].phase.Creating?)
    && (forall a, b :: 0 <= a < b < |calls| && BothRun(links, calls[a], calls[b]) ==> calls[a].link < calls[b].link)
  }

  /** Two calls that have runs of one sender done. */
  predicate BothRun(links: seq<Link>, c: Call, d: Call) {
    && c.RunToCompletion? && d.RunToCompletion? && c.link < |links| && d.link < |links|
    && links[c.link].From() == links[d.link].From()
  }

  function MadeFor(made: map<Npub, seq<SessionId>>, npub: Npub): seq<SessionId> {
    if npub in made then made[npub] else []
  }

  function SessionOf(sessions: map<Npub, SessionId>, npub: Npub): SessionId {
    if npub in sessions then sessions[npub] else None
  }

  /** The session kept is the last one made; only that can be a usable one; and a run waits for one only while there is none. */
  ghost predicate SessionsKept(links: seq<Link>, sessions: map<Npub, SessionId>, made: map<Npub, seq<SessionId>>) {
    && (forall npub :: KeptFor(sessions, made, npub))
    && (forall i :: 0 <= i < |links| && links[i].phase.Creating? ==> Falsy(SessionOf(sessions, links[i].From())))
  }

  ghost predicate KeptFor(sessions: map<Npub, SessionId>, made: map<Npub, seq<SessionId>>, npub: Npub) {
    var all := MadeFor(made, npub);
    && SessionOf(sessions, npub) == (if all == [] then None else all[|all| - 1])
    && forall k :: 0 <= k < |all| - 1 ==> Falsy(all[k])
  }

  /** A usable session is kept exactly if one was made, and it is then the last that is made. */
  lemma OneSession(links: seq<Link>, sessions: map<Npub, SessionId>, made: map<Npub, seq<SessionId>>, npub: Npub)
    requires SessionsKept(links, sessions, made)
    ensures !Falsy(SessionOf(sessions, npub)) <==> exists k :: 0 <= k < |MadeFor(made, npub)| && !Falsy(MadeFor(made, npub)[k])
    ensures forall k :: 0 <= k < |MadeFor(made, npub)| && !Falsy(MadeFor(made, npub)[k]) ==> k == |MadeFor(made, npub)| - 1
  {
    var all := MadeFor(made, npub);
    assert KeptFor(sessions, made, npub);
    if all != [] { assert SessionOf(sessions, npub) == all[|all| - 1]; }
  }

  /** The runs of a sender that have begun are the first it enqueued, up to the last that has. */
  lemma BegunAreFirst(links: seq<Link>, begun: seq<nat>, i: nat, j: nat)
    requires (forall k :: 0 <= k < |links| ==> Linked(links, k)) && InOrder(links, begun)
    requires i <= j < |links| && links[i].From() == links[j].From() && j in begun
    ensures i in begun
  {
    if i < j { EarlierSettled(links, i, j); }
  }

  lemma BeginKeepsOrder(links: seq<Link>, queues: map<Npub, nat>, begun: seq<nat>, i: nat, phase: Phase)
    requires Chains(links, queues) && InOrder(links, begun) && CanBegin(links, i) && !phase.Waiting?
    ensures InOrder(Moved(links, i, phase), begun + [i])
  {
    var (now, more) := (Moved(links, i, phase), begun + [i]);
    forall a | 0 <= a < |begun| && links[begun[a]].From() == links[i].From() ensures begun[a] < i {
      if i < begun[a] { EarlierSettled(links, i, begun[a]); }
    }
    forall j | 0 <= j < |now| && now[j].Begun() ensures j in more {
      if j != i { assert links[j].Begun() && j in begun; }
      assert more[|begun|] == i;
    }
  }

  lemma MoveKeepsOrder(links: seq<Link>, begun: seq<nat>, i: nat, phase: Phase)
    requires InOrder(links, begun) && i < |links| && links[i].Begun() && !phase.Waiting?
    ensures InOrder(Moved(links, i, phase), begun)
  {
  }

  lemma MoveKeepsCalls(links: seq<Link>, calls: seq<Call>, i: nat, phase: Phase)
    requires CalledInOrder(links, calls) && i < |links| && !phase.Waiting? && (phase.Creating? ==> links[i].phase.Waiting?)
    ensures CalledInOrder(Moved(links, i, phase), calls)
  {
  }

  /** The call for a run whose turn it is. */
  lemma CallAdded(links: seq<Link>, queues: map<Npub, nat>, calls: seq<Call>, i: nat, phase: Phase, c: Call)
    requires Chains(links, queues) && CalledInOrder(links, calls) && Free(links, i) && c.link == i
    requires links[i].phase in {Waiting, Creating} && phase == if c.CreateSession? then Creating else Running
    ensures CalledInOrder(Moved(links, i, phase), calls + [c])
  {
    var (now, more) := (Moved(links, i, phase), calls + [c]);
    forall a | 0 <= a < |calls| && calls[a].RunToCompletion? && links[calls[a].link].From() == links[i].From() ensures calls[a].link < i {
      if i < calls[a].link { EarlierSettled(links, i, calls[a].link); }
    }
  }

  /** A session made for the run that waits for one. */
  lemma SessionMade(links: seq<Link>, queues: map<Npub, nat>, sessions: map<Npub, SessionId>, made: map<Npub, seq<SessionId>>, i: nat, s: SessionId)
    requires Chains(links, queues) && SessionsKept(links, sessions, made) && i < |links| && links[i].phase.Creating?
    ensures var npub := links[i].From();
      SessionsKept(Moved(links, i, Running), sessions[npub := s], made[npub := MadeFor(made, npub) + [s]])
  {
    var (npub, now) := (links[i].From(), Moved(links, i, Running));
    var (sessions', made') := (sessions[npub := s], made[npub := MadeFor(made, npub) + [s]]);
    assert Falsy(SessionOf(sessions, npub));
    forall other ensures KeptFor(sessions', made', other) {
      assert KeptFor(sessions, made, other);
      var all := MadeFor(made', other);
      forall k | 0 <= k < |all| - 1 ensures Falsy(all[k]) {
        assert all[k] == MadeFor(made, other)[k];
      }
    }
    forall j | 0 <= j < |now| && now[j].phase.Creating? ensures Falsy(SessionOf(sessions', now[j].From())) {
      if links[j].From() == npub { OneAtATime(links, i, j); }
    }
  }

  lemma MoveKeepsSessions(links: seq<Link>, sessions: map<Npub, SessionId>, made: map<Npub, seq<SessionId>>, i: nat, phase: Phase)
    requires SessionsKept(links, sessions, made) && i < |links|
    requires phase.Creating? ==> Falsy(SessionOf(sessions, links[i].From()))
    ensures SessionsKept(Moved(links, i, phase), sessions, made)
  {
  }
}
