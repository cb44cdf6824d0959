/**
  `InboundBridge` of `packages/nostr-bridge/src/inbound.ts`: messages from the
  network, deduplicated, queued per sender, and run by the agent.

  Every method is a stretch of code between two awaits; any order of calls is
  an interleaving of polls, completions and failures.  The ghost fields keep
  what happened, for what is promised of it.
*/
module Inbound {
  import opened Prelude
  import opened SenderQueues

  const MAX_SEEN := 10_000

  datatype Options = Options(dispatchEnabled: bool, dispatchSince: Option<int>)

  /** A message that a poll may hand on, its sender being listed: dispatch is on, and it is no backlog. */
  predicate Dispatched(o: Options, m: Message) {
    m.from != "" && o.dispatchEnabled && !(o.dispatchSince.Some? && m.createdAt.Some? && m.createdAt.value < o.dispatchSince.value)
  }

  /** The id a message is known by: an empty one is none. */
  function Id(m: Message): Option<string> { if m.eventId == Some("") then None else m.eventId }

  predicate Unique(s: seq<string>) { forall i, j :: 0 <= i < j < |s| ==> s[i] != s[j] }

  /** `seen` is in the order of insertion, each id with the number of its last insertion. */
  ghost predicate Numbered(seen: seq<string>, at: map<string, nat>, count: nat) {
    && (forall i :: 0 <= i < |seen| ==> seen[i] in at && at[seen[i]] < count)
    && (forall i, j :: 0 <= i < j < |seen| ==> at[seen[i]] < at[seen[j]])
  }

  /** The oldest id is as many insertions old as there are ids. */
  lemma {:induction false} OldestIsOld(seen: seq<string>, at: map<string, nat>, count: nat, k: nat)
    requires Numbered(seen, at, count) && k < |seen|
    ensures at[seen[0]] + k <= at[seen[k]] < count
    decreases k
  {
    if k > 0 { OldestIsOld(seen, at, count, k - 1); }
  }

  /** `seen` after an insertion: beyond the cap the oldest go. */
  function Remembered(seen: seq<string>, id: string): seq<string> {
    var all := seen + [id];
    if |all| > MAX_SEEN then all[|all| - MAX_SEEN..] else all
  }

  /** `seen` after a deletion. */
  function Without(seen: seq<string>, id: string): seq<string> {
    if seen == [] then [] else if seen[0] == id then seen[1..] else [seen[0]] + Without(seen[1..], id)
  }

  ghost predicate Bounded(seen: seq<string>, at: map<string, nat>, count: nat) {
    |seen| <= MAX_SEEN && Numbered(seen, at, count)
  }

  lemma NumberedUnique(seen: seq<string>, at: map<string, nat>, count: nat)
    requires Numbered(seen, at, count)
    ensures Unique(seen)
  {
    forall i, j | 0 <= i < j < |seen| ensures seen[i] != seen[j] {
      assert at[seen[i]] < at[seen[j]];
    }
  }

  lemma RememberedKeeps(seen: seq<string>, at: map<string, nat>, count: nat, id: string)
    requires Bounded(seen, at, count) && id !in seen
    ensures Bounded(Remembered(seen, id), at[id := count], count + 1) && id in Remembered(seen, id)
    ensures forall x :: x in Remembered(seen, id) ==> x in seen || x == id
    ensures forall x :: x in seen && x !in Remembered(seen, id) ==> x in at && count + 1 - at[x] > MAX_SEEN
  {
    var all, at' := seen + [id], at[id := count];
    assert all[|all| - 1] == id;
    assert Numbered(all, at', count + 1);
    assert forall x :: x in all <==> x in seen || x == id;
    if |all| > MAX_SEEN {
      assert Remembered(seen, id) == all[1..] && all[1..][|all| - 2] == id;
      OldestGone(all, at', count + 1);
    } else {
      assert Remembered(seen, id) == all;
    }
  }

  lemma OldestGone(all: seq<string>, at: map<string, nat>, count: nat)
    requires Numbered(all, at, count) && |all| == MAX_SEEN + 1
    ensures Bounded(all[1..], at, count)
    ensures forall x :: x in all <==> x in all[1..] || x == all[0]
    ensures all[0] in at && count - at[all[0]] > MAX_SEEN
  {
    OldestIsOld(all, at, count, MAX_SEEN);
  }

  lemma {:induction false} WithoutKeeps(seen: seq<string>, at: map<string, nat>, count: nat, id: string)
    requires Numbered(seen, at, count)
    ensures Numbered(Without(seen, id), at, count) && |Without(seen, id)| <= |seen|
    ensures forall x :: x in Without(seen, id) <==> x in seen && x != id
    decreases |seen|
  {
    if seen != [] {
      var tail := seen[1..];
      assert seen == [seen[0]] + tail;
      NumberedUnique(seen, at, count);
      WithoutKeeps(tail, at, count, id);
      NumberedFirst(seen[0], tail, at, count);
      if seen[0] != id {
        forall x | x in Without(tail, id) ensures at[seen[0]] < at[x] {
          assert x in tail;
        }
        NumberedAdd(seen[0], Without(tail, id), at, count);
      }
    }
  }

  lemma NumberedFirst(first: string, tail: seq<string>, at: map<string, nat>, count: nat)
    requires Numbered([first] + tail, at, count)
    ensures first in at && at[first] < count && Numbered(tail, at, count)
    ensures forall x :: x in tail ==> x in at && at[first] < at[x]
  {
    var all := [first] + tail;
    assert all[0] == first && all[1..] == tail;
  }

  lemma NumberedAdd(first: string, tail: seq<string>, at: map<string, nat>, count: nat)
    requires first in at && at[first] < count && Numbered(tail, at, count)
    requires forall x :: x in tail ==> x in at && at[first] < at[x]
    ensures Numbered([first] + tail, at, count)
  {
  }

  /** How a run ends: `runToCompletion` throws; or it answers a completed run whose text is no string, over which `reply`
      throws before it sends anything; or what it answers can be replied. */
  datatype RunEnd = Threw | Unreadable | Answerable

  /** What the outside does: a poll comes to a row of the inbox, a run gets its
      turn, or what a run waits for settles. A session of `None` is a refusal. */
  datatype Event =
    | Row(message: Message, options: Options)
    | Turn(link: nat)
    | SessionCame(link: nat, session: Option<SessionId>)
    | RunCame(link: nat, end: RunEnd)
    | ReplyCame(link: nat)

  /** Some poll with dispatch on came to this message, which was no backlog to it. */
  ghost predicate Admitted(events: seq<Event>, m: Message) {
    exists k :: 0 <= k < |events| && events[k].Row? && events[k].message == m && Dispatched(events[k].options, m)
  }

  /** The runs of before are still there, for the same messages and hung on the same ones. */
  ghost predicate GrownFrom(was: seq<Link>, now: seq<Link>) {
    |was| <= |now| && forall k :: 0 <= k < |was| ==> now[k].message == was[k].message && now[k].after == was[k].after
  }

  /** What one event adds to the runs. */
  ghost predicate Came(e: Event, was: seq<Link>, now: seq<Link>) {
    && GrownFrom(was, now)
    && (|now| == |was| || (|now| == |was| + 1 && e.Row? && Dispatched(e.options, e.message) && now[|was|].message == e.message))
  }

  /** What events added to the runs: only what some poll may hand on. */
  ghost predicate OnlyAdmitted(events: seq<Event>, was: seq<Link>, now: seq<Link>) {
    GrownFrom(was, now) && forall k :: |was| <= k < |now| ==> Admitted(events, now[k].message)
  }

  lemma OneMoreAdmitted(events: seq<Event>, i: nat, before: seq<Link>, was: seq<Link>, now: seq<Link>)
    requires i < |events| && OnlyAdmitted(events, before, was) && Came(events[i], was, now)
    ensures OnlyAdmitted(events, before, now)
  {
    if |now| > |was| { assert Admitted(events, events[i].message); }
  }

  /** A waiting run gets its turn. */
  predicate Begins(e: Event, links: seq<Link>) { e.Turn? && CanBegin(links, e.link) }

  /** A session comes that a run waits for. */
  predicate Brings(e: Event, links: seq<Link>) {
    e.SessionCame? && e.session.Some? && InPhase(links, e.link, Creating)
  }

  /** What the agent is asked at this event: a beginning run asks for a session where none is usable, and a run with a session asks to be run. */
  function Asks(e: Event, links: seq<Link>, sessions: map<Npub, SessionId>): seq<Call> {
    if Begins(e, links) then
      var s := SessionOf(sessions, links[e.link].From());
      [if Falsy(s) then CreateSession(e.link) else RunToCompletion(e.link, s)]
    else if Brings(e, links) then [RunToCompletion(e.link, e.session.value)]
    else []
  }

  /** What the agent may be asked at this event, wherever the runs stand. */
  predicate MayAsk(e: Event, asked: seq<Call>) {
    asked == [] ||
    match e
    case Turn(i) => |asked| == 1 && asked[0].link == i
    case SessionCame(i, session) => session.Some? && asked == [RunToCompletion(i, session.value)]
    case _ => false
  }

  function Flat(asked: seq<seq<Call>>): seq<Call> {
    if asked == [] then [] else Flat(asked[..|asked| - 1]) + asked[|asked| - 1]
  }

  /** The runs begun: those at whose turn the agent was asked something. */
  function TurnsOf(events: seq<Event>, asked: seq<seq<Call>>): seq<nat>
    requires |asked| == |events|
  {
    if events == [] then []
    else
      var k := |events| - 1;
      TurnsOf(events[..k], asked[..k]) + if events[k].Turn? && asked[k] != [] then [events[k].link] else []
  }

  /** The calls `asked` of these events, and the runs they began. */
  ghost predicate Told(events: seq<Event>, asked: seq<seq<Call>>, calls: seq<Call>, calls': seq<Call>, begun: seq<nat>, begun': seq<nat>) {
    && |asked| == |events| && (forall k :: 0 <= k < |events| ==> MayAsk(events[k], asked[k]))
    && calls' == calls + Flat(asked) && begun' == begun + TurnsOf(events, asked)
  }

  lemma NothingYet(events: seq<Event>, links: seq<Link>, calls: seq<Call>, begun: seq<nat>)
    ensures OnlyAdmitted(events, links, links) && Told([], [], calls, calls, begun, begun)
  {
  }

  lemma TurnAsks(e: Event, links: seq<Link>, sessions: map<Npub, SessionId>)
    ensures e.Turn? && Asks(e, links, sessions) != [] <==> Begins(e, links)
  {
  }

  lemma ToldOn(events: seq<Event>, asked: seq<seq<Call>>, e: Event, cs: seq<Call>, calls: seq<Call>, calls': seq<Call>, begun: seq<nat>, begun': seq<nat>)
    requires Told(events, asked, calls, calls', begun, begun') && MayAsk(e, cs)
    ensures Told(events + [e], asked + [cs], calls, calls' + cs, begun, begun' + if e.Turn? && cs != [] then [e.link] else [])
  {
    assert (events + [e])[..|events|] == events && (asked + [cs])[..|events|] == asked;
    var _ := Flat(asked + [cs]);
    var _ := TurnsOf(events + [e], asked + [cs]);
  }

  /** The event makes a run throw whose message is known by `id`. */
  predicate Throws(e: Event, links: seq<Link>, id: string) {
    && ((e.SessionCame? && e.session.None? && InPhase(links, e.link, Creating))
        || (e.RunCame? && !e.end.Answerable? && InPhase(links, e.link, Running)))
    && Id(links[e.link].message) == Some(id)
  }

  predicate InPhase(links: seq<Link>, i: nat, phase: Phase) { i < |links| && links[i].phase == phase }

  /** Where the runs stand after an event; `isFresh` says it of the message of a row. */
  function LinksAfter(e: Event, links: seq<Link>, queues: map<Npub, nat>, sessions: map<Npub, SessionId>, isFresh: bool): seq<Link> {
    match e
    case Row(m, o) => if Dispatched(o, m) && isFresh then Enqueued(links, queues, m) else links
    case Turn(i) => if CanBegin(links, i) then Moved(links, i, if Falsy(SessionOf(sessions, links[i].From())) then Creating else Running) else links
    case SessionCame(i, session) => if InPhase(links, i, Creating) then Moved(links, i, if session.Some? then Running else Settled) else links
    case RunCame(i, end) => if InPhase(links, i, Running) then Moved(links, i, if end.Answerable? then Replying else Settled) else links
    case ReplyCame(i) => if InPhase(links, i, Replying) then Moved(links, i, Settled) else links
  }

  class InboundBridge {
    const allowed: set<Npub>
    var seen: seq<string>
    /** The ids already logged as skipped while dispatch is off. */
    var frozenLogged: seq<string>
    var sessions: map<Npub, SessionId>
    var queues: map<Npub, nat>
    /** The runs enqueued so far, each with what it waits for. */
    var links: seq<Link>
    /** The runs in the order they began, the calls to the agent, and the sessions made for each sender. */
    ghost var begun: seq<nat>
    ghost var calls: seq<Call>
    ghost var made: map<Npub, seq<SessionId>>
    /** How many ids were inserted into `seen`, and when each was last. */
    ghost var inserted: nat
    ghost var at: map<string, nat>

    constructor (allowed: set<Npub>)
      ensures Valid() && this.allowed == allowed && seen == [] && links == [] && calls == []
      ensures sessions == map[] && queues == map[]
    {
      this.allowed := allowed;
      seen, frozenLogged, sessions, queues, links := [], [], map[], map[], [];
      begun, calls, made, inserted, at := [], [], map[], 0, map[];
    }

    ghost predicate Valid()
      reads this
    {
      && |frozenLogged| <= MAX_SEEN
      && Bounded(seen, at, inserted)
      && Chains(links, queues) && InOrder(links, begun) && CalledInOrder(links, calls)
      && SessionsKept(links, sessions, made)
      && forall i :: 0 <= i < |links| ==> links[i].From() in allowed
    }

    /** `rememberSeen`: an id leaves only after as many later insertions as the cap allows. */
    method RememberSeen(id: string)
      requires Bounded(seen, at, inserted) && id !in seen
      modifies this`seen, this`at, this`inserted
      ensures Bounded(seen, at, inserted) && seen == Remembered(old(seen), id) && id in seen
      ensures inserted == old(inserted) + 1 && at == old(at)[id := old(inserted)]
      ensures forall x :: x in old(seen) && x !in seen ==> Outlived(x)
    {
      RememberedKeeps(seen, at, inserted, id);
      hide Bounded, Numbered;
      at := at[id := inserted];
      inserted := inserted + 1;
      seen := seen + [id];
      if |seen| > MAX_SEEN { seen := seen[|seen| - MAX_SEEN..]; }
    }

    /** At least `MAX_SEEN` ids were inserted after this one. */
    ghost predicate Outlived(id: string)
      reads this`at, this`inserted
    {
      id in at && inserted - at[id] > MAX_SEEN
    }

    /** `enqueue`: the run hangs on the last one of its sender, and that is now this one. */
    method Enqueue(m: Message)
      requires Valid() && m.from in allowed
      modifies this`links, this`queues
      ensures Valid() && links == Enqueued(old(links), old(queues), m) && queues == old(queues)[m.from := |old(links)|]
    {
      EnqueuedKeeps(links, queues, m);
      EnqueuedKeepsHistory(links, queues, m, begun, calls, sessions, made);
      hide Chains, InOrder, CalledInOrder, SessionsKept, Bounded;
      links, queues := Enqueued(links, queues, m), queues[m.from := |links|];
    }

    /** The message is let through: its sender is listed, and its id, if it has one, is not known. */
    predicate Fresh(m: Message)
      reads this`seen
    {
      m.from in allowed && !(Id(m).Some? && Id(m).value in seen)
    }

    /** `handle`, up to its first await: an unlisted sender and a known id change nothing. */
    method Handle(m: Message)
      requires Valid()
      modifies this
      ensures Valid() && calls == old(calls) && begun == old(begun) && sessions == old(sessions) && made == old(made) && frozenLogged == old(frozenLogged)
      ensures !old(Fresh(m)) ==> unchanged(this)
      ensures old(Fresh(m)) ==> links == Enqueued(old(links), old(queues), m) && queues == old(queues)[m.from := |old(links)|]
      ensures old(Fresh(m)) ==> seen == if Id(m).Some? then Remembered(old(seen), Id(m).value) else old(seen)
      ensures old(Fresh(m)) && Id(m).Some? ==> Id(m).value in seen
      ensures forall x :: x in old(seen) && x !in seen ==> Outlived(x)
    {
      hide Chains, InOrder, CalledInOrder, SessionsKept, Numbered, Remembered;
      if m.from !in allowed { return; }
      if Id(m).Some? {
        if Id(m).value in seen { return; }
        RememberSeen(Id(m).value);
      }
      hide *;
      Enqueue(m);
    }

    /** A run gets its turn: with a usable session the agent runs it, and else is asked for a session. */
    method Begin(i: nat)
      requires Valid() && CanBegin(links, i)
      modifies this`links, this`begun, this`calls
      ensures Valid() && begun == old(begun) + [i]
      ensures var s := SessionOf(sessions, old(links)[i].From());
        && links == Moved(old(links), i, if Falsy(s) then Creating else Running)
        && calls == old(calls) + [if Falsy(s) then CreateSession(i) else RunToCompletion(i, s)]
    {
      var s := SessionOf(sessions, links[i].From());
      var phase := if Falsy(s) then Creating else Running;
      ghost var call := if Falsy(s) then CreateSession(i) else RunToCompletion(i, s);
      MovedKeeps(links, queues, i, phase);
      BeginKeepsOrder(links, queues, begun, i, phase);
      CallAdded(links, queues, calls, i, phase, call);
      MoveKeepsSessions(links, sessions, made, i, phase);
      hide Chains, InOrder, CalledInOrder, SessionsKept, Bounded;
      begun, calls := begun + [i], calls + [call];
      links := Moved(links, i, phase);
    }

    /** The run settles; if it threw, its message may come again. */
    method Finish(i: nat, threw: bool)
      requires Valid() && i < |links| && links[i].Active()
      modifies this`links, this`seen
      ensures Valid() && links == Moved(old(links), i, Settled)
      ensures forall x :: x in old(seen) && x !in seen <==> threw && x in old(seen) && Id(old(links)[i].message) == Some(x)
      ensures forall x :: x in seen ==> x in old(seen)
    {
      var m := links[i].message;
      Go(i, Settled);
      if threw && Id(m).Some? {
        WithoutKeeps(seen, at, inserted, Id(m).value);
        hide Chains, InOrder, CalledInOrder, SessionsKept, Numbered, Without;
        seen := Without(seen, Id(m).value);
      }
    }

    /** A run that has begun goes on to wait for something else, or settles. */
    method Go(i: nat, phase: Phase)
      requires Valid() && i < |links| && links[i].Active() && phase in {Replying, Settled}
      modifies this`links
      ensures Valid() && links == Moved(old(links), i, phase)
    {
      ActiveIsFree(links, queues, i);
      MovedKeeps(links, queues, i, phase);
      MoveKeepsOrder(links, begun, i, phase);
      MoveKeepsCalls(links, calls, i, phase);
      MoveKeepsSessions(links, sessions, made, i, phase);
      hide Chains, InOrder, CalledInOrder, SessionsKept, Bounded;
      links := Moved(links, i, phase);
    }

    /** `createSession` settles: with any answer the run is asked for, and a refusal makes the processing throw. */
    method SessionSettled(i: nat, session: Option<SessionId>)
      requires Valid() && i < |links| && links[i].phase.Creating?
      modifies this
      ensures Valid() && queues == old(queues) && frozenLogged == old(frozenLogged) && inserted == old(inserted) && at == old(at) && begun == old(begun)
      ensures session.Some? ==> seen == old(seen) && links == Moved(old(links), i, Running)
      ensures session.Some? ==> sessions == old(sessions)[old(links)[i].From() := session.value]
      ensures session.Some? ==> calls == old(calls) + [RunToCompletion(i, session.value)]
      ensures session.Some? ==> made == old(made)[old(links)[i].From() := MadeFor(old(made), old(links)[i].From()) + [session.value]]
      ensures session.None? ==> links == Moved(old(links), i, Settled) && sessions == old(sessions) && calls == old(calls) && made == old(made)
      ensures forall x :: x in old(seen) && x !in seen <==> session.None? && x in old(seen) && Id(old(links)[i].message) == Some(x)
      ensures forall x :: x in seen ==> x in old(seen)
    {
      if session.None? {
        Finish(i, true);
        return;
      }
      var npub := links[i].From();
      ActiveIsFree(links, queues, i);
      MovedKeeps(links, queues, i, Running);
      MoveKeepsOrder(links, begun, i, Running);
      CallAdded(links, queues, calls, i, Running, RunToCompletion(i, session.value));
      SessionMade(links, queues, sessions, made, i, session.value);
      hide Chains, InOrder, CalledInOrder, SessionsKept, Bounded;
      calls := calls + [RunToCompletion(i, session.value)];
      made := made[npub := MadeFor(made, npub) + [session.value]];
      sessions := sessions[npub := session.value];
      links := Moved(links, i, Running);
    }

    /** `runToCompletion` settles: a run that ended goes on to its reply, whatever its end, unless its text is no string;
        after that, as after a throw, its message may come again. */
    method RunSettled(i: nat, end: RunEnd)
      requires Valid() && i < |links| && links[i].phase.Running?
      modifies this`links, this`seen
      ensures Valid() && links == Moved(old(links), i, if end.Answerable? then Replying else Settled)
      ensures forall x :: x in old(seen) && x !in seen <==> !end.Answerable? && x in old(seen) && Id(old(links)[i].message) == Some(x)
      ensures forall x :: x in seen ==> x in old(seen)
    {
      if end.Answerable? { Go(i, Replying); } else { Finish(i, true); }
    }

    /** The reply was sent or failed: either way the processing does not throw. */
    method Replied(i: nat)
      requires Valid() && i < |links| && links[i].phase.Replying?
      modifies this`links, this`seen
      ensures Valid() && links == Moved(old(links), i, Settled)
      ensures forall x :: x in seen <==> x in old(seen)
    {
      Finish(i, false);
    }

    /** One row of `pollOnce`: handed on if it may be, and otherwise nothing but logged. */
    method PollRow(m: Message, o: Options)
      requires Valid()
      modifies this
      ensures Valid() && calls == old(calls) && begun == old(begun) && sessions == old(sessions) && made == old(made)
      ensures Dispatched(o, m) && old(Fresh(m)) ==> links == Enqueued(old(links), old(queues), m) && queues == old(queues)[m.from := |old(links)|]
      ensures Dispatched(o, m) && old(Fresh(m)) ==> seen == if Id(m).Some? then Remembered(old(seen), Id(m).value) else old(seen)
      ensures !(Dispatched(o, m) && old(Fresh(m))) ==> links == old(links) && queues == old(queues) && seen == old(seen)
      ensures m.from == "" || !o.dispatchEnabled || !(m.from in allowed) ==> links == old(links) && seen == old(seen)
      ensures o.dispatchSince.Some? && m.createdAt.Some? && m.createdAt.value < o.dispatchSince.value ==> links == old(links) && seen == old(seen)
      ensures m.from != "" && o.dispatchEnabled && m.from in allowed && (m.eventId.None? || m.eventId == Some("") || m.eventId.value !in old(seen))
              && (o.dispatchSince.None? || m.createdAt.None? || m.createdAt.value >= o.dispatchSince.value) ==>
        |links| == |old(links)| + 1 && links[|old(links)|].message == m
      ensures forall x :: x in old(seen) && x !in seen ==> Outlived(x)
    {
      hide Remembered, Valid;
      if m.from == "" { return; }
      if !o.dispatchEnabled {
        if m.from !in allowed {
          Handle(m);
          return;
        }
        var _ := LogFrozen(if m.eventId.Some? then m.eventId.value else m.from + ":" + m.content);
        return;
      }
      if o.dispatchSince.Some? && m.createdAt.Some? && m.createdAt.value < o.dispatchSince.value { return; }
      Handle(m);
    }

    /** A skipped message is logged exactly if it is not remembered to be; the memory of that drops the oldest beyond the cap. */
    method LogFrozen(key: string) returns (logged: bool)
      requires Valid()
      modifies this`frozenLogged
      ensures Valid() && key in frozenLogged
      ensures logged <==> key !in old(frozenLogged)
      ensures frozenLogged ==
        if !logged then old(frozenLogged) else if |old(frozenLogged)| < MAX_SEEN then old(frozenLogged) + [key] else (old(frozenLogged) + [key])[1..]
    {
      logged := key !in frozenLogged;
      if logged {
        frozenLogged := frozenLogged + [key];
        if |frozenLogged| > MAX_SEEN { frozenLogged := frozenLogged[1..]; }
        assert frozenLogged[|frozenLogged| - 1] == key;
      }
    }

    /** One event; one that nothing waits for does nothing. */
    method Step(e: Event)
      requires Valid()
      modifies this
      ensures Valid() && Came(e, old(links), links)
      ensures links == LinksAfter(e, old(links), old(queues), old(sessions), e.Row? && old(Fresh(e.message)))
      ensures e.Row? ==> forall x :: x in old(seen) && x !in seen ==> Outlived(x)
      ensures !e.Row? ==> forall x :: x in seen <==> x in old(seen) && !Throws(e, old(links), x)
      ensures e.Row? ==> seen == if Dispatched(e.options, e.message) && old(Fresh(e.message)) && Id(e.message).Some?
                                 then Remembered(old(seen), Id(e.message).value) else old(seen)
      ensures calls == old(calls) + Asks(e, old(links), old(sessions)) && MayAsk(e, Asks(e, old(links), old(sessions)))
      ensures begun == old(begun) + if Begins(e, old(links)) then [e.link] else []
      ensures if Brings(e, old(links)) then var npub := old(links)[e.link].From();
          sessions == old(sessions)[npub := e.session.value] && made == old(made)[npub := MadeFor(old(made), npub) + [e.session.value]]
        else sessions == old(sessions) && made == old(made)
    {
      hide Valid, Remembered, Outlived;
      match e {
        case Row(m, o) => PollRow(m, o);
        case Turn(i) => if CanBegin(links, i) { Begin(i); }
        case SessionCame(i, session) => if InPhase(links, i, Creating) { SessionSettled(i, session); }
        case RunCame(i, end) => if InPhase(links, i, Running) { RunSettled(i, end); }
        case ReplyCame(i) => if InPhase(links, i, Replying) { Replied(i); }
      }
    }

    /** Any interleaving keeps all of it, and only what some poll may hand on is ever enqueued; `asked` are the calls of each
        event, and to the history of the calls and of the runs begun just these are added. */
    method Run(events: seq<Event>) returns (ghost asked: seq<seq<Call>>)
      requires Valid()
      modifies this
      ensures Valid() && OnlyAdmitted(events, old(links), links)
      ensures Told(events, asked, old(calls), calls, old(begun), begun)
    {
      hide *;
      asked := [];
      assert events[..0] == [];
      NothingYet(events, links, calls, begun);
      for i := 0 to |events|
        invariant Valid() && OnlyAdmitted(events, old(links), links)
        invariant Told(events[..i], asked, old(calls), calls, old(begun), begun)
      {
        label before:
        ghost var cs := Asks(events[i], links, sessions);
        Step(events[i]);
        OneMoreAdmitted(events, i, old(links), old@before(links), links);
        TurnAsks(events[i], old@before(links), old@before(sessions));
        ToldOn(events[..i], asked, events[i], cs, old(calls), old@before(calls), old(begun), old@before(begun));
        assert events[..i + 1] == events[..i] + [events[i]];
        asked := asked + [cs];
      }
      assert events[..|events|] == events;
    }
  }

  lemma EnqueuedKeepsHistory(links: seq<Link>, queues: map<Npub, nat>, m: Message, begun: seq<nat>, calls: seq<Call>,
                             sessions: map<Npub, SessionId>, made: map<Npub, seq<SessionId>>)
    requires InOrder(links, begun) && CalledInOrder(links, calls) && SessionsKept(links, sessions, made)
    ensures InOrder(Enqueued(links, queues, m), begun) && CalledInOrder(Enqueued(links, queues, m), calls)
    ensures SessionsKept(Enqueued(links, queues, m), sessions, made)
  {
  }

  /** A bridge after the first message of a sender: it was run in a session made for it, and answered if it could be. */
  method FirstRun(m: Message, session: SessionId, end: RunEnd) returns (bridge: InboundBridge)
    ensures fresh(bridge) && bridge.Valid() && bridge.allowed == {m.from}
    ensures bridge.links == [Link(m, None, Settled)] && bridge.queues == map[m.from := 0] && bridge.sessions == map[m.from := session]
    ensures bridge.calls == [CreateSession(0), RunToCompletion(0, session)]
    ensures forall x :: x in bridge.seen <==> end.Answerable? && Id(m) == Some(x)
  {
    bridge := new InboundBridge({m.from});
    hide Chains, InOrder, CalledInOrder, SessionsKept, Bounded, InboundBridge.Valid, Without;
    bridge.Handle(m);
    assert bridge.links == [Link(m, None, Waiting)];
    bridge.Begin(0);
    bridge.SessionSettled(0, Some(session));
    bridge.RunSettled(0, end);
    if end.Answerable? { bridge.Replied(0); }
  }

  /** Where the first session comes back without a usable id the next message has the agent asked for another. */
  method AskedTwice(first: Message, second: Message, session: SessionId) returns (bridge: InboundBridge)
    requires first.from == second.from && (session == None || session == Some(""))
    requires first.eventId in {None, Some("")} || first.eventId != second.eventId
    ensures fresh(bridge) && bridge.Valid()
    ensures bridge.calls == [CreateSession(0), RunToCompletion(0, session), CreateSession(1)]
  {
    bridge := FirstRun(first, session, Answerable);
    hide InboundBridge.Valid, Remembered;
    bridge.Handle(second);
    bridge.Begin(1);
  }

  /** A completed run whose text is no string is not answered and its message forgotten: at the next poll it is run again. */
  method RunTwice(m: Message, session: SessionId) returns (bridge: InboundBridge)
    requires m.eventId.Some? && m.eventId.value != "" && session.Some? && session.value != ""
    ensures fresh(bridge) && bridge.Valid()
    ensures bridge.calls == [CreateSession(0), RunToCompletion(0, session), RunToCompletion(1, session)]
  {
    bridge := FirstRun(m, session, Unreadable);
    hide InboundBridge.Valid, Remembered;
    bridge.Handle(m);
    bridge.Begin(1);
  }
}
