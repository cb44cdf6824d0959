/**
  The container manager of `packages/node-daemon/src/boxlite-service.ts`:
  starts that wait for their box to come up, stops, and a shutdown that may
  come at any time.

  Every method is the code up to the next await; any order of calls is an
  interleaving.  Each start is a record of its own, whatever its module; a box
  counts as told to stop once its `stop` was called.
*/
module ServiceManager {
  import opened Prelude

  const PORT_MIN := 18000
  const PORT_MAX := 18999

  type ModuleId = string

  /** A box, by the order in which it was constructed. */
  type Box = nat

  /** What a container config has for `startCmd`: none to run, a list, or something else with a length. */
  datatype Command = NoCommand | List | NoList

  /** What of a container config decides how a start goes: its command, and
      whether its health path makes an address a request can be made of. */
  datatype Config = Config(command: Command, address: bool)

  /** What a caller can see of a config: no step of a start throws for it. */
  predicate Wellformed(c: Config) { !c.command.NoList? && c.address }

  /** What a start waits for: its command to be run, its health, the end of its promise, or nothing any more. */
  datatype Phase = Executing(box: Box, port: int, config: Config) | Checking(box: Box, port: int, config: Config) | Answered | Over {
    predicate InFlight() { Executing? || Checking? }
  }

  /** A start that was begun, by `doStartService`. */
  datatype Start = Start(id: ModuleId, phase: Phase)

  /** How the synchronous part of a start goes. */
  datatype Attempt = Unavailable | Throws | Builds(config: Config)

  /** What `startService` answers: a port, the promise of a start that was begun before, or that of a new one. */
  datatype StartResult = Running(port: int) | Shared(start: nat) | Begun(start: nat)

  /** What may happen between two awaits. */
  datatype Event =
    | Starts(id: ModuleId, attempt: Attempt)
    | CommandCame(start: nat, ok: bool)
    | HealthCame(start: nat, healthy: bool)
    | PromiseOver(start: nat)
    | Stops(id: ModuleId)
    | StopsAll

  datatype Entry = Entry(hostPort: int, box: Box)

  // --------------------------------------------------------------- the history

  /** What happened to boxes: one was built, the start of one threw, everything there was told to stop. */
  datatype Fact = Built(box: Box, id: ModuleId, config: Config) | Threw(box: Box) | StoppedAll

  /** The box was built for this module, and everything was not told to stop since. */
  ghost predicate BuiltAt(log: seq<Fact>, box: Box, id: ModuleId, a: nat) {
    a < |log| && log[a].Built? && log[a].box == box && log[a].id == id
  }

  ghost predicate NoStop(log: seq<Fact>, lo: nat, hi: nat)
    requires hi <= |log|
  {
    forall k :: lo <= k < hi ==> !log[k].StoppedAll?
  }

  ghost predicate Flown(log: seq<Fact>, box: Box, id: ModuleId) {
    exists a: nat :: BuiltAt(log, box, id, a) && NoStop(log, a, |log|)
  }

  /** Its start threw, and everything was not told to stop since it was built. */
  ghost predicate Stray(log: seq<Fact>, box: Box, id: ModuleId) {
    exists a: nat, t: nat :: BuiltAt(log, box, id, a) && a < t < |log| && log[t] == Threw(box) && NoStop(log, a, |log|)
  }

  /** Its start threw, and a later start of its module built a box before everything was told to stop. */
  ghost predicate Lost(log: seq<Fact>, box: Box) {
    exists a: nat, t: nat, u: nat ::
      && a < t < u < |log| && log[a].Built? && log[a].box == box && log[t] == Threw(box)
      && log[u].Built? && log[u].id == log[a].id && NoStop(log, a, u)
  }

  lemma NoStopIn(log: seq<Fact>, f: Fact, lo: nat, hi: nat)
    requires hi <= |log|
    ensures NoStop(log + [f], lo, hi) <==> NoStop(log, lo, hi)
  {
    assert forall k :: lo <= k < hi ==> (log + [f])[k] == log[k];
    assert forall k :: lo <= k < hi ==> log[k] == (log + [f])[k];
  }

  lemma FlownOn(log: seq<Fact>, f: Fact, box: Box, id: ModuleId)
    ensures Flown(log + [f], box, id) <==> !f.StoppedAll? && (Flown(log, box, id) || (f.Built? && f.box == box && f.id == id))
  {
    var more, n := log + [f], |log|;
    if Flown(more, box, id) {
      var a: nat :| BuiltAt(more, box, id, a) && NoStop(more, a, |more|);
      assert !more[n].StoppedAll?;
      if a < n {
        NoStopIn(log, f, a, n);
        assert BuiltAt(log, box, id, a) && NoStop(log, a, n);
      }
    }
    if !f.StoppedAll? && Flown(log, box, id) {
      var a: nat :| BuiltAt(log, box, id, a) && NoStop(log, a, n);
      assert BuiltAt(more, box, id, a) && NoStop(more, a, |more|);
    }
    if f.Built? && f.box == box && f.id == id { assert BuiltAt(more, box, id, n) && NoStop(more, n, |more|); }
  }

  lemma StrayOn(log: seq<Fact>, f: Fact, box: Box, id: ModuleId)
    ensures Stray(log + [f], box, id) <==> !f.StoppedAll? && (Stray(log, box, id) || (f == Threw(box) && Flown(log, box, id)))
  {
    var more, n := log + [f], |log|;
    if Stray(more, box, id) {
      var a: nat, t: nat :| BuiltAt(more, box, id, a) && a < t < |more| && more[t] == Threw(box) && NoStop(more, a, |more|);
      NoStopIn(log, f, a, n);
      assert !more[n].StoppedAll? && BuiltAt(log, box, id, a) && NoStop(log, a, n);
      if t < n { assert log[t] == Threw(box); }
    }
    if !f.StoppedAll? && Stray(log, box, id) {
      var a: nat, t: nat :| BuiltAt(log, box, id, a) && a < t < n && log[t] == Threw(box) && NoStop(log, a, n);
      assert BuiltAt(more, box, id, a) && more[t] == Threw(box) && NoStop(more, a, |more|);
    }
    if f == Threw(box) && Flown(log, box, id) {
      var a: nat :| BuiltAt(log, box, id, a) && NoStop(log, a, n);
      assert BuiltAt(more, box, id, a) && more[n] == Threw(box) && NoStop(more, a, |more|);
    }
  }

  lemma LostOn(log: seq<Fact>, f: Fact, box: Box)
    ensures Lost(log + [f], box) <==> Lost(log, box) || (f.Built? && Stray(log, box, f.id))
  {
    LostBefore(log, f, box);
    LostStill(log, f, box);
    LostNow(log, f, box);
    hide Lost, Stray;
  }

  lemma LostBefore(log: seq<Fact>, f: Fact, box: Box)
    ensures Lost(log + [f], box) ==> Lost(log, box) || (f.Built? && Stray(log, box, f.id))
  {
    var more, n := log + [f], |log|;
    if Lost(more, box) {
      var a: nat, t: nat, u: nat :| a < t < u < |more| && more[a].Built? && more[a].box == box && more[t] == Threw(box)
        && more[u].Built? && more[u].id == more[a].id && NoStop(more, a, u);
      NoStopIn(log, f, a, u);
      assert log[a] == more[a] && log[t] == more[t] && NoStop(log, a, u);
      hide NoStop;
      if u < n { assert log[u] == more[u]; } else { assert BuiltAt(log, box, f.id, a); }
    }
  }

  lemma LostStill(log: seq<Fact>, f: Fact, box: Box)
    ensures Lost(log, box) ==> Lost(log + [f], box)
  {
    var more := log + [f];
    if Lost(log, box) {
      var a: nat, t: nat, u: nat :| a < t < u < |log| && log[a].Built? && log[a].box == box && log[t] == Threw(box)
        && log[u].Built? && log[u].id == log[a].id && NoStop(log, a, u);
      NoStopIn(log, f, a, u);
      hide NoStop;
      assert more[a] == log[a] && more[t] == log[t] && more[u] == log[u] && NoStop(more, a, u);
    }
  }

  lemma LostNow(log: seq<Fact>, f: Fact, box: Box)
    ensures f.Built? && Stray(log, box, f.id) ==> Lost(log + [f], box)
  {
    var more, n := log + [f], |log|;
    if f.Built? && Stray(log, box, f.id) {
      var a: nat, t: nat :| BuiltAt(log, box, f.id, a) && a < t < n && log[t] == Threw(box) && NoStop(log, a, n);
      NoStopIn(log, f, a, n);
      hide NoStop;
      assert more[a] == log[a] && more[t] == log[t] && more[n] == f && NoStop(more, a, n);
    }
  }

  // ----------------------------------------------------------- the invariants

  ghost predicate PortsGiven(next: int, ports: seq<int>) {
    && PORT_MIN <= next <= PORT_MAX + 1 && |ports| == next - PORT_MIN
    && (forall k :: 0 <= k < |ports| ==> ports[k] == PORT_MIN + k)
  }

  /** The manager at a moment: its fields, the module and the port each box was built for, the boxes told to stop, and the history. */
  datatype State = State(starts: seq<Start>, starting: map<ModuleId, nat>, pending: map<ModuleId, Box>, registry: map<ModuleId, Entry>,
                         next: int, owner: seq<ModuleId>, on: seq<int>, told: set<Box>, log: seq<Fact>) {
    /** The box of the module is tracked. */
    ghost predicate Tracks(box: Box) { box < |owner| && owner[box] in pending && pending[owner[box]] == box }

    ghost predicate Registers(box: Box) { box < |owner| && owner[box] in registry && registry[owner[box]].box == box }

    /** Neither tracked, registered nor told to stop: nothing will ever tell it. */
    ghost predicate Gone(box: Box) { box < |owner| && box !in told && !Tracks(box) && !Registers(box) }

    /** A start of the module is bringing up a box. */
    ghost predicate Up(id: ModuleId) { id in starting && starting[id] < |starts| && starts[starting[id]].phase.InFlight() }

    /** A start in flight brings up a box of its module that is tracked or told to stop, on a port that was given out. */
    ghost predicate Flying(s: Start)
      requires s.phase.InFlight()
    {
      && s.phase.box < |owner| && owner[s.phase.box] == s.id && s.id !in registry
      && (s.phase.box in told || Tracks(s.phase.box))
      && s.phase.box < |on| && s.phase.port == on[s.phase.box]
      && (s.phase.box !in told <==> Flown(log, s.phase.box, s.id))
      && (forall a :: 0 <= a < |log| && log[a].Built? && log[a].box == s.phase.box ==> log[a].config == s.phase.config)
    }

    /** A tracked box is that of the start in flight, or its start threw. */
    ghost predicate Held(id: ModuleId)
      requires id in pending
    {
      && pending[id] < |owner| && owner[pending[id]] == id && pending[id] !in told && id !in registry
      && (if Up(id) then starts[starting[id]].phase.box == pending[id] else Stray(log, pending[id], id))
    }

    /** `starting` leads to every start whose promise is not over, and to nothing else. */
    ghost predicate Guarded() {
      && (forall i :: 0 <= i < |starts| && !starts[i].phase.Over? ==> starts[i].id in starting && starting[starts[i].id] == i)
      && (forall id :: id in starting ==> starting[id] < |starts| && starts[starting[id]].id == id && !starts[starting[id]].phase.Over?)
    }

    ghost predicate Kept() {
      && (forall i :: 0 <= i < |starts| && starts[i].phase.InFlight() ==> Flying(starts[i]))
      && (forall id :: id in pending ==> Held(id))
      && (forall id :: id in registry ==> registry[id].box < |owner| && owner[registry[id].box] == id && registry[id].box < |on| && registry[id].hostPort == on[registry[id].box])
      && (forall box: Box :: box in told ==> box < |owner|)
    }

    /** The boxes that are gone are exactly those the history has as lost. */
    ghost predicate Recorded() {
      && (forall box: Box, id :: Flown(log, box, id) ==> box < |owner| && owner[box] == id)
      && (forall box: Box, id :: Stray(log, box, id) ==> box < |owner| && owner[box] == id && (Gone(box) || (Tracks(box) && !Up(id))))
      && (forall box: Box :: Gone(box) <==> Lost(log, box))
    }

    /** Only a start with a config that is not well formed ever threw. */
    ghost predicate Blamed() {
      && (forall k :: 0 <= k < |log| && !log[k].StoppedAll? ==> log[k].box < |owner|)
      && (forall a :: 0 <= a < |log| && log[a].Built? ==> owner[log[a].box] == log[a].id)
      && (forall t, a :: 0 <= t < |log| && 0 <= a < |log| && log[t].Threw? && log[a].Built? && log[a].box == log[t].box ==> !Wellformed(log[a].config))
    }

    /** The port was given out after those of all boxes there are. */
    predicate NewPort(port: int) { PORT_MIN <= port < next && forall box: Box :: box < |on| ==> on[box] < port }

    /** Every box has a port of its own, of those that were given out. */
    ghost predicate Ported() {
      && |on| == |owner|
      && (forall box: Box :: box < |on| ==> PORT_MIN <= on[box] < next)
      && (forall a: Box, b: Box :: a < b < |on| ==> on[a] < on[b])
    }

    ghost predicate Sound() { Guarded() && Kept() && Recorded() && Blamed() && Ported() }

    function AfterMove(i: nat, phase: Phase): State
      requires i < |starts|
    {
      this.(starts := starts[i := starts[i].(phase := phase)])
    }

    function AfterBegin(s: Start): State {
      this.(starts := starts + [s], starting := starting[s.id := |starts|])
    }

    /** The state after a box was built for a start. */
    function AfterBuild(s: Start): State
      requires s.phase.InFlight()
    {
      AfterBegin(s).(owner := owner + [s.id], on := on + [s.phase.port], pending := pending[s.id := s.phase.box], log := log + [Fact.Built(s.phase.box, s.id, s.phase.config)])
    }

    function AfterGivingUp(i: nat): State
      requires i < |starts| && starts[i].phase.InFlight()
    {
      AfterMove(i, Answered).(pending := pending - {starts[i].id}, told := told + {starts[i].phase.box})
    }

    function AfterEntry(i: nat): State
      requires i < |starts| && starts[i].phase.InFlight()
    {
      var s := starts[i];
      AfterMove(i, Answered).(pending := pending - {s.id}, registry := registry[s.id := Entry(s.phase.port, s.phase.box)])
    }

    function AfterThrow(i: nat): State
      requires i < |starts| && starts[i].phase.InFlight()
    {
      AfterMove(i, Answered).(log := log + [Threw(starts[i].phase.box)])
    }

    function AfterEnd(i: nat): State
      requires i < |starts|
    {
      AfterMove(i, Over).(starting := starting - {starts[i].id})
    }

    function AfterStop(id: ModuleId): State
      requires id in registry
    {
      this.(registry := registry - {id}, told := told + {registry[id].box})
    }

    /** The state after `doStartService`, up to where it first waits or ends. */
    function AfterStarting(id: ModuleId, attempt: Attempt): State {
      if attempt.Unavailable? || next > PORT_MAX then AfterBegin(Start(id, Answered))
      else if attempt.Throws? then this.(next := next + 1).AfterBegin(Start(id, Answered))
      else
        var built := this.(next := next + 1).AfterBuild(Start(id, FirstPhase(attempt.config, next, |owner|)));
        if attempt.config.command.NoList? then built.AfterThrow(|starts|) else built
    }

    ghost function AfterStopAll(): State {
      this.(pending := map[], registry := map[], told := told + pending.Values + BoxesOf(registry), log := log + [StoppedAll])
    }
  }

  /** No module has two starts whose promises are not over. */
  lemma OneInFlight(x: State, i: nat, j: nat)
    requires x.Guarded() && i < |x.starts| && j < |x.starts|
    requires x.starts[i].id == x.starts[j].id && !x.starts[i].phase.Over? && !x.starts[j].phase.Over?
    ensures i == j
  {
    assert x.starting[x.starts[i].id] == i;
  }

  /** A registered module has the port its own box was built on, and no two have the same. */
  lemma PortsOfTheirOwn(x: State, id: ModuleId, other: ModuleId)
    requires x.Sound() && id in x.registry && other in x.registry
    ensures var box := x.registry[id].box; box < |x.owner| && x.owner[box] == id && box < |x.on| && x.registry[id].hostPort == x.on[box]
    ensures x.registry[id].hostPort == x.registry[other].hostPort ==> id == other
  {
    var a, b := x.registry[id].box, x.registry[other].box;
    assert a != b ==> x.on[a] < x.on[b] || x.on[b] < x.on[a];
  }

  function BeginPhase(config: Config, port: int, box: Box): Phase {
    match config.command
    case NoCommand => Checking(box, port, config)
    case List => Executing(box, port, config)
    case NoList => Answered
  }

  /** What a start begins with, once a box is built for it: the next port, and its command, its health or nothing to wait for. */
  lemma BeginsWith(x: State, id: ModuleId, config: Config)
    requires x.next <= PORT_MAX && |x.on| == |x.owner|
    ensures var y, box := x.AfterStarting(id, Builds(config)), |x.owner|;
      && |y.starts| == |x.starts| + 1 && id in y.starting && y.starting[id] == |x.starts| && id in y.pending && y.pending[id] == box
      && y.owner == x.owner + [id] && y.on == x.on + [x.next] && y.next == x.next + 1
      && y.starts[|x.starts|].id == id
      && y.starts[|x.starts|].phase == BeginPhase(config, x.next, box)
  {
  }

  lemma PortIsNew(x: State)
    requires x.Sound()
    ensures x.(next := x.next + 1).NewPort(x.next) || x.next < PORT_MIN
  {
  }

  /** Every box of the module was built from a well-formed config. */
  ghost predicate Careful(log: seq<Fact>, id: ModuleId) {
    forall a :: 0 <= a < |log| && log[a].Built? && log[a].id == id ==> Wellformed(log[a].config)
  }

  /** No box of a module is lost all of whose starts had a well-formed config. */
  lemma WellformedIsKept(x: State, box: Box)
    requires x.Sound() && box < |x.owner| && Careful(x.log, x.owner[box])
    ensures !x.Gone(box) && !Lost(x.log, box)
  {
  }

  // --------------------------------------------------------- what steps keep

  lemma BeginKeeps(x: State, id: ModuleId)
    requires x.Sound() && id !in x.registry && id !in x.starting
    ensures x.AfterBegin(Start(id, Answered)).Sound()
  {
    hide Flown, Stray, Lost, NoStop, BuiltAt;
    var y := x.AfterBegin(Start(id, Answered));
    assert forall other :: y.Up(other) == x.Up(other);
    SameBoxes(x, y);
  }

  /** Where no start in flight is added or changed and no box, nothing that is kept changes. */
  lemma SameBoxes(x: State, y: State)
    requires x.Sound() && y.Guarded()
    requires y.pending == x.pending && y.registry == x.registry && y.owner == x.owner && y.on == x.on && y.told == x.told && y.log == x.log && x.next <= y.next
    requires forall id :: y.Up(id) == x.Up(id) && (x.Up(id) ==> y.starts[y.starting[id]].phase.box == x.starts[x.starting[id]].phase.box)
    requires forall i :: 0 <= i < |y.starts| && y.starts[i].phase.InFlight() ==> x.Flying(y.starts[i])
    ensures y.Sound()
  {
    hide Flown, Stray, Lost, NoStop, BuiltAt;
    forall i | 0 <= i < |y.starts| && y.starts[i].phase.InFlight() ensures y.Flying(y.starts[i]) {
      assert x.Flying(y.starts[i]);
    }
    forall id | id in y.pending ensures y.Held(id) {
      assert x.Held(id);
    }
    forall box: Box ensures y.Gone(box) == x.Gone(box) && y.Tracks(box) == x.Tracks(box) {
    }
  }

  lemma PortKeeps(x: State)
    requires x.Sound()
    ensures x.(next := x.next + 1).Sound()
  {
    hide Flown, Stray, Lost, NoStop, BuiltAt;
    var y := x.(next := x.next + 1);
    assert forall id :: y.Up(id) == x.Up(id);
    SameBoxes(x, y);
  }

  lemma CommandKeeps(x: State, i: nat)
    requires x.Sound() && i < |x.starts| && x.starts[i].phase.Executing?
    ensures var p := x.starts[i].phase; x.AfterMove(i, Checking(p.box, p.port, p.config)).Sound()
  {
    hide Flown, Stray, Lost, NoStop, BuiltAt;
    var p := x.starts[i].phase;
    var y := x.AfterMove(i, Checking(p.box, p.port, p.config));
    assert x.Flying(x.starts[i]);
    forall id ensures y.Up(id) == x.Up(id) && (x.Up(id) ==> y.starts[y.starting[id]].phase.box == x.starts[x.starting[id]].phase.box) {
    }
    forall k | 0 <= k < |y.starts| && y.starts[k].phase.InFlight() ensures x.Flying(y.starts[k]) {
      assert x.Flying(x.starts[k]);
    }
    SameBoxes(x, y);
  }

  lemma EndKeeps(x: State, i: nat)
    requires x.Sound() && i < |x.starts| && x.starts[i].phase.Answered?
    ensures x.AfterEnd(i).Sound()
  {
    hide Flown, Stray, Lost, NoStop, BuiltAt;
    var y := x.AfterEnd(i);
    assert x.starting[x.starts[i].id] == i;
    assert y.Guarded();
    assert forall id :: y.Up(id) == x.Up(id);
    SameBoxes(x, y);
  }

  lemma BuildKeeps(x: State, s: Start)
    requires x.Sound() && s.id !in x.starting && s.id !in x.registry
    requires s.phase.InFlight() && s.phase.box == |x.owner| && x.NewPort(s.phase.port)
    ensures x.AfterBuild(s).Sound()
  {
    var y, f := x.AfterBuild(s), Fact.Built(s.phase.box, s.id, s.phase.config);
    assert y.log[|x.log|] == f;
    forall box: Box, id ensures Flown(y.log, box, id) <==> Flown(x.log, box, id) || (box == s.phase.box && id == s.id) { FlownOn(x.log, f, box, id); }
    forall box: Box, id ensures Stray(y.log, box, id) <==> Stray(x.log, box, id) { StrayOn(x.log, f, box, id); }
    forall box: Box ensures Lost(y.log, box) <==> Lost(x.log, box) || Stray(x.log, box, s.id) { LostOn(x.log, f, box); }
    forall box: Box, id | Stray(x.log, box, id) ensures Flown(x.log, box, id) { StrayFlown(x.log, box, id); }
    hide Flown, Stray, Lost, NoStop, BuiltAt;
    assert y.Guarded() && y.Blamed() && y.Ported();
    forall id ensures y.Up(id) <==> x.Up(id) || id == s.id { }
    BuiltKept(x, y, s);
    BuiltRecorded(x, y, s);
    hide State.Kept, State.Recorded, State.Guarded, State.Blamed, State.Ported;
  }

  lemma BuiltKept(x: State, y: State, s: Start)
    requires x.Sound() && s.id !in x.starting && s.id !in x.registry
    requires s.phase.InFlight() && s.phase.box == |x.owner| && x.NewPort(s.phase.port)
    requires y == x.AfterBuild(s) && forall id :: y.Up(id) <==> x.Up(id) || id == s.id
    requires forall box: Box, id :: Flown(y.log, box, id) <==> Flown(x.log, box, id) || (box == s.phase.box && id == s.id)
    requires forall box: Box, id :: Stray(y.log, box, id) <==> Stray(x.log, box, id)
    ensures y.Kept()
  {
    hide Flown, Stray, Lost, NoStop, BuiltAt;
    hide State.Recorded;
    forall i | 0 <= i < |y.starts| && y.starts[i].phase.InFlight() ensures y.Flying(y.starts[i]) {
      if i < |x.starts| { assert x.Flying(x.starts[i]); }
    }
    forall id | id in y.pending ensures y.Held(id) {
      if id != s.id { assert x.Held(id); }
    }
  }

  lemma BuiltRecorded(x: State, y: State, s: Start)
    requires x.Sound() && s.id !in x.starting && s.id !in x.registry
    requires s.phase.InFlight() && s.phase.box == |x.owner|
    requires y == x.AfterBuild(s) && forall id :: y.Up(id) <==> x.Up(id) || id == s.id
    requires forall box: Box, id :: Flown(y.log, box, id) <==> Flown(x.log, box, id) || (box == s.phase.box && id == s.id)
    requires forall box: Box, id :: Stray(y.log, box, id) <==> Stray(x.log, box, id)
    requires forall box: Box, id :: Stray(x.log, box, id) ==> Flown(x.log, box, id)
    requires forall box: Box :: Lost(y.log, box) <==> Lost(x.log, box) || Stray(x.log, box, s.id)
    ensures y.Recorded()
  {
    hide Flown, Stray, Lost, NoStop, BuiltAt;
    if s.id in x.pending { assert x.Held(s.id) && !x.Up(s.id); }
    assert forall box: Box :: box in x.told ==> box < |x.owner|;
    hide State.Up, State.Kept, State.Guarded, State.Held, State.Flying, State.Blamed;
    forall box: Box ensures y.Tracks(box) <==> (x.Tracks(box) && x.owner[box] != s.id) || box == |x.owner| { }
    forall box: Box ensures y.Gone(box) <==> x.Gone(box) || Stray(x.log, box, s.id) { }
  }

  lemma BuildIs(x: State, s: Start)
    requires s.phase.InFlight()
    ensures x.AfterBuild(s) == State(x.starts + [s], x.starting[s.id := |x.starts|], x.pending[s.id := s.phase.box], x.registry, x.next,
                                     x.owner + [s.id], x.on + [s.phase.port], x.told, x.log + [Fact.Built(s.phase.box, s.id, s.phase.config)])
  {
  }

  lemma StrayFlown(log: seq<Fact>, box: Box, id: ModuleId)
    requires Stray(log, box, id)
    ensures Flown(log, box, id)
  {
  }

  lemma GivingUpKeeps(x: State, i: nat)
    requires x.Sound() && i < |x.starts| && x.starts[i].phase.InFlight()
    ensures x.AfterGivingUp(i).Sound()
  {
    LandingKeeps(x, x.AfterGivingUp(i), i);
  }

  lemma EntryKeeps(x: State, i: nat)
    requires x.Sound() && i < |x.starts| && x.starts[i].phase.InFlight()
    ensures x.AfterEntry(i).Sound()
  {
    LandingKeeps(x, x.AfterEntry(i), i);
  }

  /** No other start brings up a box of the module. */
  lemma NoOther(x: State, i: nat)
    requires x.Guarded() && i < |x.starts| && x.starts[i].phase.InFlight()
    ensures x.Up(x.starts[i].id) && x.starting[x.starts[i].id] == i
    ensures forall j :: 0 <= j < |x.starts| && x.starts[j].id == x.starts[i].id && x.starts[j].phase.InFlight() ==> j == i
  {
  }

  /** The box of a start that has come to its end is told to stop, or registered. */
  lemma LandingKeeps(x: State, y: State, i: nat)
    requires x.Sound() && i < |x.starts| && x.starts[i].phase.InFlight()
    requires y == x.AfterGivingUp(i) || y == x.AfterEntry(i)
    ensures y.Sound()
  {
    NoOther(x, i);
    assert y.Guarded();
    LandedUp(x, y, i);
    LandedKept(x, y, i);
    LandedRecorded(x, y, i);
    assert y.Ported();
    hide State.Recorded, State.Kept, State.Guarded, State.Ported;
  }

  lemma LandedUp(x: State, y: State, i: nat)
    requires x.Guarded() && i < |x.starts| && x.starts[i].phase.InFlight()
    requires y == x.AfterGivingUp(i) || y == x.AfterEntry(i)
    ensures forall id :: y.Up(id) <==> x.Up(id) && id != x.starts[i].id
  {
    NoOther(x, i);
  }

  lemma LandedKept(x: State, y: State, i: nat)
    requires x.Sound() && i < |x.starts| && x.starts[i].phase.InFlight()
    requires y == x.AfterGivingUp(i) || y == x.AfterEntry(i)
    requires forall id :: y.Up(id) <==> x.Up(id) && id != x.starts[i].id
    ensures y.Kept()
  {
    hide Flown, Stray, Lost, NoStop, BuiltAt;
    hide State.Recorded, State.Blamed, State.Ported;
    LandedFlying(x, y, i);
    assert x.Flying(x.starts[i]);
    NoOther(x, i);
    hide State.Guarded, State.Flying;
    forall id | id in y.pending ensures y.Held(id) { assert x.Held(id); }
  }

  lemma LandedFlying(x: State, y: State, i: nat)
    requires x.Sound() && i < |x.starts| && x.starts[i].phase.InFlight()
    requires y == x.AfterGivingUp(i) || y == x.AfterEntry(i)
    ensures forall j :: 0 <= j < |y.starts| && y.starts[j].phase.InFlight() ==> y.Flying(y.starts[j])
  {
    hide Flown, Stray, Lost, NoStop, BuiltAt;
    hide State.Recorded, State.Blamed, State.Ported;
    NoOther(x, i);
    assert x.Flying(x.starts[i]);
    if x.starts[i].id in x.pending { assert x.Held(x.starts[i].id); }
    hide State.Guarded;
    forall j | 0 <= j < |y.starts| && y.starts[j].phase.InFlight() ensures y.Flying(y.starts[j]) { assert j != i && x.Flying(x.starts[j]); }
  }

  lemma LandedRecorded(x: State, y: State, i: nat)
    requires x.Sound() && i < |x.starts| && x.starts[i].phase.InFlight()
    requires y == x.AfterGivingUp(i) || y == x.AfterEntry(i)
    requires forall id :: y.Up(id) <==> x.Up(id) && id != x.starts[i].id
    ensures y.Recorded()
  {
    hide Flown, Stray, Lost, NoStop, BuiltAt;
    var s := x.starts[i];
    NoOther(x, i);
    assert x.Flying(s);
    assert s.phase.box < |x.owner| && x.owner[s.phase.box] == s.id && s.id !in x.registry && (s.phase.box in x.told || x.Tracks(s.phase.box));
    if s.id in x.pending { assert x.Held(s.id); }
    hide State.Guarded, State.Up, State.Kept, State.Flying, State.Held, State.Blamed;
    forall box: Box ensures y.Gone(box) == x.Gone(box) && (y.Tracks(box) <==> x.Tracks(box) && box != s.phase.box) { }
  }

  lemma ThrowKeeps(x: State, i: nat)
    requires x.Sound() && i < |x.starts| && x.starts[i].phase.InFlight() && !Wellformed(x.starts[i].phase.config)
    ensures x.AfterThrow(i).Sound()
  {
    var s, y := x.starts[i], x.AfterThrow(i);
    var f := Threw(s.phase.box);
    assert y.log[|x.log|] == f;
    forall box: Box, id ensures Flown(y.log, box, id) <==> Flown(x.log, box, id) { FlownOn(x.log, f, box, id); }
    forall box: Box, id ensures Stray(y.log, box, id) <==> Stray(x.log, box, id) || (box == s.phase.box && Flown(x.log, box, id)) { StrayOn(x.log, f, box, id); }
    forall box: Box ensures Lost(y.log, box) <==> Lost(x.log, box) { LostOn(x.log, f, box); }
    hide Flown, Stray, Lost, NoStop, BuiltAt;
    NoOther(x, i);
    assert x.Flying(s);
    assert y.Guarded() && y.Blamed() && y.Ported();
    forall id ensures y.Up(id) <==> x.Up(id) && id != s.id { }
    ThrownKept(x, y, i);
    ThrownRecorded(x, y, i);
    hide State.Kept, State.Recorded, State.Guarded, State.Blamed, State.Ported;
  }

  lemma ThrownKept(x: State, y: State, i: nat)
    requires x.Sound() && i < |x.starts| && x.starts[i].phase.InFlight()
    requires y == x.AfterThrow(i) && forall id :: y.Up(id) <==> x.Up(id) && id != x.starts[i].id
    requires y.log[|x.log|].Threw? && forall box: Box, id :: Flown(y.log, box, id) <==> Flown(x.log, box, id)
    requires forall box: Box, id :: Stray(y.log, box, id) <==> Stray(x.log, box, id) || (box == x.starts[i].phase.box && Flown(x.log, box, id))
    ensures y.Kept()
  {
    hide Flown, Stray, Lost, NoStop, BuiltAt;
    hide State.Recorded, State.Blamed, State.Ported;
    var s := x.starts[i];
    NoOther(x, i);
    assert x.Flying(s);
    if s.id in x.pending { assert x.Held(s.id); }
    hide State.Guarded;
    forall j | 0 <= j < |y.starts| && y.starts[j].phase.InFlight() ensures y.Flying(y.starts[j]) { assert j != i && x.Flying(x.starts[j]); }
    forall id | id in y.pending ensures y.Held(id) { assert x.Held(id); }
  }

  lemma ThrownRecorded(x: State, y: State, i: nat)
    requires x.Sound() && i < |x.starts| && x.starts[i].phase.InFlight()
    requires y == x.AfterThrow(i) && forall id :: y.Up(id) <==> x.Up(id) && id != x.starts[i].id
    requires forall box: Box, id :: Flown(y.log, box, id) <==> Flown(x.log, box, id)
    requires forall box: Box, id :: Stray(y.log, box, id) <==> Stray(x.log, box, id) || (box == x.starts[i].phase.box && Flown(x.log, box, id))
    requires forall box: Box :: Lost(y.log, box) <==> Lost(x.log, box)
    ensures y.Recorded()
  {
    hide Flown, Stray, Lost, NoStop, BuiltAt;
    var s := x.starts[i];
    NoOther(x, i);
    assert x.Flying(s);
    assert s.phase.box < |x.owner| && x.owner[s.phase.box] == s.id && (Flown(x.log, s.phase.box, s.id) ==> x.Tracks(s.phase.box));
    hide State.Guarded, State.Up, State.Kept, State.Flying, State.Held, State.Blamed;
    forall box: Box ensures y.Gone(box) == x.Gone(box) && y.Tracks(box) == x.Tracks(box) { }
  }

  lemma StopKeeps(x: State, id: ModuleId)
    requires x.Sound() && id in x.registry
    ensures x.AfterStop(id).Sound()
  {
    hide Flown, Stray, Lost, NoStop, BuiltAt;
    var y := x.AfterStop(id);
    forall i | 0 <= i < |y.starts| && y.starts[i].phase.InFlight() ensures y.Flying(y.starts[i]) { assert x.Flying(x.starts[i]); }
    forall other | other in y.pending ensures y.Held(other) { assert x.Held(other); }
    forall other ensures y.Up(other) == x.Up(other) { }
    forall box: Box ensures y.Gone(box) == x.Gone(box) && y.Tracks(box) == x.Tracks(box) { }
  }

  lemma StopAllKeeps(x: State)
    requires x.Sound()
    ensures x.AfterStopAll().Sound()
    ensures forall box: Box :: box < |x.owner| && !Lost(x.log, box) ==> box in x.AfterStopAll().told
  {
    hide Flown, Stray, Lost, NoStop, BuiltAt;
    var y := x.AfterStopAll();
    forall box: Box, id ensures !Flown(y.log, box, id) && !Stray(y.log, box, id) {
      FlownOn(x.log, StoppedAll, box, id);
      StrayOn(x.log, StoppedAll, box, id);
    }
    forall box: Box ensures Lost(y.log, box) <==> Lost(x.log, box) { LostOn(x.log, StoppedAll, box); }
    forall id | id in x.pending ensures x.pending[id] in y.told && x.pending[id] < |x.owner| { assert x.Held(id); }
    forall box: Box ensures (box in y.told <==> box in x.told || x.Tracks(box) || x.Registers(box)) {
      if box in x.pending.Values {
        var id :| id in x.pending && x.pending[id] == box;
        assert x.Held(id);
      }
    }
    forall i | 0 <= i < |y.starts| && y.starts[i].phase.InFlight() ensures y.Flying(y.starts[i]) { assert x.Flying(x.starts[i]); }
    forall box: Box ensures y.Gone(box) == x.Gone(box) { }
  }

  /** What a start that has built a box waits for first. */
  function FirstPhase(config: Config, port: int, box: Box): (phase: Phase)
    ensures phase.InFlight() && phase.box == box && phase.port == port && phase.config == config
  {
    if config.command.NoCommand? then Checking(box, port, config) else Executing(box, port, config)
  }

  class Manager {
    var nextHostPort: int
    var registry: map<ModuleId, Entry>
    var starting: map<ModuleId, nat>
    var pending: map<ModuleId, Box>
    /** The starts begun so far, each with what it waits for. */
    var starts: seq<Start>
    /** How many boxes were built. */
    var built: nat
    /** The boxes that were told to stop, and the ports that were given out. */
    ghost var told: set<Box>
    ghost var ports: seq<int>
    /** The module and the port each box was built for, and what happened. */
    ghost var owner: seq<ModuleId>
    ghost var on: seq<int>
    ghost var log: seq<Fact>

    constructor ()
      ensures Valid() && built == 0 && registry == map[] && starts == [] && starting == map[] && pending == map[] && told == {} && log == []
      ensures nextHostPort == PORT_MIN
    {
      nextHostPort, registry, starting, pending, starts := PORT_MIN, map[], map[], map[], [];
      built, told, ports, owner, on, log := 0, {}, [], [], [], [];
    }

    ghost function Now(): State
      reads this
    {
      State(starts, starting, pending, registry, nextHostPort, owner, on, told, log)
    }

    ghost predicate Valid()
      reads this
    {
      PortsGiven(nextHostPort, ports) && |owner| == built && Now().Sound()
    }

    /** Nothing a shutdown relies on is ever taken back. */
    twostate predicate Onwards()
      reads this
    {
      old(built) <= built && old(told) <= told && old(ports) <= ports && old(owner) <= owner && old(on) <= on && old(log) <= log
    }

    /** `startService`: a port, a promise that is there, or a new start. */
    method Starting(id: ModuleId, attempt: Attempt) returns (r: StartResult)
      requires Valid()
      modifies this
      ensures Valid() && Onwards()
      ensures r.Running? <==> id in old(registry)
      ensures r.Shared? <==> id !in old(registry) && id in old(starting)
      ensures r.Running? ==> r.port == old(registry)[id].hostPort
      ensures r.Running? ==> var box := old(registry)[id].box; box < |owner| && owner[box] == id && box < |on| && r.port == on[box]
      ensures r.Shared? ==> r.start == old(starting)[id]
      ensures r.Running? || r.Shared? ==> unchanged(this)
      ensures r.Begun? ==> r.start == |old(starts)| && Now() == old(Now()).AfterStarting(id, attempt)
      ensures r.Begun? && attempt.Builds? && old(nextHostPort) <= PORT_MAX ==>
        && |starts| == |old(starts)| + 1 && starts[r.start] == Start(id, BeginPhase(attempt.config, old(nextHostPort), old(built)))
        && id in starting && starting[id] == r.start && id in pending && pending[id] == old(built)
        && owner == old(owner) + [id] && on == old(on) + [old(nextHostPort)]
      ensures r.Begun? ==> built == old(built) + if attempt.Builds? && old(nextHostPort) <= PORT_MAX then 1 else 0
    {
      if id in registry {
        PortsOfTheirOwn(Now(), id, id);
        return Running(registry[id].hostPort);
      }
      if id in starting { return Shared(starting[id]); }
      if attempt.Builds? && nextHostPort <= PORT_MAX { BeginsWith(Now(), id, attempt.config); }
      hide *;
      r := Begun(|starts|);
      DoStart(id, attempt);
    }

    /** The synchronous part of `doStartService`. */
    method DoStart(id: ModuleId, attempt: Attempt)
      requires Valid() && id !in registry && id !in starting
      modifies this
      ensures Valid() && Onwards() && Now() == old(Now()).AfterStarting(id, attempt)
      ensures built == old(built) + if attempt.Builds? && old(nextHostPort) <= PORT_MAX then 1 else 0
    {
      hide State.Sound, PortsGiven;
      if attempt.Unavailable? {
        Answer(id);
        return;
      }
      PortIsNew(Now());
      var hostPort := AllocatePort();
      if hostPort.None? || attempt.Throws? {
        Answer(id);
        return;
      }
      hide State.AfterBuild, State.AfterThrow, FirstPhase;
      BuildIs(Now(), Start(id, FirstPhase(attempt.config, hostPort.value, built)));
      Build(id, hostPort.value, attempt.config);
      if attempt.config.command.NoList? { Thrown(|starts| - 1); }
    }

    /** `allocatePort`: no port is given out twice, and none beyond the pool. */
    method AllocatePort() returns (port: Option<int>)
      requires Valid()
      modifies this`nextHostPort, this`ports
      ensures Valid()
      ensures Now() == old(Now()).(next := nextHostPort)
      ensures port.None? ==> old(nextHostPort) > PORT_MAX && unchanged(this)
      ensures port.Some? ==> port.value == old(nextHostPort) <= PORT_MAX && nextHostPort == old(nextHostPort) + 1
      ensures port.Some? ==> PORT_MIN <= port.value && port.value !in old(ports) && ports == old(ports) + [port.value]
    {
      if nextHostPort > PORT_MAX { return None; }
      hide *;
      port := Some(nextHostPort);
      NextPort();
    }

    /** `nextHostPort++` */
    method NextPort()
      requires Valid() && nextHostPort <= PORT_MAX
      modifies this`nextHostPort, this`ports
      ensures Valid() && Now() == old(Now()).(next := nextHostPort) && nextHostPort == old(nextHostPort) + 1
      ensures PORT_MIN <= old(nextHostPort) && old(nextHostPort) !in old(ports) && ports == old(ports) + [old(nextHostPort)]
    {
      PortKeeps(Now());
      PortGiven(nextHostPort, ports);
      ghost var after := Now().(next := nextHostPort + 1);
      hide State.Sound, PortsGiven;
      ports := ports + [nextHostPort];
      nextHostPort := nextHostPort + 1;
      assert Now() == after;
    }

    /** A start that fails before any box is built: its promise is answered, and not yet over. */
    method Answer(id: ModuleId)
      requires Valid() && id !in registry && id !in starting
      modifies this`starts, this`starting
      ensures Valid() && Now() == old(Now()).AfterBegin(Start(id, Answered))
    {
      BeginKeeps(Now(), id);
      hide State.Sound, PortsGiven;
      starts, starting := starts + [Start(id, Answered)], starting[id := |starts|];
    }

    /** The box is built and tracked before anything is awaited, over what was tracked for its module. */
    method Build(id: ModuleId, hostPort: int, config: Config)
      requires Valid() && id !in registry && id !in starting && Now().NewPort(hostPort)
      modifies this`built, this`pending, this`starts, this`starting, this`owner, this`on, this`log
      ensures Valid() && built == old(built) + 1
      ensures Now() == old(Now()).AfterBuild(Start(id, FirstPhase(config, hostPort, old(built))))
    {
      hide State.Sound, State.AfterBuild, State.AfterBegin, State.NewPort, PortsGiven, FirstPhase;
      var s := Start(id, FirstPhase(config, hostPort, built));
      BuildKeeps(Now(), s);
      BuildIs(Now(), s);
      ghost var after := Now().AfterBuild(s);
      owner, on := owner + [id], on + [hostPort];
      pending := pending[id := built];
      log := log + [Fact.Built(built, id, config)];
      starts, starting := starts + [s], starting[id := |starts|];
      built := built + 1;
      assert Now() == after;
    }

    /** Something throws that no `try` is around: the promise is rejected, the box stays tracked, and nobody tells it. */
    method Thrown(i: nat)
      requires Valid() && i < |starts| && starts[i].phase.InFlight() && !Wellformed(starts[i].phase.config)
      modifies this`starts, this`log
      ensures Valid() && Onwards() && Now() == old(Now()).AfterThrow(i) && starts == old(starts)[i := old(starts)[i].(phase := Answered)]
    {
      ThrowKeeps(Now(), i);
      hide State.Sound, PortsGiven;
      log := log + [Threw(starts[i].phase.box)];
      starts := starts[i := starts[i].(phase := Answered)];
    }

    /** The start command was run, or it failed and the box is told to stop. */
    method Executed(i: nat, ok: bool)
      requires Valid() && i < |starts| && starts[i].phase.Executing?
      modifies this`starts, this`pending, this`told
      ensures Valid() && Onwards()
      ensures ok ==> var p := old(starts)[i].phase; Now() == old(Now()).AfterMove(i, Checking(p.box, p.port, p.config))
      ensures !ok ==> Now() == old(Now()).AfterGivingUp(i)
      ensures !ok ==> old(starts)[i].phase.box in told && old(starts)[i].id !in pending && registry == old(registry)
    {
      if ok {
        var phase := Checking(starts[i].phase.box, starts[i].phase.port, starts[i].phase.config);
        CommandKeeps(Now(), i);
        hide State.Sound, PortsGiven;
        starts := starts[i := starts[i].(phase := phase)];
      } else {
        GivenUp(i);
      }
    }

    /** A start that gives up its box: it is no longer tracked, and told to stop. */
    method GivenUp(i: nat)
      requires Valid() && i < |starts| && starts[i].phase.InFlight()
      modifies this`starts, this`pending, this`told
      ensures Valid() && Onwards() && Now() == old(Now()).AfterGivingUp(i)
      ensures old(starts)[i].phase.box in told && old(starts)[i].id !in pending && starts == old(starts)[i := old(starts)[i].(phase := Answered)]
    {
      var s := starts[i];
      GivingUpKeeps(Now(), i);
      hide State.Sound, PortsGiven;
      pending := pending - {s.id};
      told := told + {s.phase.box};
      starts := starts[i := s.(phase := Answered)];
    }

    /** The health check ended, or threw at once where there is no address to ask: the box is
        registered with its port, told to stop, or left as it is. */
    method Checked(i: nat, healthy: bool)
      requires Valid() && i < |starts| && starts[i].phase.Checking?
      modifies this`starts, this`pending, this`told, this`registry, this`log
      ensures Valid() && Onwards()
      ensures old(starts)[i].phase.config.address && healthy ==> var s := old(starts)[i];
        s.id in registry && registry[s.id] == Entry(s.phase.port, s.phase.box) && s.phase.box < |on| && on == old(on) && s.phase.port == on[s.phase.box]
      ensures old(starts)[i].phase.config.address && !healthy ==>
        old(starts)[i].phase.box in told && old(starts)[i].id !in pending && registry == old(registry)
      ensures !old(starts)[i].phase.config.address ==> pending == old(pending) && told == old(told) && registry == old(registry)
      ensures starts == old(starts)[i := old(starts)[i].(phase := Answered)]
      ensures Now() ==
        if !old(starts)[i].phase.config.address then old(Now()).AfterThrow(i) else if healthy then old(Now()).AfterEntry(i) else old(Now()).AfterGivingUp(i)
    {
      hide State.Sound, State.AfterThrow, State.AfterEntry, State.AfterGivingUp, PortsGiven;
      if !starts[i].phase.config.address {
        Thrown(i);
      } else if healthy {
        Register(i);
      } else {
        GivenUp(i);
      }
    }

    /** The box of a start is registered, with the port it was built on. */
    method Register(i: nat)
      requires Valid() && i < |starts| && starts[i].phase.Checking?
      modifies this`starts, this`pending, this`registry
      ensures Valid() && Onwards() && Now() == old(Now()).AfterEntry(i) && starts == old(starts)[i := old(starts)[i].(phase := Answered)]
      ensures var s := old(starts)[i];
        && registry == old(registry)[s.id := Entry(s.phase.port, s.phase.box)] && s.id !in pending
        && s.phase.box < |on| && s.phase.port == on[s.phase.box]
    {
      var s := starts[i];
      assert Now().Flying(s);
      EntryKeeps(Now(), i);
      hide State.Sound, PortsGiven;
      pending := pending - {s.id};
      registry := registry[s.id := Entry(s.phase.port, s.phase.box)];
      starts := starts[i := s.(phase := Answered)];
    }

    /** `finally`: the promise of a start is over, and another start of the module may begin. */
    method Finally(i: nat)
      requires Valid() && i < |starts| && starts[i].phase.Answered?
      modifies this`starts, this`starting
      ensures Valid() && Onwards() && Now() == old(Now()).AfterEnd(i) && old(starting[starts[i].id] == i)
    {
      EndKeeps(Now(), i);
      assert starting[starts[i].id] == i;
      hide State.Sound, PortsGiven;
      starting := starting - {starts[i].id};
      starts := starts[i := starts[i].(phase := Over)];
    }

    /** `stopService`: a start in flight goes on. */
    method Stop(id: ModuleId)
      requires Valid()
      modifies this`registry, this`told
      ensures Valid() && Onwards() && Now() == if id in old(registry) then old(Now()).AfterStop(id) else old(Now())
    {
      if id in registry {
        StopKeeps(Now(), id);
        hide State.Sound, PortsGiven;
        told := told + {registry[id].box};
        registry := registry - {id};
      }
    }

    /** `stopAll`: exactly the tracked and the registered boxes are told to stop, before it waits for anything;
        and so every box built until then has been told but those that are lost. */
    method StopAll()
      requires Valid()
      modifies this`pending, this`registry, this`told, this`log
      ensures Valid() && Onwards() && Now() == old(Now()).AfterStopAll()
      ensures forall box: Box :: box < built ==> (box in told <==> !Lost(log, box))
    {
      StopAllKeeps(Now());
      StopAllTells(Now());
      hide State.Sound, PortsGiven, Lost;
      TellPending();
      TellRegistered();
      log := log + [StoppedAll];
      assert Now() == old(Now()).AfterStopAll();
    }

    /** The tracked boxes are told to stop, and no longer tracked. */
    method TellPending()
      modifies this`pending, this`told
      ensures pending == map[] && told == old(told) + old(pending).Values
    {
      while pending != map[]
        invariant told + pending.Values == old(told) + old(pending).Values
        decreases |pending|
      {
        var id :| id in pending;
        OneTracked(pending, id);
        told := told + {pending[id]};
        pending := pending - {id};
      }
    }

    /** `stopService` of every registered module. */
    method TellRegistered()
      modifies this`registry, this`told
      ensures registry == map[] && told == old(told) + BoxesOf(old(registry))
    {
      while registry != map[]
        invariant told + BoxesOf(registry) == old(told) + BoxesOf(old(registry))
        decreases |registry|
      {
        var id :| id in registry;
        OneRegistered(registry, id);
        told := told + {registry[id].box};
        registry := registry - {id};
      }
    }

    /** Any interleaving keeps the invariant, and takes back nothing. */
    method Run(events: seq<Event>)
      requires Valid()
      modifies this
      ensures Valid() && Onwards()
    {
      hide Manager.Valid;
      for i := 0 to |events|
        invariant Valid() && Onwards()
      {
        match events[i] {
          case Starts(id, attempt) => var _ := Starting(id, attempt);
          case CommandCame(k, ok) => if k < |starts| && starts[k].phase.Executing? { Executed(k, ok); }
          case HealthCame(k, healthy) => if k < |starts| && starts[k].phase.Checking? { Checked(k, healthy); }
          case PromiseOver(k) => if k < |starts| && starts[k].phase.Answered? { Finally(k); }
          case Stops(id) => Stop(id);
          case StopsAll => StopAll();
        }
      }
    }

    /** Whatever state a shutdown finds and whatever happens after it: of the boxes built until
        then exactly the lost ones are not told to stop, and none of a module whose configs were well formed is lost. */
    method ShutDown(after: seq<Event>)
      requires Valid()
      modifies this
      ensures Valid() && Onwards()
      ensures forall box: Box :: box < old(built) ==> (box in told <==> !old(Lost(log, box)))
      ensures forall box: Box :: box < old(built) && old(Careful(log, owner[box])) ==> box in told
    {
      forall box: Box | box < built && Careful(log, owner[box]) ensures !Lost(log, box) { WellformedIsKept(Now(), box); }
      StopAll();
      label stopped:
      assert forall box: Box :: Lost(log, box) == old(Lost(log, box)) by {
        forall box: Box ensures Lost(log, box) == old(Lost(log, box)) { LostOn(old(log), StoppedAll, box); }
      }
      Run(after);
      forall box: Box | old@stopped(Lost(log, box)) ensures Lost(log, box) { LostStays(old@stopped(log), log, box); }
      LostIsGone(Now());
    }
  }

  function BoxesOf(registry: map<ModuleId, Entry>): set<Box> { set id | id in registry :: registry[id].box }

  lemma OneTracked(pending: map<ModuleId, Box>, id: ModuleId)
    requires id in pending
    ensures pending.Values == (pending - {id}).Values + {pending[id]} && |pending - {id}| < |pending|
  {
    assert pending == (pending - {id})[id := pending[id]];
  }

  lemma OneRegistered(registry: map<ModuleId, Entry>, id: ModuleId)
    requires id in registry
    ensures BoxesOf(registry) == BoxesOf(registry - {id}) + {registry[id].box} && |registry - {id}| < |registry|
  {
    assert registry == (registry - {id})[id := registry[id]];
  }

  lemma PortGiven(next: int, ports: seq<int>)
    requires PortsGiven(next, ports) && next <= PORT_MAX
    ensures PortsGiven(next + 1, ports + [next]) && next !in ports && next >= PORT_MIN
  {
  }

  lemma StopAllTells(x: State)
    requires x.Sound()
    ensures forall box: Box :: box < |x.owner| ==> (box in x.AfterStopAll().told <==> !Lost(x.log + [StoppedAll], box))
  {
    StopAllKeeps(x);
    forall box: Box ensures Lost(x.log + [StoppedAll], box) <==> Lost(x.log, box) { LostOn(x.log, StoppedAll, box); }
    LostIsGone(x.AfterStopAll());
    hide State.Sound, Lost;
  }

  lemma LostIsGone(x: State)
    requires x.Sound()
    ensures forall box: Box :: Lost(x.log, box) ==> box !in x.told
  {
  }

  lemma {:induction false} LostStays(log: seq<Fact>, more: seq<Fact>, box: Box)
    requires log <= more && Lost(log, box)
    ensures Lost(more, box)
    decreases |more|
  {
    if |log| < |more| {
      var init := more[..|more| - 1];
      LostStays(log, init, box);
      LostStill(init, more[|more| - 1], box);
      hide Lost;
      assert more == init + [more[|more| - 1]];
    } else {
      assert more == log;
    }
  }

  /** A module whose health path makes no address, started twice: the first box is never told to stop. */
  method FirstBoxLost(id: ModuleId, again: Config) returns (m: Manager)
    requires !again.command.NoList?
    ensures fresh(m) && m.Valid() && m.built == 2
    ensures m.pending == map[] && m.registry == map[] && m.told == {1}
  {
    m := new Manager();
    hide Manager.Valid, State.Sound, Lost;
    var first := m.Starting(id, Builds(Config(NoCommand, false)));
    m.Checked(0, true);
    m.Finally(0);
    var second := m.Starting(id, Builds(again));
    m.StopAll();
    assert m.told == {1};
  }
}
