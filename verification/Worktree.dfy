/**
  The commands of `docs/agent/mutate.py` as they act on the disk, file
  operation by file operation.  Each operation may be struck by a fault: the
  process is killed there, or the operating system refuses and the operation
  raises.  The contract of every command says what holds after it even so.
*/
module Worktree {
  import opened Prelude
  import opened Journal

  datatype Fault = Killed | OsError | Refused

  /** What a step of the tool comes to: a value, an exception on its way, or death. */
  datatype Result<+T> = Ok(value: T) | Struck(fault: Fault) {
    predicate IsFailure() { Struck? }
    function PropagateFailure<U>(): Result<U>
      requires Struck?
    {
      Struck(fault)
    }
    function Extract(): T
      requires Ok?
    {
      value
    }
  }

  /** How a process ended. */
  datatype Exit = Dead | Code(code: int)

  const REFUSED := 1
  const RESTORE_FAILED := 2
  const INTERNAL := 3
  const VOID := 20
  /** What Python makes of an exception that nothing catches, and of output it cannot flush in the end. */
  const UNCAUGHT := 1
  const UNFLUSHED := 120

  /** What the supervised tests come to, once the source is restored: a verdict, or an exception of the scaffold. */
  datatype Reading = Red | Alive | Void | TimedOut | Scaffold

  function Verdict(r: Reading): int {
    match r
    case Red => 0
    case Alive => 10
    case Void => VOID
    case TimedOut => 30
    case Scaffold => INTERNAL
  }

  datatype Command =
    | Mut(src: Path, admitted: bool, inject: Bytes -> Option<Bytes>, during: seq<Edit>, raises: bool, after: seq<Edit>, reading: Reading)
    | Baseline(green: bool)
    | Recover
    | Outside(edit: Edit)

  /** A command during which nobody edits. */
  predicate Quiet(c: Command) {
    match c
    case Mut(_, _, _, during, _, after, _) => during == [] && after == []
    case Outside(_) => false
    case _ => true
  }

  /** A command during which nobody edits while its journal is open. */
  predicate Apart(c: Command) {
    !c.Outside? && (c.Mut? ==> c.during == [])
  }

  /** A command that mutates no file outside the tree. */
  predicate Inside(root: Path, c: Command) {
    c.Mut? ==> InTree(root, c.src)
  }

  /** A signal the tool has a handler for. */
  type Signal = n: int | n in {1, 2, 3, 15} witness 1

  /** `main`: the exit code of a value or an exception. */
  function Ordinary(r: Result<int>): int {
    match r
    case Ok(code) => code
    case Struck(fault) => if fault == Refused then REFUSED else INTERNAL
  }

  /** A directory that is not empty has the name already. */
  predicate Barred(d: Disk, name: Name) { name in d.dirs && d.dirs[name] != NEW_DIR }

  /** What an undisturbed recovery comes to. */
  function Comes(root: Path, d: Disk): Result<int>
    requires Open(d) ==> Complete(d.dirs[JOURNAL])
  {
    if !Open(d) then Ok(0)
    else if !InTree(root, d.dirs[JOURNAL].meta.path) then Struck(Refused)
    else if !Ours(d) then Ok(RESTORE_FAILED)
    else if Blocked(d) then Struck(OsError)
    else Ok(0)
  }

  /** A name none of these has. */
  method FreshName(names: set<Name>) returns (name: Name)
    ensures name !in names
  {
    name := "";
    var left := names;
    while left != {}
      invariant left <= names && forall n :: n in names - left ==> |n| < |name|
      decreases |left|
    {
      var n :| n in left;
      left := left - {n};
      if |n| >= |name| { name := n + "0"; }
    }
    assert names - left == names;
  }

  /** The files after some edits. */
  function Edited(files: map<Path, Bytes>, edits: seq<Edit>): map<Path, Bytes> {
    if edits == [] then files else Changed(Edited(files, edits[..|edits| - 1]), edits[|edits| - 1])
  }

  lemma EditedMore(files: map<Path, Bytes>, edits: seq<Edit>, i: nat)
    requires i < |edits|
    ensures Edited(files, edits[..i + 1]) == Changed(Edited(files, edits[..i]), edits[i])
  {
    assert edits[..i + 1][..i] == edits[..i];
  }

  /** What a `mut` that nothing disturbs leaves in the files, and its exit code: the tests find the mutation in the file;
      if they leave something else there it stays, and otherwise the original is put back. */
  function Ends(files: map<Path, Bytes>, src: Path, mutated: Bytes, during: seq<Edit>, raises: bool, after: seq<Edit>, reading: Reading): (map<Path, Bytes>, int)
    requires src in files
  {
    var left := Edited(files[src := mutated], during);
    if src !in left || left[src] !in {files[src], mutated} then (left, RESTORE_FAILED)
    else if raises then (left[src := files[src]], INTERNAL)
    else (Edited(left[src := files[src]], after), Verdict(reading))
  }

  lemma EndsRead(files: map<Path, Bytes>, src: Path, mutated: Bytes, after: seq<Edit>, reading: Reading)
    requires src in files
    ensures Ends(files, src, mutated, [], false, after, reading).1 == Verdict(reading)
  {
  }

  /** The exit codes that are read as a result of the tests. */
  predicate Read(e: Exit) { e == Code(0) || e == Code(10) || e == Code(30) }

  /** What an exit code of a command tells of the disks before and after it, whatever struck it. */
  predicate Tells(c: Command, d: Disk, d': Disk, e: Exit) {
    match c
    case Mut(src, admitted, inject, _, _, _, reading) =>
      Read(e) ==> (e == Code(0) <==> reading == Red) && (e == Code(10) <==> reading == Alive) && (e == Code(30) <==> reading == TimedOut)
                  && !Open(d) && admitted && Mine(d.files, src, inject).Some? && (Quiet(c) ==> d'.files == d.files && !Open(d'))
    case Baseline(green) => (Read(e) ==> e == Code(0) && green && !Open(d')) && d'.files == d.files
    case Recover => e == Code(0) ==> !Open(d')
    case Outside(edit) => d' == d.(files := Changed(d.files, edit))
  }

  /** Edits as they are entered while the mutation in force, if there is one, is `mine`. */
  function Marked(edits: seq<Edit>, mine: Option<Edit>): (log: seq<Entry>)
    ensures |log| == |edits| && forall k :: 0 <= k < |log| ==> log[k] == Entry(edits[k], mine == Some(edits[k]))
  {
    seq(|edits|, k requires 0 <= k < |edits| => Entry(edits[k], mine == Some(edits[k])))
  }

  lemma MarkedMore(edits: seq<Edit>, i: nat, mine: Option<Edit>)
    requires i < |edits|
    ensures Marked(edits[..i + 1], mine) == Marked(edits[..i], mine) + [Entry(edits[i], mine == Some(edits[i]))]
  {
  }

  /** No journal directory under a temporary name is there. */
  ghost predicate NoTemporary(d: Disk) { forall n :: n in d.dirs ==> !(TMP <= n) }

  /** The journal is that of this mutation. */
  predicate OfMine(d: Disk, mine: Option<Edit>)
    requires Open(d)
  {
    var meta := d.dirs[JOURNAL].meta;
    meta.Meta? && mine.Some? && mine.value.Write? && mine.value.path == meta.path && Sha(mine.value.content) == meta.mutatedSha
  }

  /** The journal of a mutation whose file is marked as being written. */
  predicate Torn(d: Disk, src: Path, original: Bytes, mutated: Bytes) {
    Open(d) && d.dirs[JOURNAL] == Dir(Some(original), Meta(src, Sha(original), Sha(mutated)), true)
  }

  /** What a `mut` adds to the log: the edits made while its tests ran, and those after it put the original back; or only the first; or none. */
  predicate Took(was: seq<Entry>, now: seq<Entry>, during: seq<Edit>, after: seq<Edit>, mine: Option<Edit>) {
    || now == was
    || now == was + Marked(during, mine)
    || now == was + Marked(during, mine) + Marked(after, None)
  }

  /** The edits a command may let happen: only a `mut` lets any happen while it works. */
  predicate MayTake(c: Command, es: seq<Edit>) {
    match c
    case Mut(_, _, _, during, _, after, _) => es == [] || es == during || es == during + after
    case Outside(edit) => es == [edit]
    case _ => es == []
  }

  function Edits(log: seq<Entry>): (edits: seq<Edit>)
    ensures |edits| == |log| && forall k :: 0 <= k < |log| ==> edits[k] == log[k].edit
  {
    seq(|log|, k requires 0 <= k < |log| => log[k].edit)
  }

  function Flat(took: seq<seq<Edit>>): seq<Edit> {
    if took == [] then [] else Flat(took[..|took| - 1]) + took[|took| - 1]
  }

  /** The edit writes just what a mutation of its file by one of these commands is, or the one in force already. */
  ghost predicate Mutation(d: Disk, commands: seq<Command>, e: Edit) {
    Own(d, e) || (e.Write? && exists c, x :: c in commands && c.Mut? && c.src == e.path && c.inject(x) == Some(e.content))
  }

  /** From `was` to `now` the commands entered the edits they took, command by command; an entry is its own only if the edit
      wrote just what a mutation is. */
  ghost predicate Entered(d: Disk, was: seq<Entry>, now: seq<Entry>, commands: seq<Command>, took: seq<seq<Edit>>) {
    && |took| == |commands| && (forall i :: 0 <= i < |commands| ==> MayTake(commands[i], took[i]))
    && was <= now && Edits(now) == Edits(was) + Flat(took)
    && (forall k :: |was| <= k < |now| && now[k].own ==> Mutation(d, commands, now[k].edit))
  }

  /** The edit that would write the mutation of this file. */
  function Mine(files: map<Path, Bytes>, src: Path, inject: Bytes -> Option<Bytes>): (mine: Option<Edit>)
    ensures mine.Some? ==> mine.value.Write? && mine.value.path == src
  {
    if src in files && inject(files[src]).Some? then Some(Write(src, inject(files[src]).value)) else None
  }

  /** The entries of one `mut`, read as edits. */
  lemma MutTook(was: seq<Entry>, now: seq<Entry>, d: Disk, c: Command) returns (es: seq<Edit>)
    requires c.Mut? && Took(was, now, c.during, c.after, Mine(d.files, c.src, c.inject))
    ensures Entered(d, was, now, [c], [es])
  {
    var mine := Mine(d.files, c.src, c.inject);
    if now == was {
      es := [];
      EnteredNone(d, was, c);
    } else if now == was + Marked(c.during, mine) {
      es := c.during;
      MarkedEntered(d, was, Marked(c.during, mine), c, es);
    } else {
      es := c.during + c.after;
      assert now == was + (Marked(c.during, mine) + Marked(c.after, None));
      MarkedEntered(d, was, Marked(c.during, mine) + Marked(c.after, None), c, es);
    }
  }

  lemma MarkedEntered(d: Disk, was: seq<Entry>, more: seq<Entry>, c: Command, es: seq<Edit>)
    requires c.Mut? && MayTake(c, es) && |more| == |es|
    requires forall k :: 0 <= k < |more| ==> more[k].edit == es[k] && (more[k].own ==> Mine(d.files, c.src, c.inject) == Some(es[k]))
    ensures Entered(d, was, was + more, [c], [es])
  {
    assert c in [c];
    assert Edits(was + more) == Edits(was) + es;
    FlatOne(es);
  }

  /** A `mut` leaves the mutation in force that was, or its own. */
  lemma MutOpens(d: Disk, b: Book, d': Disk, c: Command)
    requires Sound(d, b) && c.Mut?
    requires Open(d') && Open(d) ==> d'.dirs[JOURNAL].meta == d.dirs[JOURNAL].meta
    requires Open(d') && !Open(d) ==> OfMine(d', Mine(d.files, c.src, c.inject))
    ensures forall e :: Own(d', e) ==> Mutation(d, [c], e)
    ensures forall root :: OpenInTree(root, d) && Inside(root, c) ==> OpenInTree(root, d')
  {
    assert c in [c];
  }

  /** No journal but the one that was open. */
  lemma SameMeta(root: Path, d: Disk, b: Book, d': Disk)
    requires Sound(d, b) && (Open(d') ==> Open(d) && d'.dirs[JOURNAL].meta == d.dirs[JOURNAL].meta)
    ensures forall e :: Own(d', e) ==> Own(d, e)
    ensures OpenInTree(root, d) ==> OpenInTree(root, d')
  {
  }

  lemma FlatOne(es: seq<Edit>)
    ensures Flat([es]) == es
  {
    assert Flat([es][..0]) == [];
  }

  /** What a torn overwrite leaves is recoverable, and has to be archived first. */
  lemma TornIsForeign(root: Path, d: Disk, src: Path, original: Bytes, mutated: Bytes)
    requires InTree(root, src) && src in d.files && d.files[src] !in {original, mutated} && Torn(d, src, original, mutated)
    ensures Open(d) && Recoverable(root, d) && Foreign(d)
  {
  }

  lemma EnteredFirst(d: Disk, was: seq<Entry>)
    ensures Entered(d, was, was, [], [])
    ensures forall e :: Own(d, e) ==> Mutation(d, [], e)
  {
  }

  /** Nothing is entered. */
  lemma EnteredNone(d: Disk, was: seq<Entry>, c: Command)
    requires MayTake(c, [])
    ensures Entered(d, was, was, [c], [[]])
  {
    FlatOne([]);
  }

  lemma EnteredOne(d: Disk, was: seq<Entry>, e: Edit)
    ensures Entered(d, was, was + [Entry(e, Own(d, e))], [Outside(e)], [[e]])
  {
    FlatOne([e]);
    assert Edits(was + [Entry(e, Own(d, e))]) == Edits(was) + [e];
  }

  /** What the mutations of one command are, from the disk it finds, is among what those of the whole run are. */
  lemma MutationOn(d0: Disk, d: Disk, commands: seq<Command>, c: Command)
    requires forall e :: Own(d, e) ==> Mutation(d0, commands, e)
    ensures forall e :: Mutation(d, [c], e) ==> Mutation(d0, commands + [c], e)
    ensures forall e :: Mutation(d0, commands, e) ==> Mutation(d0, commands + [c], e)
  {
  }

  lemma EnteredOn(d0: Disk, log0: seq<Entry>, d: Disk, was: seq<Entry>, now: seq<Entry>,
                  commands: seq<Command>, took: seq<seq<Edit>>, c: Command, es: seq<Edit>)
    requires Entered(d0, log0, was, commands, took) && Entered(d, was, now, [c], [es])
    requires forall e :: Own(d, e) ==> Mutation(d0, commands, e)
    ensures Entered(d0, log0, now, commands + [c], took + [es])
  {
    MutationOn(d0, d, commands, c);
    FlatOne(es);
    hide Mutation;
    assert (took + [es])[..|took|] == took;
    assert MayTake(c, es) by { assert [c][0] == c && [es][0] == es; }
    assert Edits(now) == Edits(log0) + Flat(took + [es]);
    forall k | |log0| <= k < |now| && now[k].own ensures Mutation(d0, commands + [c], now[k].edit) {
      if k < |was| { assert was[k] == now[k]; }
    }
  }

  class Tree {
    const root: Path
    var disk: Disk
    var pending: Option<Signal>
    /** From here on the system does as it is told: nothing is killed or refused, and no signal comes. */
    var still: bool
    /** Output fails from here on; an overwrite leaves these bytes and fails. */
    var deaf: bool
    var tear: Option<Bytes>
    /** Something could not be said. */
    var unsaid: bool
    ghost var book: Book
    ghost var faults: nat
    /** The files as the tests last found them, mutated, and as the run that confirms a red one did. */
    ghost var found: Option<map<Path, Bytes>>
    ghost var again: Option<map<Path, Bytes>>

    constructor (root: Path, files: map<Path, Bytes>)
      ensures Sound(disk, book) && book.calm && disk.files == files && !Open(disk) && !still && !deaf && tear.None? && !unsaid
      ensures this.root == root && disk.dirs == map[] && pending.None? && book == Book(files, [], true, true)
    {
      this.root := root;
      disk := Disk(files, map[], map[]);
      pending, still, deaf, tear, unsaid := None, false, false, None, false;
      book := Book(files, [], true, true);
      faults, found, again := 0, None, None;
    }

    // ---------------------------------------------------- the environment

    /** A fault strikes here, or none does. */
    method Strike() returns (f: Option<Fault>)
      modifies this`faults
      ensures still ==> f.None?
      ensures f.None? ==> faults == old(faults)
      ensures f.Some? ==> faults == old(faults) + 1 && f.value != Refused
    {
      var choice: int := *;
      f := None;
      if choice == 1 && !still { f := Some(Killed); }
      if choice == 2 && !still { f := Some(OsError); }
      if f.Some? { faults := faults + 1; }
    }

    /** Nothing fails: neither the system nor the output. */
    ghost predicate Smooth()
      reads this`still, this`deaf, this`tear
    {
      still && !deaf && tear.None?
    }

    /** `say`: a line is printed and flushed. It may fail as any output may. */
    method Say() returns (f: Option<Fault>)
      modifies this`faults, this`unsaid
      ensures f.None? ==> faults == old(faults) && unsaid == old(unsaid)
      ensures f.Some? ==> faults > old(faults) && f.value != Refused && (f == Some(OsError) ==> unsaid)
      ensures old(unsaid) ==> unsaid
      ensures deaf ==> f.Some? && (still ==> f == Some(OsError))
      ensures Smooth() ==> f.None?
    {
      f := Strike();
      if f.None? && deaf {
        f := Some(OsError);
        faults := faults + 1;
      }
      if f == Some(OsError) { unsaid := true; }
    }

    /** `interrupted()`: a signal may have arrived by now; the first one is kept. */
    method Interrupted() returns (yes: bool)
      modifies this`pending
      ensures yes == pending.Some?
      ensures old(pending).Some? || still ==> pending == old(pending)
    {
      var signal: Signal, came: bool := *, *;
      if pending.None? && came && !still { pending := Some(signal); }
      yes := pending.Some?;
    }

    /** Somebody else writes or deletes a file. */
    method Apply(e: Edit)
      requires Sound(disk, book)
      modifies this`disk, this`book
      ensures Sound(disk, book) && book == Noted(old(disk), old(book), e)
      ensures disk == old(disk).(files := Changed(old(disk.files), e))
    {
      EditKeeps(disk, book, e);
      book := Noted(disk, book, e);
      disk := disk.(files := Changed(disk.files, e));
    }

    /** Edits one after the other, while `mine` would write the mutation in force. */
    method ApplyAll(es: seq<Edit>, ghost mine: Option<Edit>)
      requires Sound(disk, book) && forall e :: Own(disk, e) <==> mine == Some(e)
      modifies this`disk, this`book
      ensures Sound(disk, book)
      ensures disk.dirs == old(disk.dirs) && disk.archives == old(disk.archives)
      ensures book.first == old(book.first) && book.swept == old(book.swept) && book.log == old(book.log) + Marked(es, mine)
      ensures es == [] ==> disk == old(disk) && book == old(book)
      ensures disk.files == Edited(old(disk.files), es)
      ensures book.calm == (old(book.calm) && (es == [] || !Open(disk)))
    {
      for i := 0 to |es|
        invariant Sound(disk, book)
        invariant disk.dirs == old(disk.dirs) && disk.archives == old(disk.archives)
        invariant book.first == old(book.first) && book.swept == old(book.swept) && book.log == old(book.log) + Marked(es[..i], mine)
        invariant i == 0 ==> disk == old(disk) && book == old(book)
        invariant disk.files == Edited(old(disk.files), es[..i])
        invariant book.calm == (old(book.calm) && (i == 0 || !Open(disk)))
      {
        MarkedMore(es, i, mine);
        EditedMore(old(disk.files), es, i);
        assert Own(disk, es[i]) == Own(old(disk), es[i]);
        hide Sound;
        Apply(es[i]);
      }
      assert es[..|es|] == es;
    }

    // -------------------------------------------------- file operations

    /** `tempfile.mkdtemp`: the name is the system's choice, eight characters after the prefix. */
    method MakeTmp() returns (r: Result<Name>)
      modifies this`disk, this`faults
      ensures r.Struck? ==> disk == old(disk) && faults > old(faults) && r.fault != Refused
      ensures r.Ok? ==> TMP <= r.value && r.value != DROP && r.value !in old(disk.dirs) && faults == old(faults)
      ensures r.Ok? ==> disk == old(disk).(dirs := old(disk.dirs)[r.value := NEW_DIR])
      ensures still && NoTemporary(old(disk)) ==> r.Ok?
    {
      var f := Strike();
      if f.Some? { return Struck(f.value); }
      assert |"abcdefgh"| == 8;
      var suffix: string :| |suffix| == 8;
      var name := TMP + suffix;
      assert TMP <= name;
      if name in disk.dirs {
        faults := faults + 1;
        return Struck(OsError);
      }
      assert |name| != |DROP|;
      disk := disk.(dirs := disk.dirs[name := NEW_DIR]);
      return Ok(name);
    }

    /** Writing one file inside a temporary directory: it may be cut off anywhere. */
    method WriteInTmp(name: Name, whole: Dir) returns (r: Result<()>)
      requires name in disk.dirs && name != JOURNAL
      modifies this`disk, this`faults
      ensures name in disk.dirs && disk == old(disk).(dirs := old(disk.dirs)[name := disk.dirs[name]])
      ensures r.Ok? ==> disk.dirs[name] == whole && faults == old(faults)
      ensures r.Struck? ==> faults > old(faults) && r.fault != Refused && !still
    {
      var f := Strike();
      var cut: Bytes, meta: MetaFile := *, *;
      if f.Some? {
        disk := disk.(dirs := disk.dirs[name := Dir(Some(cut), meta, false)]);
        return Struck(f.value);
      }
      disk := disk.(dirs := disk.dirs[name := whole]);
      return Ok(());
    }

    /** `os.rename` of a directory and the sync of its parent: refused when the
        target is there and not empty; a fault finds it done or not done. */
    method Rename(a: Name, b: Name) returns (r: Result<()>)
      requires a in disk.dirs && a != b
      modifies this`disk, this`faults
      ensures r.Ok? ==> faults == old(faults) && !Barred(old(disk), b)
      ensures Barred(old(disk), b) ==> r == Struck(OsError) && disk == old(disk) && faults == old(faults)
      ensures r.Struck? ==> r.fault != Refused && (faults > old(faults) || Barred(old(disk), b))
      ensures still ==> faults == old(faults)
      ensures faults >= old(faults)
      ensures r.Ok? ==> disk == old(disk).(dirs := (old(disk.dirs) - {a})[b := old(disk.dirs)[a]])
      ensures r.Struck? ==> disk == old(disk) || disk == old(disk).(dirs := (old(disk.dirs) - {a})[b := old(disk.dirs)[a]])
    {
      if Barred(disk, b) { return Struck(OsError); }
      var f := Strike();
      var late: bool := *;
      if f.None? || late { disk := disk.(dirs := (disk.dirs - {a})[b := disk.dirs[a]]); }
      if f.Some? { return Struck(f.value); }
      return Ok(());
    }

    /** `shutil.rmtree(…, ignore_errors=True)`: an error leaves part of the directory and goes unsaid. */
    method RemoveTree(name: Name) returns (r: Result<()>)
      requires name in disk.dirs && name != JOURNAL
      modifies this`disk, this`faults, this`book
      ensures disk.files == old(disk.files) && disk.archives == old(disk.archives)
      ensures disk.dirs == if name in disk.dirs then old(disk.dirs)[name := disk.dirs[name]] else old(disk.dirs) - {name}
      ensures faults >= old(faults)
      ensures book == old(book).(swept := book.swept) && (book.swept ==> old(book.swept))
      ensures name in disk.dirs ==> faults > old(faults)
      ensures r.Ok? && book.swept ==> name !in disk.dirs
      ensures r.Struck? ==> r.fault == Killed && faults > old(faults)
      ensures faults == old(faults) ==> book == old(book)
      ensures still ==> faults == old(faults)
    {
      var f := Strike();
      var rest: Dir := *;
      disk := disk.(dirs := if f.None? then disk.dirs - {name} else disk.dirs[name := rest]);
      if f == Some(Killed) { return Struck(Killed); }
      if f.Some? { book := book.(swept := false); }
      return Ok(());
    }

    /** Creating the `writing` marker. */
    method RaiseMarker() returns (r: Result<()>)
      requires Open(disk) && Sound(disk, book)
      modifies this`disk, this`faults
      ensures Sound(disk, book)
      ensures disk == old(disk) || disk == old(disk).(dirs := old(disk.dirs)[JOURNAL := old(disk.dirs)[JOURNAL].(writing := true)])
      ensures r.Ok? ==> disk.dirs[JOURNAL].writing && faults == old(faults)
      ensures r.Struck? ==> faults > old(faults) && r.fault != Refused && !still
    {
      var j := disk.dirs[JOURNAL];
      var f := Strike();
      var late: bool := *;
      if f.None? || late {
        MarkerUpKeeps(disk, disk.(dirs := disk.dirs[JOURNAL := j.(writing := true)]), book);
        disk := disk.(dirs := disk.dirs[JOURNAL := j.(writing := true)]);
      }
      if f.Some? { return Struck(f.value); }
      return Ok(());
    }

    /** Removing the `writing` marker, once the source is whole. */
    method LowerMarker() returns (r: Result<()>)
      requires Open(disk) && Sound(disk, book)
      requires Ours(disk.(dirs := disk.dirs[JOURNAL := disk.dirs[JOURNAL].(writing := false)]))
      modifies this`disk, this`faults
      ensures Sound(disk, book)
      ensures disk == old(disk) || disk == old(disk).(dirs := old(disk.dirs)[JOURNAL := old(disk.dirs)[JOURNAL].(writing := false)])
      ensures r.Ok? ==> !disk.dirs[JOURNAL].writing && faults == old(faults)
      ensures r.Struck? ==> faults > old(faults) && r.fault != Refused && !still
    {
      var j := disk.dirs[JOURNAL];
      var f := Strike();
      var late: bool := *;
      if f.None? || late {
        var down := disk.(dirs := disk.dirs[JOURNAL := j.(writing := false)]);
        MarkerKeeps(disk, down, book);
        disk := down;
      }
      if f.Some? { return Struck(f.value); }
      return Ok(());
    }

    /** Overwriting the source in place: a fault leaves any bytes. */
    method Overwrite(src: Path, data: Bytes) returns (r: Result<()>)
      modifies this`disk, this`faults
      ensures src in old(disk.files) ==> src in disk.files && disk == old(disk).(files := old(disk.files)[src := disk.files[src]])
      ensures src !in old(disk.files) ==> r == Struck(OsError) && disk == old(disk)
      ensures r.Ok? ==> src in disk.files && disk.files[src] == data && faults == old(faults)
      ensures r.Struck? ==> r.fault != Refused && ((faults > old(faults) && (!still || tear.Some?)) || src !in old(disk.files))
      ensures still && tear.Some? && src in old(disk.files) ==> r == Struck(OsError) && disk.files[src] == tear.value
    {
      if src !in disk.files { return Struck(OsError); }
      var f := Strike();
      var torn: Bytes := *;
      if f.None? && tear.Some? {
        f, torn := Some(OsError), tear.value;
        faults := faults + 1;
      }
      disk := disk.(files := disk.files[src := if f.None? then data else torn]);
      if f.Some? { return Struck(f.value); }
      return Ok(());
    }

    /** Saving content under a new `mutate-overwritten-…` name; the name is never one that is there. */
    method Archive(content: Bytes) returns (r: Result<()>)
      modifies this`disk, this`faults
      ensures disk == old(disk).(archives := disk.archives)
      ensures old(disk.archives.Values) <= disk.archives.Values
      ensures r.Ok? ==> content in disk.archives.Values && faults == old(faults)
      ensures r.Struck? ==> r.fault != Refused && faults > old(faults) && !still
    {
      var name: Name, torn: Bytes := *, *;
      var f := Strike();
      if still { name := FreshName(disk.archives.Keys); }
      if f.None? && name in disk.archives {
        faults := faults + 1;
        return Struck(OsError);
      }
      if name !in disk.archives {
        var was := disk.archives;
        disk := disk.(archives := disk.archives[name := if f.None? then content else torn]);
        assert forall n :: n in was ==> n in disk.archives && disk.archives[n] == was[n];
        assert name in disk.archives;
      }
      if f.Some? { return Struck(f.value); }
      return Ok(());
    }

    // ------------------------------------------------ the journal's routines

    method WriteSource(src: Path, data: Bytes) returns (r: Result<()>)
      requires Sound(disk, book) && OpenOn(disk, src) && Ours(disk)
      requires disk.files[src] in disk.archives.Values || !Foreign(disk)
      requires data == disk.dirs[JOURNAL].bak.value || Sha(data) == disk.dirs[JOURNAL].meta.mutatedSha
      modifies this`disk, this`faults
      ensures Sound(disk, book)
      ensures src in disk.files && disk.files == old(disk.files)[src := disk.files[src]] && disk.archives == old(disk.archives)
      ensures Open(disk) && disk.dirs == old(disk.dirs)[JOURNAL := old(disk.dirs)[JOURNAL].(writing := disk.dirs[JOURNAL].writing)]
      ensures Ours(disk)
      ensures r.Ok? ==> disk.files[src] == data && faults == old(faults) && !disk.dirs[JOURNAL].writing
      ensures r.Struck? ==> faults > old(faults) && r.fault != Refused && (!still || tear.Some?)
      ensures still && tear.Some? ==> r == Struck(OsError) && disk.files[src] == tear.value && disk.dirs[JOURNAL].writing
    {
      var _ :- RaiseMarker();
      label raised:
      r := Overwrite(src, data);
      OverwriteKeeps(old@raised(disk), disk, book, disk.files[src]);
      assert disk.dirs == old(disk.dirs)[JOURNAL := old(disk.dirs)[JOURNAL].(writing := true)];
      if r.Struck? { return; }
      r := LowerMarker();
    }

    /** `write_journal`: all of it under a temporary name, then the formal one. */
    method WriteJournal(src: Path, original: Bytes, mutated: Bytes) returns (r: Result<()>)
      requires Sound(disk, book) && !Open(disk) && (book.swept ==> DROP !in disk.dirs)
      requires src in disk.files && disk.files[src] == original
      modifies this`disk, this`faults
      ensures Sound(disk, book) && disk.files == old(disk.files) && disk.archives == old(disk.archives)
      ensures DROP in disk.dirs ==> DROP in old(disk.dirs)
      ensures Open(disk) ==> OpenOn(disk, src) && disk.dirs[JOURNAL] == Dir(Some(original), Meta(src, Sha(original), Sha(mutated)), false)
      ensures r.Ok? ==> disk.dirs == old(disk.dirs)[JOURNAL := Dir(Some(original), Meta(src, Sha(original), Sha(mutated)), false)]
      ensures r.Ok? ==> faults == old(faults)
      ensures r.Struck? ==> faults > old(faults) && r.fault != Refused
      ensures still && NoTemporary(old(disk)) ==> r.Ok?
    {
      hide Sound, Safe, Pristine, Ours, Foreign, Blocked;
      Names();
      var whole := Dir(Some(original), Meta(src, Sha(original), Sha(mutated)), false);
      var tmp :- MakeTmp();
      DirsKeep(old(disk), disk, book, book);
      label made:
      r := WriteInTmp(tmp, whole.(meta := NoMeta));
      DirsKeep(old@made(disk), disk, book, book);
      if r.Struck? { return; }
      label filled:
      r := WriteInTmp(tmp, whole);
      DirsKeep(old@filled(disk), disk, book, book);
      if r.Struck? { return; }
      label written:
      r := Rename(tmp, JOURNAL);
      if Open(disk) {
        OpeningKeeps(old@written(disk), disk, book, whole);
        assert disk.dirs == old(disk.dirs)[JOURNAL := whole];
      }
    }

    /** `drop_journal`: out of the formal name first, then removed. */
    method DropJournal() returns (r: Result<()>)
      requires Sound(disk, book) && Open(disk)
      requires var j := disk.dirs[JOURNAL]; j.meta.path in disk.files && disk.files[j.meta.path] == j.bak.value
      modifies this`disk, this`faults, this`book
      ensures Sound(disk, book) && disk.files == old(disk.files) && disk.archives == old(disk.archives)
      ensures book == old(book).(swept := book.swept) && faults >= old(faults)
      ensures r.Struck? ==> r.fault != Refused
      ensures Blocked(old(disk)) ==> r == Struck(OsError) && disk == old(disk)
      ensures Open(disk) ==> disk == old(disk) && r.Struck?
      ensures !Open(disk) ==> disk.dirs == if DROP in disk.dirs then (old(disk.dirs) - {JOURNAL})[DROP := disk.dirs[DROP]] else old(disk.dirs) - {JOURNAL, DROP}
      ensures r == Struck(OsError) && !Open(disk) ==> DROP in disk.dirs && disk.dirs[DROP] == old(disk.dirs)[JOURNAL]
      ensures r.Ok? ==> !Open(disk)
      ensures faults == old(faults) ==> book == old(book) && (if Blocked(old(disk)) then r.Struck? else r.Ok? && DROP !in disk.dirs)
      ensures still ==> faults == old(faults)
    {
      Names();
      r := Rename(JOURNAL, DROP);
      if !Open(disk) { DroppingKeeps(old(disk), disk, book); }
      if r.Struck? { return; }
      label renamed:
      r := RemoveTree(DROP);
      DirsKeep(old@renamed(disk), disk, old@renamed(book), book);
    }

    /** The body of `restore` before the journal is dropped: false when the file is gone or somebody changed it. */
    method RestoreBytes(src: Path, original: Bytes, mutatedSha: Digest) returns (r: Result<bool>)
      requires Sound(disk, book) && OpenOn(disk, src)
      requires disk.dirs[JOURNAL].bak.value == original && disk.dirs[JOURNAL].meta.mutatedSha == mutatedSha
      modifies this`disk, this`faults, this`unsaid
      ensures Sound(disk, book) && OpenOn(disk, src) && disk.dirs[JOURNAL].bak.value == original
      ensures old(unsaid) ==> unsaid
      ensures disk.dirs == old(disk.dirs)[JOURNAL := old(disk.dirs)[JOURNAL].(writing := disk.dirs[JOURNAL].writing)]
      ensures old(disk.archives.Values) <= disk.archives.Values
      ensures r.Struck? ==> faults > old(faults) && r.fault != Refused && !Smooth()
      ensures r.Ok? ==> faults == old(faults) && unsaid == old(unsaid) && r.value == Ours(old(disk))
      ensures still && deaf && Ours(old(disk)) && Foreign(old(disk)) ==> r == Struck(OsError) && disk == old(disk).(archives := disk.archives)
      ensures r == Ok(false) ==> disk == old(disk)
      ensures r == Ok(true) ==> disk.dirs[JOURNAL].writing == (old(disk.dirs)[JOURNAL].writing && old(disk.files)[src] == original)
      ensures r == Ok(true) ==> disk.files == old(disk.files)[src := original]
      ensures r == Ok(true) ==> if Foreign(old(disk)) then old(disk.files)[src] in disk.archives.Values else disk.archives == old(disk.archives)
    {
      if src !in disk.files {
        r := SayFalse();
        return;
      }
      var f := Strike();
      if f.Some? { return Struck(f.value); }
      var current := disk.files[src];
      var oursHalfWritten := disk.dirs[JOURNAL].writing;
      if current != original {
        if Sha(current) != mutatedSha && !oursHalfWritten {
          r := SayFalse();
          return;
        }
        if oursHalfWritten && Sha(current) != mutatedSha {
          r := RestoreArchive(current);
          if r.Struck? { return; }
          var said := Say();
          if said.Some? { return Struck(said.value); }
        }
        var w := WriteSource(src, original);
        if w.Struck? { return Struck(w.fault); }
      }
      return Ok(true);
    }

    /** Why it is not restored is said, which may fail. */
    method SayFalse() returns (r: Result<bool>)
      modifies this`faults, this`unsaid
      ensures r.Ok? ==> r.value == false && faults == old(faults) && unsaid == old(unsaid)
      ensures r.Struck? ==> faults > old(faults) && r.fault != Refused && !Smooth()
      ensures (old(unsaid) ==> unsaid) && (r == Struck(OsError) ==> unsaid) && (still && deaf ==> r == Struck(OsError))
    {
      var said := Say();
      return if said.Some? then Struck(said.value) else Ok(false);
    }

    /** The archive of what is about to be overwritten. */
    method RestoreArchive(current: Bytes) returns (r: Result<bool>)
      requires Sound(disk, book)
      modifies this`disk, this`faults
      ensures Sound(disk, book) && disk == old(disk).(archives := disk.archives)
      ensures old(disk.archives.Values) <= disk.archives.Values
      ensures r.Ok? ==> current in disk.archives.Values && faults == old(faults)
      ensures r.Struck? ==> faults > old(faults) && r.fault != Refused && !still
    {
      var k := Archive(current);
      DirsKeep(old(disk), disk, book, book);
      if k.Struck? { return Struck(k.fault); }
      return Ok(true);
    }

    method Restore(src: Path, original: Bytes, mutatedSha: Digest) returns (r: Result<bool>)
      requires Sound(disk, book) && OpenOn(disk, src)
      requires disk.dirs[JOURNAL].bak.value == original && disk.dirs[JOURNAL].meta.mutatedSha == mutatedSha
      modifies this`disk, this`faults, this`book, this`unsaid
      ensures Sound(disk, book) && book == old(book).(swept := book.swept) && faults >= old(faults) && (old(unsaid) ==> unsaid)
      ensures faults == old(faults) ==> unsaid == old(unsaid)
      ensures r.Struck? ==> r.fault != Refused
      ensures r == Ok(true) ==> !Open(disk)
      ensures Open(disk) ==> OpenOn(disk, src) && disk.dirs[JOURNAL].meta == old(disk.dirs)[JOURNAL].meta
      ensures r == Ok(true) || (r == Struck(OsError) && !unsaid) ==> disk.files == old(disk.files)[src := original] && Ours(old(disk))
      ensures still && deaf && Ours(old(disk)) && Foreign(old(disk)) ==> r == Struck(OsError) && disk == old(disk).(archives := disk.archives)
      ensures faults == old(faults) ==> book == old(book)
      ensures faults == old(faults) ==> r == if !Ours(old(disk)) then Ok(false) else if Blocked(old(disk)) then Struck(OsError) else Ok(true)
      ensures faults == old(faults) ==> if Ours(old(disk)) then PutBack(old(disk), disk) else disk == old(disk)
      ensures Smooth() ==> faults == old(faults)
    {
      hide Sound;
      var done := RestoreBytes(src, original, mutatedSha);
      if done == Struck(OsError) {
        r := SayFalse();
        return;
      }
      if done.Struck? { return Struck(done.fault); }
      if !done.value { return Ok(false); }
      assert old(disk.dirs) - {JOURNAL, DROP} == disk.dirs - {JOURNAL, DROP};
      var dropped := DropJournal();
      if dropped.Struck? { return Struck(dropped.fault); }
      return Ok(true);
    }

    /** One temporary directory is swept away. */
    method SweepOne(name: Name) returns (r: Result<()>)
      requires Sound(disk, book) && name in disk.dirs && TMP <= name
      modifies this`disk, this`faults, this`book
      ensures Sound(disk, book) && disk.files == old(disk.files) && disk.archives == old(disk.archives)
      ensures disk.dirs.Keys <= old(disk.dirs.Keys)
      ensures forall n :: n in old(disk.dirs) && n != name ==> n in disk.dirs && disk.dirs[n] == old(disk.dirs)[n]
      ensures faults >= old(faults) && (still ==> faults == old(faults)) && (faults == old(faults) ==> book == old(book))
      ensures book == old(book).(swept := book.swept) && (book.swept ==> old(book.swept))
      ensures r.Ok? && (book.swept || faults == old(faults)) ==> name !in disk.dirs
      ensures r.Struck? ==> r.fault == Killed && faults > old(faults)
    {
      Names();
      r := RemoveTree(name);
      DirsKeep(old(disk), disk, old(book), book);
    }

    /** `check_no_journal`: temporary directories are swept away, then an open journal refuses. */
    method CheckNoJournal() returns (r: Result<()>)
      requires Sound(disk, book)
      modifies this`disk, this`faults, this`book
      ensures Sound(disk, book) && disk.files == old(disk.files) && disk.archives == old(disk.archives)
      ensures forall n :: n in disk.dirs ==> n in old(disk.dirs)
      ensures forall n :: n in old(disk.dirs) && !(TMP <= n) ==> n in disk.dirs && disk.dirs[n] == old(disk.dirs)[n]
      ensures book == old(book).(swept := book.swept) && (faults == old(faults) ==> book == old(book)) && faults >= old(faults)
      ensures faults == old(faults) || (book.swept && r != Struck(Killed)) ==> NoTemporary(disk)
      ensures Open(disk) == Open(old(disk)) && (Open(disk) ==> disk.dirs[JOURNAL] == old(disk.dirs)[JOURNAL])
      ensures r.Ok? ==> !Open(disk) && (book.swept ==> DROP !in disk.dirs)
      ensures r.Struck? ==> r.fault != OsError && (r.fault == Killed ==> faults > old(faults)) && (r.fault == Refused ==> Open(disk))
      ensures still ==> faults == old(faults)
    {
      hide Sound;
      Names();
      var names := disk.dirs.Keys;
      while names != {}
        invariant Sound(disk, book) && disk.files == old(disk.files) && disk.archives == old(disk.archives)
        invariant forall n :: n in disk.dirs ==> n in old(disk.dirs)
        invariant forall n :: n in old(disk.dirs) && !(TMP <= n) ==> n in disk.dirs && disk.dirs[n] == old(disk.dirs)[n]
        invariant book == old(book).(swept := book.swept) && (faults == old(faults) ==> book == old(book))
        invariant names <= disk.dirs.Keys
        invariant faults >= old(faults) && (still ==> faults == old(faults))
        invariant faults == old(faults) || book.swept ==> forall n :: n in disk.dirs && TMP <= n ==> n in names
        decreases |names|
      {
        var name :| name in names;
        names := names - {name};
        if TMP <= name {
          var gone := SweepOne(name);
          if gone.Struck? { return Struck(gone.fault); }
        }
      }
      if Open(disk) { return Struck(Refused); }
      return Ok(());
    }

    // --------------------------------------------------------- the commands

    /** `main` and `exit_code`: what an exception or a late signal makes of the exit code. An exception is said, and if
        that fails nothing catches it; output that cannot be flushed in the end has a code of its own. */
    method Leave(r: Result<int>) returns (e: Exit)
      modifies this`pending, this`faults, this`unsaid
      ensures old(pending).Some? || still ==> pending == old(pending)
      ensures faults >= old(faults) && (old(unsaid) ==> unsaid) && (faults == old(faults) ==> unsaid == old(unsaid))
      ensures r == Struck(Killed) ==> e.Dead?
      ensures e.Dead? ==> r == Struck(Killed) || faults > old(faults)
      ensures !unsaid && e.Code? ==> (e == Code(RESTORE_FAILED) <==> r == Ok(RESTORE_FAILED)) && (e == Code(0) ==> r == Ok(0))
      ensures !unsaid && e.Code? && pending.Some? && Ordinary(r) < 128 && Ordinary(r) != RESTORE_FAILED ==> e == Code(128 + pending.value)
      ensures !unsaid && e.Code? && (pending.None? || Ordinary(r) >= 128) ==> e == Code(Ordinary(r))
      ensures unsaid && e == Code(0) ==> r == Ok(0)
      ensures still && deaf && r == Struck(OsError) ==> e == Code(UNCAUGHT) || e == Code(UNFLUSHED)
      ensures Smooth() ==> faults == old(faults)
      ensures Read(e) ==> r == Ok(e.code)
    {
      if r == Struck(Killed) { return Dead; }
      if r.Struck? {
        var said := Say();
        if said == Some(Killed) { return Dead; }
        if said.Some? {
          e := Flush(UNCAUGHT);
          return;
        }
      }
      var rc := Ordinary(r);
      var signalled := Interrupted();
      if signalled && rc < 128 && rc != RESTORE_FAILED { rc := 128 + pending.value; }
      e := Flush(rc);
    }

    /** The end of the process, with what is left unsaid. */
    method Flush(rc: int) returns (e: Exit)
      ensures e == Code(rc) || (unsaid && e == Code(UNFLUSHED))
    {
      var fails: bool := *;
      return Code(if unsaid && fails then UNFLUSHED else rc);
    }

    /** `read_journal`. */
    method ReadJournal() returns (r: Result<(Path, Bytes, Digest)>)
      requires Open(disk)
      modifies this`faults
      ensures r.Struck? ==> r.fault != OsError && ((faults > old(faults) && !still) || (r.fault == Refused && !Complete(disk.dirs[JOURNAL])))
      ensures r.Ok? ==> faults == old(faults) && Complete(disk.dirs[JOURNAL])
      ensures r.Ok? ==> var j := disk.dirs[JOURNAL]; r.value == (j.meta.path, j.bak.value, j.meta.mutatedSha)
    {
      var j := disk.dirs[JOURNAL];
      var f := Strike();
      if f.Some? { return Struck(if f.value == Killed then Killed else Refused); }
      if !j.meta.Meta? || j.bak.None? { return Struck(Refused); }
      if Sha(j.bak.value) != j.meta.originalSha { return Struck(Refused); }
      return Ok((j.meta.path, j.bak.value, j.meta.mutatedSha));
    }

    method RecoverBody() returns (r: Result<int>)
      requires Sound(disk, book)
      modifies this`disk, this`faults, this`book, this`unsaid
      ensures Sound(disk, book) && book == old(book).(swept := book.swept) && faults >= old(faults) && (old(unsaid) ==> unsaid)
      ensures faults == old(faults) ==> Recovered(root, old(disk), disk) && book == old(book) && r == Comes(root, old(disk)) && unsaid == old(unsaid)
      ensures Smooth() ==> faults == old(faults)
      ensures r == Ok(0) ==> !Open(disk)
      ensures Open(disk) ==> old(Open(disk)) && disk.dirs[JOURNAL].meta == old(disk.dirs[JOURNAL].meta)
      ensures still && deaf && old(Recoverable(root, disk)) && old(Open(disk) && Foreign(disk)) ==> r == Struck(OsError) && disk.files == old(disk.files) && Open(disk)
    {
      if !Open(disk) {
        var said := Say();
        return if said.Some? then Struck(said.value) else Ok(0);
      }
      var read :- ReadJournal();
      var (src, original, mutatedSha) := read;
      if !InTree(root, src) { return Struck(Refused); }
      var restored :- Restore(src, original, mutatedSha);
      if !restored { return Ok(RESTORE_FAILED); }
      var said := Say();
      return if said.Some? then Struck(said.value) else Ok(0);
    }

    /** `recover`: undisturbed, it does what `Recovered` says. Where output fails it does not put back a half-written file. */
    method CmdRecover() returns (e: Exit)
      requires Sound(disk, book)
      modifies this`disk, this`faults, this`book, this`pending, this`unsaid
      ensures Sound(disk, book) && book == old(book).(swept := book.swept)
      ensures faults == old(faults) ==> Recovered(root, old(disk), disk) && book == old(book)
      ensures faults == old(faults) && !unsaid ==> e.Code? && (e == Code(RESTORE_FAILED) <==> Comes(root, old(disk)) == Ok(RESTORE_FAILED))
      ensures faults == old(faults) && !unsaid && pending.None? ==> e == Code(Ordinary(Comes(root, old(disk))))
      ensures faults == old(faults) && !unsaid && pending.None? ==>
        e == Code(if !old(Open(disk)) then 0 else if !old(OpenInTree(root, disk)) then 1 else if !old(Ours(disk)) then 2 else if Blocked(old(disk)) then 3 else 0)
      ensures faults == old(faults) && old(book.calm && OpenInTree(root, disk)) ==>
        disk.files == book.Left() && (Open(disk) <==> Blocked(old(disk)))
      ensures Smooth() ==> faults == old(faults) && pending == old(pending) && unsaid == old(unsaid)
      ensures e == Code(0) ==> !Open(disk)
      ensures Open(disk) ==> old(Open(disk)) && disk.dirs[JOURNAL].meta == old(disk.dirs[JOURNAL].meta)
      ensures still && deaf && old(Recoverable(root, disk)) && old(Open(disk) && Foreign(disk)) ==>
        disk.files == old(disk.files) && Open(disk) && (e == Code(UNCAUGHT) || e == Code(UNFLUSHED))
    {
      var r := RecoverBody();
      e := Leave(r);
      if faults == old(faults) && old(book.calm) { RecoveryRestores(root, old(disk), disk, old(book)); }
    }

    /** `baseline`: undisturbed it refuses where a journal is open or the tests are not all green. */
    method CmdBaseline(green: bool) returns (e: Exit)
      requires Sound(disk, book)
      modifies this`disk, this`faults, this`book, this`pending, this`unsaid
      ensures Sound(disk, book) && disk.files == old(disk.files) && book == old(book).(swept := book.swept)
      ensures Open(disk) ==> old(Open(disk)) && disk.dirs[JOURNAL].meta == old(disk.dirs[JOURNAL].meta)
      ensures Read(e) ==> e == Code(0) && green && !Open(disk)
      ensures faults == old(faults) && !unsaid && pending.None? ==> e == Code(if green && !Open(disk) then 0 else REFUSED)
    {
      var r := BaselineBody(green);
      e := Leave(r);
    }

    method BaselineBody(green: bool) returns (r: Result<int>)
      requires Sound(disk, book)
      modifies this`disk, this`faults, this`book, this`pending, this`unsaid
      ensures Sound(disk, book) && disk.files == old(disk.files) && book == old(book).(swept := book.swept) && faults >= old(faults)
      ensures Open(disk) ==> old(Open(disk)) && disk.dirs[JOURNAL].meta == old(disk.dirs[JOURNAL].meta)
      ensures (old(unsaid) ==> unsaid) && (old(pending).Some? ==> pending == old(pending))
      ensures r.Ok? && r.value < 128 ==> r.value == (if green then 0 else REFUSED) && !Open(disk)
      ensures faults == old(faults) && pending.None? ==> r == if Open(disk) then Struck(Refused) else Ok(if green then 0 else REFUSED)
    {
      var _ :- CheckNoJournal();
      var stop := Interrupted();
      if stop { return Ok(128 + pending.value); }
      var said := Say();
      return if said.Some? then Struck(said.value) else Ok(if green then 0 else REFUSED);
    }

    /** The mutation is written and the tests are run, unless a signal came first; whether that failed, and whether there is a reading. */
    method InjectAndTest(src: Path, mutated: Bytes, during: seq<Edit>, raises: bool) returns (r: Result<(bool, bool)>)
      requires Sound(disk, book) && OpenOn(disk, src) && Ours(disk) && !Foreign(disk)
      requires disk.dirs[JOURNAL].meta.mutatedSha == Sha(mutated)
      modifies this`disk, this`faults, this`book, this`pending, this`found
      ensures Sound(disk, book) && book.first == old(book.first) && book.swept == old(book.swept) && faults >= old(faults)
      ensures book.log == old(book.log) || book.log == old(book.log) + Marked(during, Some(Write(src, mutated)))
      ensures book.calm == (old(book.calm) && (during == [] || book.log == old(book.log)))
      ensures (faults == old(faults) && pending.None?) || (r.Ok? && r.value.1) ==> book.log == old(book.log) + Marked(during, Some(Write(src, mutated)))
      ensures r.Ok? && r.value.1 ==> found == Some(old(disk.files)[src := mutated]) && disk.files == Edited(found.value, during)
      ensures faults == old(faults) && pending.None? ==> found == Some(old(disk.files)[src := mutated]) && disk.files == Edited(found.value, during)
      ensures found == old(found) || found == Some(old(disk.files)[src := mutated])
      ensures Open(disk) && disk.dirs == old(disk.dirs)[JOURNAL := old(disk.dirs)[JOURNAL].(writing := disk.dirs[JOURNAL].writing)]
      ensures disk.archives == old(disk.archives)
      ensures r.Struck? ==> r.fault == Killed && faults > old(faults)
      ensures during == [] ==> book == old(book) && src in disk.files && disk.files == old(disk.files)[src := disk.files[src]] && Ours(disk)
      ensures during == [] && faults == old(faults) ==> !Foreign(disk)
      ensures faults == old(faults) && !old(disk.dirs)[JOURNAL].writing ==> disk.dirs == old(disk.dirs)
      ensures faults == old(faults) && pending.None? ==> r == Ok((raises, !raises))
      ensures old(pending).Some? || still ==> pending == old(pending)
      ensures still && tear.Some? && old(pending).None? ==>
        r == Ok((true, false)) && disk.files == old(disk.files)[src := tear.value] && disk.dirs[JOURNAL].writing
    {
      var stop := Interrupted();
      if !stop {
        var w := WriteSource(src, mutated);
        if w == Struck(Killed) { return Struck(Killed); }
        if w.Struck? { return Ok((true, false)); }
      }
      stop := Interrupted();
      if stop { return Ok((false, false)); }
      found := Some(disk.files);
      ApplyAll(during, Some(Write(src, mutated)));
      return Ok((raises, !raises));
    }

    /** Everything of `mut` between the journal's rename and the exit code. */
    method Mutate(src: Path, original: Bytes, mutated: Bytes, during: seq<Edit>, raises: bool, after: seq<Edit>, reading: Reading) returns (r: Result<int>)
      requires Sound(disk, book) && OpenOn(disk, src)
      requires disk.dirs[JOURNAL] == Dir(Some(original), Meta(src, Sha(original), Sha(mutated)), false)
      requires src in disk.files && disk.files[src] == original
      modifies this`disk, this`faults, this`book, this`pending, this`unsaid, this`found, this`again
      ensures Sound(disk, book) && (old(unsaid) ==> unsaid)
      ensures book.first == old(book.first) && Took(old(book.log), book.log, during, after, Some(Write(src, mutated)))
      ensures book.calm == (old(book.calm) && (during == [] || book.log == old(book.log)))
      ensures faults == old(faults) && pending.None? ==>
        book.log == old(book.log) + Marked(during, Some(Write(src, mutated))) + (if raises || Open(disk) then [] else Marked(after, None))
      ensures r.Ok? && r != Ok(RESTORE_FAILED) && during == [] && after == [] ==> disk.files == old(disk.files)
      ensures r == Struck(OsError) && !unsaid && during == [] && after == [] ==> disk.files == old(disk.files)
      ensures r.Ok? && r != Ok(RESTORE_FAILED) && after == [] ==> !Open(disk)
      ensures (r.Struck? ==> r.fault != Refused) && faults >= old(faults)
      ensures Open(disk) ==> disk.dirs[JOURNAL].meta == old(disk.dirs)[JOURNAL].meta
      ensures during == [] && after == [] ==> book == old(book).(swept := book.swept)
      ensures faults == old(faults) && during == [] && after == [] ==>
        disk.dirs == (if Blocked(old(disk)) then old(disk.dirs) else old(disk.dirs) - {JOURNAL, DROP}) && disk.archives == old(disk.archives)
      ensures faults == old(faults) && pending.None? && !Blocked(old(disk)) ==>
        var ends := Ends(old(disk.files), src, mutated, during, raises, after, reading);
        disk.files == ends.0 && r == (if ends.1 == INTERNAL && raises then Struck(OsError) else Ok(ends.1)) && (Open(disk) <==> ends.1 == RESTORE_FAILED)
      ensures faults == old(faults) && pending.None? && during == [] && after == [] && Blocked(old(disk)) ==> r == Struck(OsError)
      ensures r.Ok? && r.value in {0, 10, 30} ==> r.value == Verdict(reading) && Confirmed(old(disk.files), src, mutated, during, r.value)
      ensures Unheard(original, mutated) && old(pending).None? ==> r == Struck(OsError) && disk.files == old(disk.files)[src := tear.value] && Torn(disk, src, original, mutated)
    {
      hide Sound, Marked;
      var done :- Tried(src, original, mutated, during, raises);
      var (restored, failure, read) := done;
      if !restored { return Ok(RESTORE_FAILED); }
      r := Judge(failure, read, after, reading);
    }

    /** The mutation and its undoing: whether the original is back, whether anything failed before, and whether there is a reading. */
    method Tried(src: Path, original: Bytes, mutated: Bytes, during: seq<Edit>, raises: bool) returns (r: Result<(bool, bool, bool)>)
      requires Sound(disk, book) && OpenOn(disk, src)
      requires disk.dirs[JOURNAL] == Dir(Some(original), Meta(src, Sha(original), Sha(mutated)), false)
      requires src in disk.files && disk.files[src] == original
      modifies this`disk, this`faults, this`book, this`pending, this`unsaid, this`found
      ensures Sound(disk, book) && (old(unsaid) ==> unsaid) && faults >= old(faults) && book.first == old(book.first)
      ensures book.log == old(book.log) || book.log == old(book.log) + Marked(during, Some(Write(src, mutated)))
      ensures (faults == old(faults) && pending.None?) || (r.Ok? && r.value.2) ==> book.log == old(book.log) + Marked(during, Some(Write(src, mutated)))
      ensures book.calm == (old(book.calm) && (during == [] || book.log == old(book.log)))
      ensures r.Struck? ==> r.fault != Refused
      ensures Open(disk) ==> disk.dirs[JOURNAL].meta == old(disk.dirs)[JOURNAL].meta
      ensures r.Ok? && r.value.0 ==> !Open(disk)
      ensures faults == old(faults) && !(r.Ok? && r.value.0) ==> Open(disk)
      ensures during == [] ==> book == old(book).(swept := book.swept)
      ensures during == [] && ((r.Ok? && r.value.0) || (r == Struck(OsError) && !unsaid)) ==> disk.files == old(disk.files)
      ensures faults == old(faults) && during == [] ==>
        disk.dirs == (if Blocked(old(disk)) then old(disk.dirs) else old(disk.dirs) - {JOURNAL, DROP}) && disk.archives == old(disk.archives)
      ensures faults == old(faults) && pending.None? ==>
        (r.Ok? ==> r.value.1 == raises && r.value.2 == !raises) && (during == [] && Blocked(old(disk)) ==> r == Struck(OsError))
      ensures faults == old(faults) && pending.None? && !Blocked(old(disk)) ==>
        var left := Edited(old(disk.files)[src := mutated], during);
        r.Ok? && (r.value.0 <==> src in left && left[src] in {original, mutated}) && disk.files == if r.value.0 then left[src := original] else left
      ensures found == old(found) || found == Some(old(disk.files)[src := mutated])
      ensures r.Ok? && r.value.2 ==> found == Some(old(disk.files)[src := mutated])
      ensures r.Ok? && r.value.2 && r.value.0 ==> disk.files == Edited(found.value, during)[src := original]
      ensures old(pending).Some? || still ==> pending == old(pending)
      ensures Unheard(original, mutated) && old(pending).None? ==> r == Struck(OsError) && disk.files == old(disk.files)[src := tear.value] && Torn(disk, src, original, mutated)
    {
      hide Sound, Marked;
      var tested :- InjectAndTest(src, mutated, during, raises);
      var (failure, read) := tested;
      var restored :- Restore(src, original, Sha(mutated));
      return Ok((restored, failure, read));
    }

    /** What `mut` makes of its reading, the original being back. */
    method Judge(failure: bool, read: bool, after: seq<Edit>, reading: Reading) returns (r: Result<int>)
      requires Sound(disk, book) && !Open(disk)
      modifies this`disk, this`faults, this`book, this`pending, this`unsaid, this`again
      ensures Sound(disk, book) && (old(unsaid) ==> unsaid) && faults >= old(faults)
      ensures book.first == old(book.first) && (book.log == old(book.log) || book.log == old(book.log) + Marked(after, None))
      ensures book.calm == old(book.calm)
      ensures after == [] ==> disk == old(disk) && book == old(book)
      ensures disk.dirs == old(disk.dirs) && disk.archives == old(disk.archives)
      ensures r.Ok? ==> r.value != RESTORE_FAILED
      ensures r != Struck(Refused)
      ensures faults == old(faults) && pending.None? ==> r == if failure then Struck(OsError) else Ok(if read then Verdict(reading) else VOID)
      ensures r.Ok? && r.value < 128 && r.value != VOID ==> read && !failure && r.value == Verdict(reading)
      ensures r == Ok(0) ==> again == Some(old(disk.files))
      ensures faults == old(faults) && pending.None? ==> disk.files == if failure || !read then old(disk.files) else Edited(old(disk.files), after)
      ensures failure || !read ==> book.log == old(book.log)
      ensures old(pending).Some? || still ==> pending == old(pending)
      ensures faults == old(faults) && pending.None? && !failure && read ==> book.log == old(book.log) + Marked(after, None)
    {
      if failure { return Struck(OsError); }
      var stop := Interrupted();
      var said := Say();
      if said.Some? { return Struck(said.value); }
      if stop { return Ok(128 + pending.value); }
      if !read { return Ok(VOID); }
      stop := Interrupted();
      if stop { return Ok(128 + pending.value); }
      if reading.Red? { again := Some(disk.files); }
      ApplyAll(after, None);
      said := Say();
      return if said.Some? then Struck(said.value) else Ok(Verdict(reading));
    }

    /** The system does as it is told but for one overwrite that is cut off, and nothing can be said. */
    ghost predicate Unheard(original: Bytes, mutated: Bytes)
      reads this`still, this`deaf, this`tear
    {
      still && deaf && tear.Some? && tear.value != original && tear.value != mutated
    }

    /** The tests were run over the mutation of the file, nothing else being changed, and a red result was confirmed over
        what is left once the original is back. */
    ghost predicate Confirmed(files: map<Path, Bytes>, src: Path, mutated: Bytes, during: seq<Edit>, code: int)
      requires src in files
      reads this`found, this`again
    {
      && found == Some(files[src := mutated])
      && (code == 0 ==> again == Some(Edited(files[src := mutated], during)[src := files[src]]))
    }

    method MutBody(src: Path, admitted: bool, inject: Bytes -> Option<Bytes>, during: seq<Edit>, raises: bool, after: seq<Edit>, reading: Reading) returns (r: Result<int>)
      requires Sound(disk, book)
      modifies this`disk, this`faults, this`book, this`pending, this`unsaid, this`found, this`again
      ensures Sound(disk, book) && (old(unsaid) ==> unsaid) && faults >= old(faults)
      ensures book.first == old(book.first) && Took(old(book.log), book.log, during, after, Mine(old(disk.files), src, inject))
      ensures book.calm == (old(book.calm) && (during == [] || book.log == old(book.log)))
      ensures !old(Open(disk)) && admitted && Mine(old(disk.files), src, inject).Some? && faults == old(faults) && pending.None? ==>
        book.log == old(book.log) + Marked(during, Mine(old(disk.files), src, inject)) + (if raises || Open(disk) then [] else Marked(after, None))
      ensures faults == old(faults) && pending.None? && !(!old(Open(disk)) && admitted && Mine(old(disk.files), src, inject).Some?) ==>
        disk.files == old(disk.files) && r == (if !old(Open(disk)) && admitted && src in old(disk.files) then Ok(VOID) else Struck(Refused))
      ensures !old(Open(disk)) && admitted && Mine(old(disk.files), src, inject).Some? && faults == old(faults) && pending.None? ==>
        var ends := Ends(old(disk.files), src, Mine(old(disk.files), src, inject).value.content, during, raises, after, reading);
        disk.files == ends.0 && r == (if ends.1 == INTERNAL && raises then Struck(OsError) else Ok(ends.1)) && (Open(disk) <==> ends.1 == RESTORE_FAILED)
      ensures r.Ok? && r.value in {0, 10, 30} ==> r.value == Verdict(reading) && !old(Open(disk)) && admitted && Mine(old(disk.files), src, inject).Some?
      ensures r.Ok? && r.value in {0, 10, 30} ==>
        Confirmed(old(disk.files), src, Mine(old(disk.files), src, inject).value.content, during, r.value)
      ensures old(Open(disk)) ==> disk.files == old(disk.files) && r.Struck? && book.log == old(book.log)
      ensures !old(Open(disk)) && r.Ok? && r != Ok(RESTORE_FAILED) && during == [] && after == [] ==> disk.files == old(disk.files) && !Open(disk)
      ensures !old(Open(disk)) && r.Struck? && r != Struck(Killed) && !unsaid && during == [] && after == [] ==> disk.files == old(disk.files)
      ensures during == [] && after == [] ==> book == old(book).(swept := book.swept)
      ensures Open(disk) && old(Open(disk)) ==> disk.dirs[JOURNAL].meta == old(disk.dirs[JOURNAL].meta)
      ensures Open(disk) && !old(Open(disk)) ==>
        OfMine(disk, Mine(old(disk.files), src, inject))
      ensures !old(Open(disk)) && admitted && old(pending).None? && Mine(old(disk.files), src, inject).Some?
              && Unheard(old(disk.files)[src], Mine(old(disk.files), src, inject).value.content) ==>
        r == Struck(OsError) && disk.files == old(disk.files)[src := tear.value] && Torn(disk, src, old(disk.files)[src], Mine(old(disk.files), src, inject).value.content)
    {
      hide Sound, Marked, Ends, Edited;
      var _ :- CheckNoJournal();
      if !admitted || src !in disk.files { return Struck(Refused); }
      var f := Strike();
      if f.Some? { return Struck(f.value); }
      var original := disk.files[src];
      var mutated := inject(original);
      if mutated.None? {
        var said := Say();
        return if said.Some? then Struck(said.value) else Ok(VOID);
      }
      var stop := Interrupted();
      if stop { return Ok(128 + pending.value); }
      r := MutFrom(src, original, mutated.value, during, raises, after, reading);
    }

    /** `mut` from the journal on. */
    method MutFrom(src: Path, original: Bytes, mutated: Bytes, during: seq<Edit>, raises: bool, after: seq<Edit>, reading: Reading) returns (r: Result<int>)
      requires Sound(disk, book) && !Open(disk) && (book.swept ==> DROP !in disk.dirs)
      requires src in disk.files && disk.files[src] == original
      modifies this`disk, this`faults, this`book, this`pending, this`unsaid, this`found, this`again
      ensures Sound(disk, book) && (old(unsaid) ==> unsaid) && faults >= old(faults)
      ensures book.first == old(book.first) && Took(old(book.log), book.log, during, after, Some(Write(src, mutated)))
      ensures book.calm == (old(book.calm) && (during == [] || book.log == old(book.log)))
      ensures faults == old(faults) && pending.None? ==>
        book.log == old(book.log) + Marked(during, Some(Write(src, mutated))) + (if raises || Open(disk) then [] else Marked(after, None))
      ensures faults == old(faults) && pending.None? && DROP !in old(disk.dirs) ==>
        var ends := Ends(old(disk.files), src, mutated, during, raises, after, reading);
        disk.files == ends.0 && r == (if ends.1 == INTERNAL && raises then Struck(OsError) else Ok(ends.1)) && (Open(disk) <==> ends.1 == RESTORE_FAILED)
      ensures r.Ok? && r.value in {0, 10, 30} ==> r.value == Verdict(reading) && Confirmed(old(disk.files), src, mutated, during, r.value)
      ensures r.Ok? && r != Ok(RESTORE_FAILED) && during == [] && after == [] ==> disk.files == old(disk.files) && !Open(disk)
      ensures r.Struck? ==> r.fault != Refused
      ensures r == Struck(OsError) && !unsaid && during == [] && after == [] ==> disk.files == old(disk.files)
      ensures during == [] && after == [] ==> book == old(book).(swept := book.swept)
      ensures Open(disk) ==> OfMine(disk, Some(Write(src, mutated)))
      ensures NoTemporary(old(disk)) && old(pending).None? && Unheard(original, mutated) ==>
        r == Struck(OsError) && disk.files == old(disk.files)[src := tear.value] && Torn(disk, src, original, mutated)
    {
      hide Sound, Marked, Ends, Edited;
      var _ :- WriteJournal(src, original, mutated);
      r := Mutate(src, original, mutated, during, raises, after, reading);
    }

    /** `mut`: begun without a journal, its output coming through, it exits with any code but 2 only with
        the sources as they were; begun with one it leaves them alone. */
    method CmdMut(src: Path, admitted: bool, inject: Bytes -> Option<Bytes>, during: seq<Edit>, raises: bool, after: seq<Edit>, reading: Reading) returns (e: Exit)
      requires Sound(disk, book)
      modifies this`disk, this`faults, this`book, this`pending, this`unsaid, this`found, this`again
      ensures Sound(disk, book)
      ensures book.first == old(book.first) && Took(old(book.log), book.log, during, after, Mine(old(disk.files), src, inject))
      ensures book.calm == (old(book.calm) && (during == [] || book.log == old(book.log)))
      ensures !old(Open(disk)) && admitted && Mine(old(disk.files), src, inject).Some? && faults == old(faults) && pending.None? ==>
        book.log == old(book.log) + Marked(during, Mine(old(disk.files), src, inject)) + (if raises || Open(disk) then [] else Marked(after, None))
      ensures faults == old(faults) && pending.None? && !unsaid && !(!old(Open(disk)) && admitted && Mine(old(disk.files), src, inject).Some?) ==>
        disk.files == old(disk.files) && e == Code(if !old(Open(disk)) && admitted && src in old(disk.files) then VOID else REFUSED)
      ensures !old(Open(disk)) && admitted && Mine(old(disk.files), src, inject).Some? && faults == old(faults) && pending.None? && !unsaid ==>
        var ends := Ends(old(disk.files), src, Mine(old(disk.files), src, inject).value.content, during, raises, after, reading);
        disk.files == ends.0 && e == Code(ends.1) && (Open(disk) <==> ends.1 == RESTORE_FAILED)
      ensures !old(Open(disk)) && admitted && Mine(old(disk.files), src, inject).Some? && faults == old(faults) && pending.None? && !unsaid && during == [] && !raises ==>
        match reading
        case Red => e == Code(0)
        case Alive => e == Code(10)
        case Void => e == Code(20)
        case TimedOut => e == Code(30)
        case Scaffold => e == Code(3)
      ensures Read(e) ==> e.code == Verdict(reading) && !old(Open(disk)) && admitted && Mine(old(disk.files), src, inject).Some?
      ensures Read(e) ==>
        Confirmed(old(disk.files), src, Mine(old(disk.files), src, inject).value.content, during, e.code)
      ensures old(Open(disk)) ==> disk.files == old(disk.files) && book.log == old(book.log) && (!unsaid ==> e != Code(RESTORE_FAILED))
      ensures !old(Open(disk)) && during == [] && after == [] && !unsaid && e.Code? && e.code != RESTORE_FAILED ==> disk.files == old(disk.files)
      ensures !old(Open(disk)) && during == [] && after == [] && Read(e) ==> disk.files == old(disk.files) && !Open(disk)
      ensures during == [] && after == [] ==> book == old(book).(swept := book.swept)
      ensures Open(disk) && old(Open(disk)) ==> disk.dirs[JOURNAL].meta == old(disk.dirs[JOURNAL].meta)
      ensures Open(disk) && !old(Open(disk)) ==>
        OfMine(disk, Mine(old(disk.files), src, inject))
      ensures !old(Open(disk)) && admitted && old(pending).None? && Mine(old(disk.files), src, inject).Some?
              && Unheard(old(disk.files)[src], Mine(old(disk.files), src, inject).value.content) ==>
        disk.files == old(disk.files)[src := tear.value] && Torn(disk, src, old(disk.files)[src], Mine(old(disk.files), src, inject).value.content)
        && (e == Code(UNCAUGHT) || e == Code(UNFLUSHED))
    {
      if Mine(disk.files, src, inject).Some? { EndsRead(disk.files, src, Mine(disk.files, src, inject).value.content, after, reading); }
      hide Sound, Marked, Ends, Took, Mine, Confirmed;
      var r := MutBody(src, admitted, inject, during, raises, after, reading);
      e := Leave(r);
    }

    /** Any run of commands and outside edits, each command killed or struck anywhere, keeps the invariant and loses
        no edit: `took` are the edits each command let happen, and what the last one of a file wrote can be found
        again unless it wrote just what a mutation of that file is. */
    method Run(commands: seq<Command>) returns (exits: seq<Exit>, ghost took: seq<seq<Edit>>, ghost disks: seq<Disk>)
      requires Sound(disk, book)
      modifies this`disk, this`faults, this`book, this`pending, this`unsaid, this`found, this`again
      ensures Sound(disk, book) && |exits| == |commands| && |disks| == |commands| + 1 && disks[0] == old(disk) && disks[|commands|] == disk
      ensures forall i :: 0 <= i < |commands| ==> Tells(commands[i], disks[i], disks[i + 1], exits[i])
      ensures book.first == old(book.first) && Entered(old(disk), old(book.log), book.log, commands, took)
      ensures forall f :: NotLost(disk, book, f)
      ensures (forall c :: c in commands ==> Quiet(c)) ==> book == old(book).(swept := book.swept)
      ensures (book.calm ==> old(book.calm)) && ((forall c :: c in commands ==> Apart(c)) ==> book.calm == old(book.calm))
      ensures old(OpenInTree(root, disk)) && (forall c :: c in commands ==> Inside(root, c)) ==> OpenInTree(root, disk)
    {
      hide Sound, Own, Entered, Mutation, Tells;
      exits, took, disks := [], [], [disk];
      EnteredFirst(disk, book.log);
      assert commands[..0] == [];
      for i := 0 to |commands|
        invariant Sound(disk, book) && |exits| == i && book.first == old(book.first)
        invariant |disks| == i + 1 && disks[0] == old(disk) && disks[i] == disk
        invariant forall k :: 0 <= k < i ==> Tells(commands[k], disks[k], disks[k + 1], exits[k])
        invariant Entered(old(disk), old(book.log), book.log, commands[..i], took)
        invariant forall e :: Own(disk, e) ==> Mutation(old(disk), commands[..i], e)
        invariant (forall c :: c in commands ==> Quiet(c)) ==> book == old(book).(swept := book.swept)
        invariant (book.calm ==> old(book.calm)) && ((forall c :: c in commands ==> Apart(c)) ==> book.calm == old(book.calm))
        invariant old(OpenInTree(root, disk)) && (forall c :: c in commands ==> Inside(root, c)) ==> OpenInTree(root, disk)
      {
        assert commands[i] in commands && commands[..i + 1] == commands[..i] + [commands[i]];
        label next:
        var e, es := Do(commands[i]);
        MutationOn(old(disk), old@next(disk), commands[..i], commands[i]);
        EnteredOn(old(disk), old(book.log), old@next(disk), old@next(book.log), book.log, commands[..i], took, commands[i], es);
        exits, took, disks := exits + [e], took + [es], disks + [disk];
      }
      assert commands[..|commands|] == commands;
      forall f ensures NotLost(disk, book, f) { NoEditIsLost(disk, book, f); }
    }

    /** One command or outside edit, from its start; the edits it lets happen, and what is entered about them. */
    method Do(c: Command) returns (e: Exit, ghost es: seq<Edit>)
      requires Sound(disk, book)
      modifies this`disk, this`faults, this`book, this`pending, this`unsaid, this`found, this`again
      ensures Sound(disk, book) && book.first == old(book.first) && Entered(old(disk), old(book.log), book.log, [c], [es])
      ensures forall e :: Own(disk, e) ==> Mutation(old(disk), [c], e)
      ensures Tells(c, old(disk), disk, e)
      ensures Quiet(c) ==> book == old(book).(swept := book.swept)
      ensures (book.calm ==> old(book.calm)) && (Apart(c) ==> book.calm == old(book.calm))
      ensures old(OpenInTree(root, disk)) && Inside(root, c) ==> OpenInTree(root, disk)
    {
      e, es, pending, unsaid := Code(0), [], None, false;
      hide Sound, Entered, Own, Confirmed, Ends;
      match c {
        case Mut(_, _, _, _, _, _, _) => e, es := DoMut(c);
        case Baseline(green) =>
          e := CmdBaseline(green);
          EnteredNone(old(disk), book.log, c);
          SameMeta(root, old(disk), old(book), disk);
        case Recover =>
          e := CmdRecover();
          EnteredNone(old(disk), book.log, c);
          SameMeta(root, old(disk), old(book), disk);
        case Outside(edit) =>
          Apply(edit);
          EnteredOne(old(disk), old(book.log), edit);
          es := [edit];
          SameMeta(root, old(disk), old(book), disk);
      }
    }

    method DoMut(c: Command) returns (e: Exit, ghost es: seq<Edit>)
      requires Sound(disk, book) && c.Mut?
      modifies this`disk, this`faults, this`book, this`pending, this`unsaid, this`found, this`again
      ensures Sound(disk, book) && book.first == old(book.first) && Entered(old(disk), old(book.log), book.log, [c], [es])
      ensures forall e :: Own(disk, e) ==> Mutation(old(disk), [c], e)
      ensures Tells(c, old(disk), disk, e)
      ensures Quiet(c) ==> book == old(book).(swept := book.swept)
      ensures (book.calm ==> old(book.calm)) && (Apart(c) ==> book.calm == old(book.calm))
      ensures old(OpenInTree(root, disk)) && Inside(root, c) ==> OpenInTree(root, disk)
    {
      hide Sound, Own, Entered, Took, Confirmed, Ends, Mine;
      e := CmdMut(c.src, c.admitted, c.inject, c.during, c.raises, c.after, c.reading);
      es := MutTook(old(book.log), book.log, old(disk), c);
      MutOpens(old(disk), old(book), disk, c);
    }

    /** After any run, wherever its processes were killed or refused, no edit is lost by a recovery that the system lets
        through, and unless somebody edited under an open journal it puts every file back to what was left in it; a
        journal is left exactly where it cannot be renamed, and the exit code says so. */
    method CrashAndRecover(commands: seq<Command>) returns (exits: seq<Exit>, ghost took: seq<seq<Edit>>, e: Exit)
      requires Sound(disk, book) && OpenInTree(root, disk)
      requires forall c :: c in commands ==> Inside(root, c)
      modifies this
      ensures |exits| == |commands| && book.first == old(book.first) && Entered(old(disk), old(book.log), book.log, commands, took)
      ensures forall f :: NotLost(disk, book, f)
      ensures book.calm ==> disk.files == book.Left() && (Open(disk) <==> Blocked(disk)) && e == Code(if Open(disk) then INTERNAL else 0)
      ensures book.calm && book.swept ==> !Open(disk)
      ensures (book.calm ==> old(book.calm)) && ((forall c :: c in commands ==> Apart(c)) ==> book.calm == old(book.calm))
      ensures (forall c :: c in commands ==> Quiet(c)) ==> book == old(book).(swept := book.swept)
    {
      ghost var disks;
      exits, took, disks := Run(commands);
      still, deaf, tear, pending, unsaid := true, false, None, None, false;
      e := CmdRecover();
      forall f ensures NotLost(disk, book, f) { NoEditIsLost(disk, book, f); }
    }
  }

  /** One overwrite is cut off, as where a disk is full, and nothing can be said either: `mut` ends with the code of a
      refusal, or that of output not flushed, over a source that is neither the original nor the mutation, and no
      recovery that cannot speak puts it back. */
  method TornAndUnsaid(root: Path, src: Path, original: Bytes, mutated: Bytes, torn: Bytes) returns (tree: Tree, e: Exit, e': Exit)
    requires InTree(root, src) && original != torn && mutated != torn
    ensures e in {Code(UNCAUGHT), Code(UNFLUSHED)} && e' in {Code(UNCAUGHT), Code(UNFLUSHED)}
    ensures fresh(tree) && tree.disk.files == map[src := torn] && Open(tree.disk)
  {
    hide Sound, Ours, Foreign, Recoverable;
    tree := new Tree(root, map[src := original]);
    assert Mine(tree.disk.files, src, _ => Some(mutated)) == Some(Write(src, mutated));
    tree.still, tree.deaf, tree.tear := true, true, Some(torn);
    e := tree.CmdMut(src, true, _ => Some(mutated), [], false, [], Red);
    assert tree.disk.files == map[src := torn];
    TornIsForeign(root, tree.disk, src, original, mutated);
    tree.pending, tree.unsaid := None, false;
    e' := tree.CmdRecover();
  }
}
