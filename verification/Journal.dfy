/**
  The crash protocol of `docs/agent/mutate.py`: a source file is overwritten in
  place under a journal, and any process may be killed, or refused by the
  operating system, at any of its file operations.

  Every file operation is a method of `Worktree` that may strike a fault; a
  fault leaves the target half done.  `Sound` is what each command keeps
  whatever happened to it, so it holds wherever a process is killed.  The
  `Book` is bookkeeping outside the tool: what somebody other than the tool
  last left in each file.
*/
module Journal {
  import opened Prelude

  newtype Byte = b: int | 0 <= b < 256
  type Bytes = seq<Byte>
  type Path = string
  type Name = string

  /** SHA-256 taken to be free of collisions: two digests are equal iff the data are. */
  datatype Digest = Sha(data: Bytes)

  /** `meta.json`: not there, cut off while it was written, or whole. */
  datatype MetaFile = NoMeta | Garbled | Meta(path: Path, originalSha: Digest, mutatedSha: Digest)

  /** A journal directory, under its formal or a temporary name. */
  datatype Dir = Dir(bak: Option<Bytes>, meta: MetaFile, writing: bool)

  const NEW_DIR := Dir(None, NoMeta, false)

  /** The source files, and what the tool keeps in the git directory. */
  datatype Disk = Disk(files: map<Path, Bytes>, dirs: map<Name, Dir>, archives: map<Name, Bytes>)

  const JOURNAL: Name := "mutate-inflight"
  const TMP: Name := JOURNAL + ".tmp-"
  const DROP: Name := JOURNAL + ".tmp-drop"

  /** What somebody else does to a file. */
  datatype Edit = Write(path: Path, content: Bytes) | Delete(path: Path)

  /** An edit as it was made, and whether it wrote just the mutation then in force. */
  datatype Entry = Entry(edit: Edit, own: bool)

  /** The last entry about a file. */
  function LastOf(log: seq<Entry>, f: Path): Option<Entry> {
    if log == [] then None
    else if log[|log| - 1].edit.path == f then Some(log[|log| - 1])
    else LastOf(log[..|log| - 1], f)
  }

  /** What others than the tool did: what the files were at first, and every edit
      since; whether no file was edited while a journal was open; whether no removal error was ignored. */
  datatype Book = Book(first: map<Path, Bytes>, log: seq<Entry>, calm: bool, swept: bool) {
    /** The last content others left in each file. */
    ghost function Left(): map<Path, Bytes> { LeftBy(first, log) }
    /** The files where that was just the mutation. */
    ghost function Excused(): set<Path> { ExcusedBy(log) }
  }

  ghost function LeftBy(first: map<Path, Bytes>, log: seq<Entry>): map<Path, Bytes> {
    if log == [] then first
    else
      var before := LeftBy(first, log[..|log| - 1]);
      match log[|log| - 1].edit case Write(f, c) => before[f := c] case Delete(f) => before - {f}
  }

  ghost function ExcusedBy(log: seq<Entry>): set<Path> {
    if log == [] then {}
    else
      var last := log[|log| - 1];
      if last.own then ExcusedBy(log[..|log| - 1]) + {last.edit.path} else ExcusedBy(log[..|log| - 1]) - {last.edit.path}
  }

  /** What is left in a file is what the last entry about it says, and what it was at first if there is none. */
  lemma {:induction false} LeftIs(first: map<Path, Bytes>, log: seq<Entry>, f: Path)
    ensures match LastOf(log, f)
      case None => (f in LeftBy(first, log) <==> f in first) && (f in first ==> LeftBy(first, log)[f] == first[f]) && f !in ExcusedBy(log)
      case Some(e) => (f in LeftBy(first, log) <==> e.edit.Write?) && (e.edit.Write? ==> LeftBy(first, log)[f] == e.edit.content)
                      && (f in ExcusedBy(log) <==> e.own)
    decreases |log|
  {
    if log != [] { LeftIs(first, log[..|log| - 1], f); }
  }

  // ---------------------------------------------------------------- invariant

  predicate Open(d: Disk) { JOURNAL in d.dirs }

  /** The formal journal can be read back: `bak`, `meta.json`, and the first is what the second says. */
  predicate Complete(j: Dir) {
    j.bak.Some? && j.meta.Meta? && j.meta.originalSha == Sha(j.bak.value)
  }

  /** The journal is open on file `f`. */
  predicate OpenOn(d: Disk, f: Path) {
    Open(d) && Complete(d.dirs[JOURNAL]) && d.dirs[JOURNAL].meta.path == f
  }

  /** The file an open journal is about. */
  function JournalPath(d: Disk): Path
    requires Open(d)
  {
    if d.dirs[JOURNAL].meta.Meta? then d.dirs[JOURNAL].meta.path else ""
  }

  /** Content `c` of file `f` is safe: archived, backed up, or still in the file and not taken for the mutation. */
  ghost predicate Safe(d: Disk, f: Path, c: Bytes) {
    || c in d.archives.Values
    || (OpenOn(d, f) && d.dirs[JOURNAL].bak.value == c)
    || (f in d.files && d.files[f] == c && !(OpenOn(d, f) && d.dirs[JOURNAL].meta.mutatedSha == Sha(c)))
  }

  /** No file differs from what was left in it, but the one under the journal,
      which is the original, the mutation, or marked as being written. */
  ghost predicate Pristine(d: Disk, left: map<Path, Bytes>) {
    if !Open(d) then d.files == left
    else
      var j := d.dirs[JOURNAL];
      && Complete(j)
      && j.meta.path in left && left[j.meta.path] == j.bak.value
      && j.meta.path in d.files
      && d.files == left[j.meta.path := d.files[j.meta.path]]
      && (d.files[j.meta.path] == j.bak.value || Sha(d.files[j.meta.path]) == j.meta.mutatedSha || j.writing)
  }

  ghost predicate Sound(d: Disk, b: Book) {
    && (Open(d) ==> Complete(d.dirs[JOURNAL]))
    && (b.swept ==> !(Open(d) && DROP in d.dirs))
    && (forall f :: f in b.Left() && f !in b.Excused() ==> Safe(d, f, b.Left()[f]))
    && (b.calm ==> Pristine(d, b.Left()))
  }

  /** The edit writes just the mutation in force. */
  predicate Own(d: Disk, e: Edit) {
    e.Write? && OpenOn(d, e.path) && d.dirs[JOURNAL].meta.mutatedSha == Sha(e.content)
  }

  function Changed(files: map<Path, Bytes>, e: Edit): map<Path, Bytes> {
    match e case Write(f, c) => files[f := c] case Delete(f) => files - {f}
  }

  /** What an outside edit makes of the book. */
  ghost function Noted(d: Disk, b: Book, e: Edit): Book {
    b.(log := b.log + [Entry(e, Own(d, e))], calm := b.calm && !Open(d))
  }

  /** Content `c` of file `f` can be found again: in the file, in the journal's `bak`, or in an archive. */
  predicate Preserved(d: Disk, f: Path, c: Bytes) {
    || (f in d.files && d.files[f] == c)
    || (OpenOn(d, f) && d.dirs[JOURNAL].bak == Some(c))
    || c in d.archives.Values
  }

  // ------------------------------------------------------------------ recover

  /** The content of `f` is one `restore` takes for its own: the original, the mutation, or a marked half write. */
  predicate Ours(d: Disk)
    requires Open(d) && Complete(d.dirs[JOURNAL])
  {
    var j := d.dirs[JOURNAL];
    && j.meta.path in d.files
    && (d.files[j.meta.path] == j.bak.value || Sha(d.files[j.meta.path]) == j.meta.mutatedSha || j.writing)
  }

  /** The content that has to be archived before it is overwritten: a marked half write that is neither known content. */
  predicate Foreign(d: Disk)
    requires Open(d) && Complete(d.dirs[JOURNAL]) && Ours(d)
  {
    var j := d.dirs[JOURNAL];
    d.files[j.meta.path] != j.bak.value && Sha(d.files[j.meta.path]) != j.meta.mutatedSha
  }

  /** A file that a recovery may write to. */
  predicate InTree(root: Path, f: Path) { root + "/" <= f }

  predicate OpenInTree(root: Path, d: Disk) {
    Open(d) ==> InTree(root, JournalPath(d))
  }

  /** An undisturbed recovery of this disk succeeds. */
  predicate Recoverable(root: Path, d: Disk) {
    Open(d) ==> Complete(d.dirs[JOURNAL]) && InTree(root, d.dirs[JOURNAL].meta.path) && Ours(d)
  }

  /** A drop target that is not empty is left over: the journal cannot be renamed to it. */
  predicate Blocked(d: Disk) {
    Open(d) && DROP in d.dirs && d.dirs[DROP] != NEW_DIR
  }

  /** The journaled file is the original again, foreign bytes were archived, and
      the journal is gone; where it is blocked it stays, the marker only if nothing was written. */
  ghost predicate PutBack(d: Disk, d': Disk)
    requires Open(d) && Complete(d.dirs[JOURNAL]) && Ours(d)
  {
    var j := d.dirs[JOURNAL];
    && d'.files == d.files[j.meta.path := j.bak.value]
    && d'.dirs == (if Blocked(d) then d.dirs[JOURNAL := j.(writing := j.writing && d.files[j.meta.path] == j.bak.value)] else d.dirs - {JOURNAL, DROP})
    && d.archives.Values <= d'.archives.Values
    && (if Foreign(d) then d.files[j.meta.path] in d'.archives.Values else d'.archives == d.archives)
  }

  /** What an undisturbed recovery must have done to the disk. */
  ghost predicate Recovered(root: Path, d: Disk, d': Disk) {
    if Open(d) && Recoverable(root, d) then PutBack(d, d') else d' == d
  }

  /** Unless somebody edited under an open journal, an undisturbed recovery puts
      every file back to what was left in it if and only if the journaled file
      lies inside the tree or never changed, and ends with no journal if and
      only if there was none or it lies inside the tree and is not blocked. */
  lemma RecoveryRestores(root: Path, d: Disk, d': Disk, b: Book)
    requires Sound(d, b) && b.calm && Recovered(root, d, d')
    ensures Recoverable(root, d) <==> OpenInTree(root, d)
    ensures d'.files == b.Left() <==> Recoverable(root, d) || d.files == b.Left()
    ensures Recoverable(root, d) && !Blocked(d) <==> !Open(d')
    ensures !Recoverable(root, d) ==> d' == d
  {
    if Open(d) && Recoverable(root, d) {
      assert d'.files == b.Left();
    }
  }

  /** A blocked journal stays, however often it is recovered: the file is put back once, and nothing changes after that. */
  lemma BlockedStays(root: Path, d: Disk, d': Disk, d'': Disk)
    requires Blocked(d) && Recoverable(root, d) && Recovered(root, d, d') && Recovered(root, d', d'')
    ensures Blocked(d') && Recoverable(root, d') && d'' == d'
  {
    var j := d.dirs[JOURNAL];
    assert d'.files[j.meta.path] == j.bak.value;
    assert d'.files[j.meta.path := j.bak.value] == d'.files && d'.dirs[JOURNAL := d'.dirs[JOURNAL]] == d'.dirs;
  }

  const BLOCKED := Disk(map["/a/lib.rs" := [2]],
                        map[JOURNAL := Dir(Some([1]), Meta("/a/lib.rs", Sha([1]), Sha([2])), false),
                            DROP := Dir(Some([0]), NoMeta, false)],
                        map[])
  const BLOCKED_BOOK := Book(map["/a/lib.rs" := [1]], [], true, false)

  /** A mutation killed inside the tree, with what an ignored removal error left
      under the drop name: every recovery restores the file and none ends with no journal. */
  lemma BlockedIsNotDropped(d': Disk)
    requires Recovered("/a", BLOCKED, d')
    ensures Sound(BLOCKED, BLOCKED_BOOK) && BLOCKED_BOOK.calm && Blocked(BLOCKED) && OpenInTree("/a", BLOCKED)
    ensures d'.files == BLOCKED_BOOK.Left() && Open(d') && Blocked(d')
  {
    Names();
    assert "/a" + "/" == "/a/lib.rs"[..3];
    assert Safe(BLOCKED, "/a/lib.rs", [1]);
    assert BLOCKED.files == BLOCKED_BOOK.Left()["/a/lib.rs" := [2]];
    RecoveryRestores("/a", BLOCKED, d', BLOCKED_BOOK);
  }

  const STRAY := Disk(map["/b/lib.rs" := [2]],
                      map[JOURNAL := Dir(Some([1]), Meta("/b/lib.rs", Sha([1]), Sha([2])), false)],
                      map[])
  const STRAY_BOOK := Book(map["/b/lib.rs" := [1]], [], true, true)

  /** `mut` does not ask whether the file lies inside the tree: a mutation
      killed on a file outside it is left in place by every recovery. */
  lemma StrayIsNotRecovered(d': Disk)
    requires Recovered("/a", STRAY, d')
    ensures Sound(STRAY, STRAY_BOOK) && STRAY_BOOK.calm && Open(STRAY)
    ensures STRAY.files != STRAY_BOOK.Left() && d' == STRAY
  {
    assert ("/a" + "/")[1] == 'a' && "/b/lib.rs"[1] == 'b';
    assert !InTree("/a", "/b/lib.rs");
    assert STRAY.files["/b/lib.rs"] != STRAY_BOOK.Left()["/b/lib.rs"];
  }

  /** The original of a journaled file is in the file or in the journal's `bak`, at every moment. */
  lemma OriginalIsKept(d: Disk, b: Book, f: Path)
    requires Sound(d, b) && b.calm && f in b.Left()
    ensures (f in d.files && d.files[f] == b.Left()[f]) || (OpenOn(d, f) && d.dirs[JOURNAL].bak == Some(b.Left()[f]))
  {
    if Open(d) {
      var p := d.dirs[JOURNAL].meta.path;
      assert d.files == b.Left()[p := d.files[p]];
    }
  }

  /** What the last edit of a file wrote is preserved, unless that was the mutation itself, and so is what a file
      nobody edited held at first. */
  predicate NotLost(d: Disk, b: Book, f: Path) {
    var last := LastOf(b.log, f);
    && (last.Some? && last.value.edit.Write? && !last.value.own ==> Preserved(d, f, last.value.edit.content))
    && (last.None? && f in b.first ==> Preserved(d, f, b.first[f]))
  }

  /** No edit is lost: what the last edit of a file wrote, unless that was the mutation itself, and what was
      in a file nobody edited, can be found again. */
  lemma NoEditIsLost(d: Disk, b: Book, f: Path)
    requires Sound(d, b)
    ensures NotLost(d, b, f)
  {
    LeftIs(b.first, b.log, f);
    if f in b.Left() && f !in b.Excused() { assert Safe(d, f, b.Left()[f]); }
  }

  // ------------------------------------------- what each kind of change keeps

  /** Changes to directories that do not touch the formal journal. */
  lemma DirsKeep(d: Disk, d': Disk, b: Book, b': Book)
    requires Sound(d, b)
    requires d'.files == d.files && d.archives.Values <= d'.archives.Values
    requires Open(d') == Open(d) && (Open(d) ==> d'.dirs[JOURNAL] == d.dirs[JOURNAL])
    requires b' == b.(swept := b'.swept) && (b'.swept ==> b.swept) && (DROP in d'.dirs && Open(d) ==> DROP in d.dirs)
    ensures Sound(d', b')
  {
    forall f | f in b'.Left() && f !in b'.Excused() ensures Safe(d', f, b'.Left()[f]) {
      assert Safe(d, f, b.Left()[f]);
    }
  }

  /** Setting or clearing the marker, once the source is content that needs none to be known again. */
  lemma MarkerKeeps(d: Disk, d': Disk, b: Book)
    requires Sound(d, b) && Open(d) && Ours(d.(dirs := d.dirs[JOURNAL := d.dirs[JOURNAL].(writing := false)]))
    requires exists w :: d' == d.(dirs := d.dirs[JOURNAL := d.dirs[JOURNAL].(writing := w)])
    ensures Sound(d', b)
  {
    forall f | f in b.Left() && f !in b.Excused() ensures Safe(d', f, b.Left()[f]) {
      assert Safe(d, f, b.Left()[f]);
    }
  }

  /** Raising the marker is sound whatever the source is. */
  lemma MarkerUpKeeps(d: Disk, d': Disk, b: Book)
    requires Sound(d, b) && Open(d)
    requires d' == d.(dirs := d.dirs[JOURNAL := d.dirs[JOURNAL].(writing := true)])
    ensures Sound(d', b)
  {
    forall f | f in b.Left() && f !in b.Excused() ensures Safe(d', f, b.Left()[f]) {
      assert Safe(d, f, b.Left()[f]);
    }
  }

  /** Under the marker anything may be written over content the tool can vouch for. */
  lemma OverwriteKeeps(d: Disk, d': Disk, b: Book, torn: Bytes)
    requires Sound(d, b) && Open(d) && d.dirs[JOURNAL].writing && Ours(d)
    requires d.files[d.dirs[JOURNAL].meta.path] in d.archives.Values || !Foreign(d)
    requires d' == d.(files := d.files[d.dirs[JOURNAL].meta.path := torn])
    ensures Sound(d', b)
  {
    forall f | f in b.Left() && f !in b.Excused() ensures Safe(d', f, b.Left()[f]) {
      assert Safe(d, f, b.Left()[f]);
    }
    if b.calm {
      var p := d.dirs[JOURNAL].meta.path;
      assert d'.files == b.Left()[p := torn];
    }
  }

  /** Giving a whole journal of an unchanged file its formal name. */
  lemma OpeningKeeps(d: Disk, d': Disk, b: Book, j: Dir)
    requires Sound(d, b) && !Open(d) && Complete(j) && !j.writing
    requires j.meta.path in d.files && d.files[j.meta.path] == j.bak.value
    requires d'.files == d.files && d'.archives == d.archives
    requires Open(d') && d'.dirs[JOURNAL] == j && (b.swept ==> DROP !in d'.dirs)
    ensures Sound(d', b)
  {
    forall f | f in b.Left() && f !in b.Excused() ensures Safe(d', f, b.Left()[f]) {
      assert Safe(d, f, b.Left()[f]);
    }
    if b.calm {
      var p := j.meta.path;
      assert d'.files == b.Left()[p := d'.files[p]];
    }
  }

  /** Taking the formal name away from the journal of a restored file. */
  lemma DroppingKeeps(d: Disk, d': Disk, b: Book)
    requires Sound(d, b) && Open(d)
    requires var j := d.dirs[JOURNAL]; j.meta.path in d.files && d.files[j.meta.path] == j.bak.value
    requires d'.files == d.files && d'.archives == d.archives && !Open(d')
    ensures Sound(d', b)
  {
    forall f | f in b.Left() && f !in b.Excused() ensures Safe(d', f, b.Left()[f]) {
      assert Safe(d, f, b.Left()[f]);
    }
    if b.calm {
      var p := d.dirs[JOURNAL].meta.path;
      assert d.files == b.Left()[p := d.files[p]];
      assert d'.files == b.Left();
    }
  }

  /** An outside write or deletion, at any moment the tool is not between reading and writing. */
  lemma EditKeeps(d: Disk, b: Book, e: Edit)
    requires Sound(d, b)
    ensures Sound(d.(files := Changed(d.files, e)), Noted(d, b, e))
  {
    var d', b' := d.(files := Changed(d.files, e)), Noted(d, b, e);
    assert b'.log[..|b.log|] == b.log;
    forall g | g in b'.Left() && g !in b'.Excused() ensures Safe(d', g, b'.Left()[g]) {
      if g != e.path { assert Safe(d, g, b.Left()[g]); }
    }
  }

  lemma Names()
    ensures TMP <= DROP && !(TMP <= JOURNAL) && DROP != JOURNAL
  {
    assert |TMP| > |JOURNAL|;
    assert DROP == TMP + "drop";
  }
}
