/**
  `CallbackChannel` of `examples/node-module/index.js`: newline-delimited JSON
  over a socket whose chunks are cut anywhere between characters, and calls
  answered by JSON-RPC 2.0 responses.
*/
module CallbackChannel {
  import opened Prelude

  /** The id member of a message, if it has one. */
  datatype MessageId = NoId | StringId(text: string) | OtherId

  /** The `error` member: none; one a `CallbackError` can be made of; or one at
      which making it throws: `null`, and an object whose `message` has no conversion to a string. */
  datatype ErrorMember = NoError | Usable | Unusable

  /** What `JSON.parse` makes of a line: nothing, `null`, or a value with these members. */
  datatype Parsed = Unparseable | JsonNull | Message(id: MessageId, error: ErrorMember, payload: string)

  /** How a call ends. */
  datatype Outcome = Resolved(payload: string) | Rejected(payload: string) | ChannelClosed

  // --------------------------------------------------------------- framing

  /** The position of the first newline, or the length. */
  function Newline(s: string): (n: nat)
    ensures n <= |s| && (n < |s| ==> s[n] == '\n') && forall k :: 0 <= k < n ==> s[k] != '\n'
  {
    if s == "" || s[0] == '\n' then 0 else 1 + Newline(s[1..])
  }

  /** The complete lines of a stream that are not empty. */
  function Lines(s: string): seq<string>
    decreases |s|
  {
    var n := Newline(s);
    if n == |s| then [] else (if n == 0 then [] else [s[..n]]) + Lines(s[n + 1..])
  }

  /** What follows the last newline. */
  function Tail(s: string): string
    decreases |s|
  {
    var n := Newline(s);
    if n == |s| then s else Tail(s[n + 1..])
  }

  lemma NewlineInFirst(a: string, b: string)
    requires Newline(a) < |a|
    ensures Newline(a + b) == Newline(a)
  {
    var n, m := Newline(a), Newline(a + b);
    assert (a + b)[n] == '\n';
    if m < n { assert a[m] == '\n'; }
  }

  /** The first line of a stream, and the rest. */
  lemma FirstLine(s: string)
    ensures Newline(s) == |s| ==> Lines(s) == [] && Tail(s) == s
    ensures Newline(s) < |s| ==> Tail(s) == Tail(s[Newline(s) + 1..])
    ensures Newline(s) < |s| ==> Lines(s) == (if Newline(s) == 0 then [] else [s[..Newline(s)]]) + Lines(s[Newline(s) + 1..])
  {
    hide Newline, Decimal, Told, AllTold, Answers, FirstAnswer, OutcomeOf, Joined;
  }

  /** Cutting a stream anywhere changes no line: the tail of the first part is all that has to be kept. */
  lemma {:induction false} LinesOfParts(a: string, b: string)
    ensures Lines(a + b) == Lines(a) + Lines(Tail(a) + b)
    ensures Tail(a + b) == Tail(Tail(a) + b)
    decreases |a|
  {
    hide Newline, Lines, Tail;
    var n := Newline(a);
    FirstLine(a);
    if n < |a| {
      NewlineInFirst(a, b);
      assert (a + b)[n + 1..] == a[n + 1..] + b && (a + b)[..n] == a[..n];
      FirstLine(a + b);
      LinesOfParts(a[n + 1..], b);
      Associative(if n == 0 then [] else [a[..n]], Lines(a[n + 1..]), Lines(Tail(a[n + 1..]) + b));
    }
  }

  lemma Associative(a: seq<string>, b: seq<string>, c: seq<string>)
    ensures (a + b) + c == a + (b + c)
  {
  }

  /** The tail holds no newline, and the stream is its lines' text before it. */
  lemma {:induction false} TailHasNoNewline(s: string)
    ensures Newline(Tail(s)) == |Tail(s)| && |Tail(s)| <= |s| && s[|s| - |Tail(s)|..] == Tail(s)
    decreases |s|
  {
    hide *;
    var n := Newline(s);
    FirstLine(s);
    if n < |s| {
      TailHasNoNewline(s[n + 1..]);
      var t := Tail(s[n + 1..]);
      assert s[n + 1..][|s| - n - 1 - |t|..] == s[|s| - |t|..];
    }
  }

  predicate OneLine(s: string) { forall k :: 0 <= k < |s| ==> s[k] != '\n' }

  /** Lines as they are written, each with its newline. */
  function Written(lines: seq<string>): string {
    if lines == [] then "" else lines[0] + "\n" + Written(lines[1..])
  }

  function NotEmpty(lines: seq<string>): seq<string> {
    if lines == [] then [] else (if lines[0] == "" then [] else [lines[0]]) + NotEmpty(lines[1..])
  }

  /** What was written comes back: the lines that are not empty, and after them what has no newline yet. */
  lemma {:induction false} LinesOfWritten(lines: seq<string>, tail: string)
    requires OneLine(tail) && forall k :: 0 <= k < |lines| ==> OneLine(lines[k])
    ensures Lines(Written(lines) + tail) == NotEmpty(lines) && Tail(Written(lines) + tail) == tail
    decreases |lines|
  {
    var s := Written(lines) + tail;
    if lines != [] {
      var n := |lines[0]|;
      assert s == lines[0] + "\n" + (Written(lines[1..]) + tail);
      assert s[n] == '\n' && s[..n] == lines[0] && s[n + 1..] == Written(lines[1..]) + tail;
      assert Newline(s) == n by { assert forall k :: 0 <= k < n ==> s[k] == lines[0][k]; }
      LinesOfWritten(lines[1..], tail);
    } else {
      assert s == tail;
    }
    FirstLine(s);
  }

  /** And every stream is lines written, and a tail. */
  lemma {:induction false} StreamIsWritten(s: string) returns (lines: seq<string>)
    ensures s == Written(lines) + Tail(s) && OneLine(Tail(s)) && forall k :: 0 <= k < |lines| ==> OneLine(lines[k])
    decreases |s|
  {
    var n := Newline(s);
    FirstLine(s);
    assert OneLine(s[..n]);
    if n == |s| {
      assert s[..n] == s;
      lines := [];
    } else {
      var rest := StreamIsWritten(s[n + 1..]);
      lines := [s[..n]] + rest;
      WrittenFirst(s[..n], rest, Tail(s));
      hide *;
      Parted(s, n);
    }
  }

  lemma Parted(s: string, n: nat)
    requires n < |s| && s[n] == '\n'
    ensures s == s[..n] + "\n" + s[n + 1..]
  {
  }

  lemma WrittenFirst(line: string, lines: seq<string>, tail: string)
    ensures Written([line] + lines) + tail == line + "\n" + (Written(lines) + tail)
  {
    assert ([line] + lines)[1..] == lines;
  }

  // ------------------------------------------------------------------- ids

  function Digit(n: nat): char
    requires n < 10
  {
    "0123456789"[n]
  }

  /** `String(n)`. */
  function Decimal(n: nat): (s: string)
    ensures s != ""
  {
    if n < 10 then [Digit(n)] else Decimal(n / 10) + [Digit(n % 10)]
  }

  function ValueOf(s: string): int {
    if s == "" then 0 else 10 * ValueOf(s[..|s| - 1]) + (s[|s| - 1] as int - '0' as int)
  }

  /** What is written are decimal digits of the number, without a leading zero. */
  lemma {:induction false} DecimalMeans(n: nat)
    ensures ValueOf(Decimal(n)) == n && (forall k :: 0 <= k < |Decimal(n)| ==> '0' <= Decimal(n)[k] <= '9')
    ensures n > 0 ==> Decimal(n)[0] != '0'
    decreases n
  {
    var s := Decimal(n);
    assert s[|s| - 1] == Digit(n % 10) && Digit(n % 10) as int - '0' as int == n % 10;
    if n >= 10 {
      DecimalMeans(n / 10);
      assert s[..|s| - 1] == Decimal(n / 10);
    } else {
      assert s[..0] == "";
    }
  }

  /** Different numbers are written differently. */
  lemma {:induction false} DecimalIsUnique(m: nat, n: nat)
    requires Decimal(m) == Decimal(n)
    ensures m == n
    decreases m
  {
    var s, t := Decimal(m), Decimal(n);
    assert s[|s| - 1] == Digit(m % 10) && t[|t| - 1] == Digit(n % 10);
    assert m % 10 == n % 10;
    if m >= 10 && n >= 10 {
      assert s[..|s| - 1] == Decimal(m / 10) && t[..|t| - 1] == Decimal(n / 10);
      DecimalIsUnique(m / 10, n / 10);
    }
  }

  // ----------------------------------------------------------------- settling

  /** The calls made: those pending, how others ended, and those taken off `pending` without an end. */
  datatype Calls = Calls(pending: set<string>, settled: map<string, Outcome>, lost: set<string>)

  predicate Apart(c: Calls) { c.pending !! c.settled.Keys && c.pending !! c.lost }

  /** A message that answers the call `id`. */
  predicate Answers(msg: Parsed, id: string) { msg.Message? && msg.id == StringId(id) }

  function OutcomeOf(msg: Parsed): Outcome
    requires msg.Message?
  {
    if msg.error.NoError? then Resolved(msg.payload) else Rejected(msg.payload)
  }

  predicate AnswersPending(c: Calls, msg: Parsed) { msg.Message? && msg.id.StringId? && msg.id.text in c.pending }

  /** One message: it takes the pending call of its id, and settles it if it can; nothing else touches any. */
  function Told(c: Calls, msg: Parsed): Calls {
    if !AnswersPending(c, msg) then c
    else if msg.error.Unusable? then c.(pending := c.pending - {msg.id.text}, lost := c.lost + {msg.id.text})
    else c.(pending := c.pending - {msg.id.text}, settled := c.settled[msg.id.text := OutcomeOf(msg)])
  }

  /** The message throws out of `_onLine`. */
  predicate Throws(c: Calls, msg: Parsed) { msg.JsonNull? || (AnswersPending(c, msg) && msg.error.Unusable?) }

  /** The messages on these lines, in order. */
  function AllTold(parse: string -> Parsed, c: Calls, lines: seq<string>): Calls {
    if lines == [] then c else Told(AllTold(parse, c, lines[..|lines| - 1]), parse(lines[|lines| - 1]))
  }

  /** The first line that answers the call `id`; the number of lines if none does. */
  function FirstAnswer(parse: string -> Parsed, lines: seq<string>, id: string): (k: nat)
    ensures k <= |lines| && (k < |lines| ==> Answers(parse(lines[k]), id))
    ensures forall j :: 0 <= j < k ==> !Answers(parse(lines[j]), id)
  {
    if lines == [] || Answers(parse(lines[0]), id) then 0 else 1 + FirstAnswer(parse, lines[1..], id)
  }

  /** A pending call is taken by the first answer to its own id, and settled as
      that says or lost if that is unusable; a settled one stays as it is. */
  lemma {:induction false} ToldByFirstAnswer(parse: string -> Parsed, c: Calls, lines: seq<string>, id: string)
    requires id in c.pending ==> id !in c.settled && id !in c.lost
    ensures var after, k := AllTold(parse, c, lines), FirstAnswer(parse, lines, id);
      && (id in after.pending <==> id in c.pending && k == |lines|)
      && (id in after.settled <==> id in c.settled || (id in c.pending && k < |lines| && !parse(lines[k]).error.Unusable?))
      && (id in after.lost <==> id in c.lost || (id in c.pending && k < |lines| && parse(lines[k]).error.Unusable?))
      && (id in c.settled ==> after.settled[id] == c.settled[id])
      && (id in c.pending && k < |lines| && parse(lines[k]).error.NoError? ==> after.settled[id] == Resolved(parse(lines[k]).payload))
      && (id in c.pending && k < |lines| && parse(lines[k]).error.Usable? ==> after.settled[id] == Rejected(parse(lines[k]).payload))
    decreases |lines|
  {
    if lines != [] {
      var init := lines[..|lines| - 1];
      ToldByFirstAnswer(parse, c, init, id);
      FirstOfMore(parse, lines, id);
    }
  }

  /** The first line that throws; the number of lines if none does. */
  function FirstThrow(parse: string -> Parsed, c: Calls, lines: seq<string>): (k: nat)
    ensures k <= |lines|
  {
    if lines == [] then 0
    else
      var n := |lines| - 1;
      var k := FirstThrow(parse, c, lines[..n]);
      if k < n then k else if Throws(AllTold(parse, c, lines[..n]), parse(lines[n])) then n else n + 1
  }

  /** Line `k` is `null`, or the first answer to a pending call, with an error that is unusable. */
  predicate Fatal(parse: string -> Parsed, c: Calls, lines: seq<string>, k: nat)
    requires k < |lines|
  {
    var msg := parse(lines[k]);
    msg.JsonNull? || (AnswersPending(c, msg) && msg.error.Unusable? && FirstAnswer(parse, lines, msg.id.text) == k)
  }

  /** The first line that throws is the first that is fatal. */
  lemma {:induction false} FirstThrowMeans(parse: string -> Parsed, c: Calls, lines: seq<string>)
    requires Apart(c)
    ensures var k := FirstThrow(parse, c, lines);
      (k < |lines| ==> Fatal(parse, c, lines, k)) && forall j :: 0 <= j < k ==> !Fatal(parse, c, lines, j)
    decreases |lines|
  {
    if lines != [] {
      var n := |lines| - 1;
      FirstThrowMeans(parse, c, lines[..n]);
      forall j | 0 <= j < n ensures Fatal(parse, c, lines, j) == Fatal(parse, c, lines[..n], j) { FatalInFirst(parse, c, lines, j); }
      LastFatal(parse, c, lines);
    }
  }

  lemma FatalInFirst(parse: string -> Parsed, c: Calls, lines: seq<string>, j: nat)
    requires j < |lines| - 1
    ensures Fatal(parse, c, lines, j) == Fatal(parse, c, lines[..|lines| - 1], j)
  {
    var msg := parse(lines[j]);
    if msg.Message? && msg.id.StringId? { FirstOfMore(parse, lines, msg.id.text); }
  }

  lemma LastFatal(parse: string -> Parsed, c: Calls, lines: seq<string>)
    requires lines != [] && Apart(c)
    ensures var n := |lines| - 1; Throws(AllTold(parse, c, lines[..n]), parse(lines[n])) == Fatal(parse, c, lines, n)
  {
    var msg := parse(lines[|lines| - 1]);
    if msg.Message? && msg.id.StringId? {
      FirstOfMore(parse, lines, msg.id.text);
      ToldByFirstAnswer(parse, c, lines[..|lines| - 1], msg.id.text);
    }
  }

  lemma {:induction false} FirstThrowInPrefix(parse: string -> Parsed, c: Calls, lines: seq<string>, n: nat)
    requires n <= |lines| && FirstThrow(parse, c, lines[..n]) < n
    ensures FirstThrow(parse, c, lines) == FirstThrow(parse, c, lines[..n])
    decreases |lines|
  {
    if n == |lines| {
      assert lines[..n] == lines;
    } else {
      assert lines[..|lines| - 1][..n] == lines[..n];
      FirstThrowInPrefix(parse, c, lines[..|lines| - 1], n);
    }
  }

  lemma {:induction false} FirstThrowOn(parse: string -> Parsed, c: Calls, a: seq<string>, b: seq<string>)
    requires FirstThrow(parse, c, a) == |a|
    ensures FirstThrow(parse, c, a + b) == |a| + FirstThrow(parse, AllTold(parse, c, a), b)
    decreases |b|
  {
    if b == [] {
      assert a + b == a;
    } else {
      var init := b[..|b| - 1];
      FirstThrowOn(parse, c, a, init);
      ToldOn(parse, c, a, init);
      assert (a + b)[..|a + b| - 1] == a + init;
    }
  }

  /** The lines told are all of them, or those up to and with the first that is fatal, and then it has thrown. */
  ghost predicate HandedOn(parse: string -> Parsed, c: Calls, lines: seq<string>, told: seq<string>, thrown: bool) {
    && (thrown <==> exists k :: 0 <= k < |lines| && Fatal(parse, c, lines, k))
    && (!thrown ==> told == lines)
    && (thrown ==> told != [] && told <= lines && Fatal(parse, c, lines, |told| - 1) && forall k :: 0 <= k < |told| - 1 ==> !Fatal(parse, c, lines, k))
  }

  /** What was told ends at the first line that throws. */
  lemma StoppedThere(parse: string -> Parsed, c: Calls, lines: seq<string>, told: seq<string>, thrown: bool)
    requires Apart(c)
    requires thrown == (FirstThrow(parse, c, lines) < |lines|)
    requires told == lines[..if thrown then FirstThrow(parse, c, lines) + 1 else |lines|]
    ensures HandedOn(parse, c, lines, told, thrown)
  {
    FirstThrowMeans(parse, c, lines);
  }

  /** The other way round: that is where the first line that throws is. */
  lemma StopsThere(parse: string -> Parsed, c: Calls, lines: seq<string>, told: seq<string>, thrown: bool)
    requires Apart(c) && HandedOn(parse, c, lines, told, thrown)
    ensures FirstThrow(parse, c, lines) == if thrown then |told| - 1 else |lines|
  {
    FirstThrowMeans(parse, c, lines);
  }

  /** A call answered with `"error": null` is neither pending nor settled, and the channel has thrown. */
  lemma NullErrorIsLost(parse: string -> Parsed, line: string)
    requires parse(line) == Message(StringId("1"), Unusable, "null")
    ensures var c := Calls({"1"}, map[], {});
      && AllTold(parse, c, [line]) == Calls({}, map[], {"1"})
      && FirstThrow(parse, c, [line]) == 0
  {
    var c := Calls({"1"}, map[], {});
    assert [line][..0] == [] && AllTold(parse, c, []) == c;
    assert AllTold(parse, c, [line]) == Told(c, parse(line));
    assert FirstThrow(parse, c, [line][..0]) == 0;
  }

  lemma FirstOfMore(parse: string -> Parsed, lines: seq<string>, id: string)
    requires lines != []
    ensures var n := |lines| - 1;
      FirstAnswer(parse, lines, id) ==
      (if FirstAnswer(parse, lines[..n], id) < n then FirstAnswer(parse, lines[..n], id)
       else if Answers(parse(lines[n]), id) then n else n + 1)
  {
    var n := |lines| - 1;
    var (j, k) := (FirstAnswer(parse, lines[..n], id), FirstAnswer(parse, lines, id));
    assert k < n ==> lines[..n][k] == lines[k];
    assert j < n ==> lines[..n][j] == lines[j];
    assert forall i :: 0 <= i < n ==> lines[..n][i] == lines[i];
  }

  // --------------------------------------------------------------- the channel

  class Channel {
    const parse: string -> Parsed
    var buffer: string
    var nextId: nat
    var pending: set<string>
    var closed: bool
    /** Something thrown out of `_onLine` was caught by nothing. */
    var crashed: bool
    /** Everything received, every line handed on, how each settled call ended, and the calls taken off `pending` without an end. */
    ghost var received: string
    ghost var handed: seq<string>
    ghost var settled: map<string, Outcome>
    ghost var lost: set<string>

    constructor (parse: string -> Parsed)
      ensures Valid() && this.parse == parse && received == "" && handed == [] && nextId == 1 && pending == {} && !crashed && !closed
      ensures buffer == "" && settled == map[] && lost == {}
    {
      this.parse := parse;
      buffer, nextId, pending, closed, crashed := "", 1, {}, false, false;
      received, handed, settled, lost := "", [], map[], {};
    }

    /** The call with this id was made. */
    ghost predicate Issued(id: string)
      reads this`nextId
    {
      exists n: nat :: 1 <= n < nextId && Decimal(n) == id
    }

    ghost function State(): Calls
      reads this`pending, this`settled, this`lost
    {
      Calls(pending, settled, lost)
    }

    /** Every call made is pending, settled or lost, and no two of these; one is
        lost only if the channel has thrown; once it is closed none is pending. */
    ghost predicate Valid()
      reads this`nextId, this`pending, this`settled, this`lost, this`closed, this`crashed
    {
      && nextId >= 1
      && pending !! settled.Keys && pending !! lost && lost !! settled.Keys
      && (forall id :: id in pending || id in settled || id in lost <==> Issued(id))
      && (!crashed ==> lost == {}) && |lost| <= 1
      && (closed ==> pending == {})
    }

    /** `call`: its request goes out under an id of its own, or it is rejected at once. */
    method Call() returns (id: Option<string>)
      requires Valid()
      modifies this`nextId, this`pending
      ensures Valid()
      ensures id.None? <==> closed
      ensures closed ==> unchanged(this)
      ensures !closed ==> id == Some(Decimal(old(nextId))) && nextId == old(nextId) + 1 && !old(Issued(id.value))
      ensures !closed ==> Decimal(old(nextId)) !in old(pending) && pending == old(pending) + {Decimal(old(nextId))}
    {
      if closed { return None; }
      FreshId();
      hide Decimal;
      id := Some(Decimal(nextId));
      pending := pending + {Decimal(nextId)};
      nextId := nextId + 1;
      forall x ensures Issued(x) <==> old(Issued(x)) || x == Decimal(nextId - 1) {
        assert x == Decimal(nextId - 1) ==> 1 <= nextId - 1 < nextId;
      }
    }

    lemma FreshId()
      requires Valid()
      ensures !Issued(Decimal(nextId))
    {
      hide Decimal;
      if n: nat :| 1 <= n < nextId && Decimal(n) == Decimal(nextId) { DecimalIsUnique(n, nextId); }
    }

    /** `_onLine`: a response settles the pending call of its id, and nothing else
        settles any; it throws at `null` and at an unusable error for a pending call, which is then lost. */
    method OnLine(line: string)
      requires Valid() && !crashed
      modifies this`pending, this`settled, this`lost, this`crashed
      ensures Valid() && State() == Told(old(State()), parse(line))
      ensures crashed <==> Throws(old(State()), parse(line))
      ensures var msg := parse(line);
        if msg.Message? && msg.id.StringId? && msg.id.text in old(pending) then
          pending == old(pending) - {msg.id.text} &&
          match msg.error
          case NoError => !crashed && settled == old(settled)[msg.id.text := Resolved(msg.payload)] && lost == old(lost)
          case Usable => !crashed && settled == old(settled)[msg.id.text := Rejected(msg.payload)] && lost == old(lost)
          case Unusable => crashed && settled == old(settled) && lost == old(lost) + {msg.id.text}
        else
          State() == old(State()) && (crashed <==> msg.JsonNull?)
    {
      var msg := parse(line);
      if msg.Unparseable? { return; }
      if msg.JsonNull? {
        crashed := true;
        return;
      }
      if !msg.id.StringId? || msg.id.text !in pending { return; }
      pending := pending - {msg.id.text};
      if msg.error.Unusable? {
        crashed, lost := true, {msg.id.text};
        assert old(lost) + {msg.id.text} == lost;
      } else {
        settled := settled[msg.id.text := OutcomeOf(msg)];
      }
      forall id ensures id in pending || id in settled || id in lost <==> Issued(id) {
        assert Issued(id) == old(Issued(id));
      }
    }

    /** `_onClose`: everything pending is rejected. */
    method OnClose()
      requires Valid()
      modifies this`closed, this`pending, this`settled
      ensures Valid() && closed && pending == {}
      ensures settled == old(settled) + map id | id in old(pending) :: ChannelClosed
    {
      if closed { return; }
      closed := true;
      settled := settled + map id | id in pending :: ChannelClosed;
      pending := {};
      forall id ensures id in pending || id in settled || id in lost <==> Issued(id) {
        assert Issued(id) == old(Issued(id));
      }
    }

    /** One complete line that is not empty. */
    method HandOn(line: string, ghost before: Calls, ghost start: seq<string>, ghost all: seq<string>, ghost rest: seq<string>)
      requires Valid() && !crashed && Apart(before)
      requires Telling(parse, before, start, handed, State()) && handed + ([line] + rest) == all
      modifies this`handed, this`pending, this`settled, this`lost, this`crashed
      ensures Valid() && start <= handed <= all && handed + rest == all
      ensures State() == AllTold(parse, before, handed[|start|..])
      ensures if crashed then HandedOn(parse, before, all[|start|..], handed[|start|..], true) else Telling(parse, before, start, handed, State())
    {
      hide *;
      TellOne(parse, before, start, handed, all, State(), line, rest);
      handed := handed + [line];
      OnLine(line);
    }

    /**
      `_onData`: the lines of the whole stream are handed on in order, however it
      was cut, up to the first that is fatal, and where none is the buffer keeps
      the tail. Every line handed on has been told, and nothing else.
    */
    method OnData(chunk: string)
      requires Valid() && !crashed
      requires handed == Lines(received) && buffer == Tail(received)
      modifies this
      ensures Valid() && received == old(received) + chunk && nextId == old(nextId) && closed == old(closed)
      ensures old(handed) <= handed <= Lines(received)
      ensures HandedOn(parse, old(State()), Lines(received)[|old(handed)|..], handed[|old(handed)|..], crashed)
      ensures !crashed ==> handed == Lines(received) && buffer == Tail(received)
      ensures State() == AllTold(parse, old(State()), handed[|old(handed)|..])
    {
      LinesOfParts(received, chunk);
      Partitioned();
      hide *;
      ghost var (before, start, all) := (State(), handed, Lines(received + chunk));
      buffer := buffer + chunk;
      received := received + chunk;
      TellingBegins(parse, before, start, all, Lines(buffer));
      TakeLines(before, start, all);
    }

    /** The loop of `_onData`. */
    method TakeLines(ghost before: Calls, ghost start: seq<string>, ghost all: seq<string>)
      requires Valid() && !crashed && Apart(before)
      requires Telling(parse, before, start, handed, State()) && handed + Lines(buffer) == all
      modifies this`buffer, this`handed, this`pending, this`settled, this`lost, this`crashed
      ensures Valid() && start <= handed <= all
      ensures State() == AllTold(parse, before, handed[|start|..])
      ensures HandedOn(parse, before, all[|start|..], handed[|start|..], crashed)
      ensures !crashed ==> handed == all && buffer == Tail(old(buffer))
    {
      hide *;
      while Newline(buffer) < |buffer|
        invariant Valid() && !crashed && Telling(parse, before, start, handed, State())
        invariant handed + Lines(buffer) == all && Tail(buffer) == Tail(old(buffer))
        decreases |buffer|
      {
        var idx := Newline(buffer);
        var line := buffer[..idx];
        FirstLine(buffer);
        buffer := buffer[idx + 1..];
        if |line| > 0 {
          HandOn(line, before, start, all, Lines(buffer));
          if crashed { return; }
        }
      }
      FirstLine(buffer);
      AllTelling(parse, before, start, handed, all, State());
    }

    /**
      Any chunks, one after the other: what is told, and whether and where it
      throws, depends on the stream and not on how it was cut.
    */
    method Receive(chunks: seq<string>)
      requires Valid() && !crashed && handed == Lines(received) && buffer == Tail(received)
      modifies this
      ensures Valid() && nextId == old(nextId) && closed == old(closed)
      ensures old(handed) <= handed <= Lines(old(received) + Joined(chunks))
      ensures HandedOn(parse, old(State()), Lines(old(received) + Joined(chunks))[|old(handed)|..], handed[|old(handed)|..], crashed)
      ensures !crashed ==> received == old(received) + Joined(chunks) && handed == Lines(received) && buffer == Tail(received)
      ensures State() == AllTold(parse, old(State()), handed[|old(handed)|..])
    {
      hide *;
      ghost var (before, start) := (State(), handed);
      ghost var whole := received + Joined(chunks);
      NoneTold(parse, before);
      Partitioned();
      assert handed[|handed|..] == [];
      assert chunks[0..] == chunks;
      for i := 0 to |chunks|
        invariant Valid() && !crashed && handed == Lines(received) && buffer == Tail(received)
        invariant nextId == old(nextId) && closed == old(closed)
        invariant received + Joined(chunks[i..]) == whole
        invariant start <= handed && State() == AllTold(parse, before, handed[|start|..])
        invariant FirstThrow(parse, before, handed[|start|..]) == |handed| - |start|
      {
        ghost var (was, h, now) := (received, handed, State());
        Partitioned();
        OnData(chunks[i]);
        JoinedFirst(was, chunks, i);
        LinesOfParts(received, Joined(chunks[i + 1..]));
        StopsThere(parse, now, Lines(received)[|h|..], handed[|h|..], crashed);
        FirstThrowOn(parse, before, h[|start|..], Lines(received)[|h|..]);
        ToldOn(parse, before, h[|start|..], handed[|h|..]);
        Onwards(start, h, handed);
        if crashed {
          Onwards(start, h, Lines(received));
          ThrownBy(parse, before, start, handed, Lines(received), Lines(whole));
          return;
        }
      }
      JoinedNone(received);
      assert chunks[|chunks|..] == [];
      StoppedThere(parse, before, handed[|start|..], handed[|start|..], false);
    }

    lemma Partitioned()
      requires Valid()
      ensures Apart(State())
    {
    }
  }

  /** Between two turns: what was handed on since `start` has been told, and nothing in it throws. */
  ghost predicate Telling(parse: string -> Parsed, c: Calls, start: seq<string>, handed: seq<string>, now: Calls) {
    && start <= handed
    && now == AllTold(parse, c, handed[|start|..])
    && FirstThrow(parse, c, handed[|start|..]) == |handed| - |start|
  }

  lemma TellingBegins(parse: string -> Parsed, c: Calls, start: seq<string>, all: seq<string>, rest: seq<string>)
    requires start + rest == all
    ensures Telling(parse, c, start, start, c) && start <= all
  {
  }

  lemma TellOne(parse: string -> Parsed, c: Calls, start: seq<string>, handed: seq<string>, all: seq<string>, now: Calls,
                line: string, rest: seq<string>)
    requires Apart(c) && Telling(parse, c, start, handed, now) && handed + ([line] + rest) == all
    ensures handed + [line] + rest == all && start <= handed + [line] <= all
    ensures Told(now, parse(line)) == AllTold(parse, c, (handed + [line])[|start|..])
    ensures if Throws(now, parse(line)) then HandedOn(parse, c, all[|start|..], (handed + [line])[|start|..], true)
            else Telling(parse, c, start, handed + [line], Told(now, parse(line)))
  {
    ToldMore(parse, c, handed, line, |start|);
    Shifted(handed, [line], rest, all);
    hide AllTold, FirstThrow, HandedOn, Throws, Told;
    if Throws(now, parse(line)) { ThrownAt(parse, c, start, handed + [line], all); }
  }

  lemma AllTelling(parse: string -> Parsed, c: Calls, start: seq<string>, handed: seq<string>, all: seq<string>, now: Calls)
    requires Apart(c) && Telling(parse, c, start, handed, now) && handed + [] == all
    ensures handed == all && start <= all && now == AllTold(parse, c, handed[|start|..])
    ensures HandedOn(parse, c, all[|start|..], handed[|start|..], false)
  {
    assert handed == all;
    StoppedThere(parse, c, all[|start|..], all[|start|..], false);
  }

  lemma ThrownAt(parse: string -> Parsed, c: Calls, start: seq<string>, handed: seq<string>, all: seq<string>)
    requires Apart(c)
    requires start < handed <= all
    requires FirstThrow(parse, c, handed[|start|..]) == |handed| - |start| - 1
    ensures HandedOn(parse, c, all[|start|..], handed[|start|..], true)
  {
    ThrownBy(parse, c, start, handed, handed, all);
  }

  lemma ThrownBy(parse: string -> Parsed, c: Calls, start: seq<string>, handed: seq<string>, some: seq<string>, all: seq<string>)
    requires Apart(c)
    requires start < handed <= some <= all
    requires FirstThrow(parse, c, some[|start|..]) == |handed| - |start| - 1
    ensures HandedOn(parse, c, all[|start|..], handed[|start|..], true)
  {
    var lines := all[|start|..];
    assert some[|start|..] == lines[..|some| - |start|] && handed[|start|..] == lines[..|handed| - |start|];
    FirstThrowInPrefix(parse, c, lines, |some| - |start|);
    StoppedThere(parse, c, lines, handed[|start|..], true);
  }

  /** Handing on the first line of what is left, if it is not empty. */
  lemma Shifted(h: seq<string>, first: seq<string>, rest: seq<string>, all: seq<string>)
    requires h + (first + rest) == all
    ensures (h + first) + rest == all
    ensures first == [] ==> h + rest == all
    ensures first != [] ==> |h| < |all| && all[|h|] == first[0]
  {
    assert first == [] ==> h + first == h;
  }

  lemma NoneTold(parse: string -> Parsed, c: Calls)
    ensures AllTold(parse, c, []) == c
  {
  }

  lemma ToldMore(parse: string -> Parsed, c: Calls, handed: seq<string>, line: string, from: nat)
    requires from <= |handed|
    ensures AllTold(parse, c, (handed + [line])[from..]) == Told(AllTold(parse, c, handed[from..]), parse(line))
    ensures FirstThrow(parse, c, handed[from..]) == |handed| - from ==>
      FirstThrow(parse, c, (handed + [line])[from..]) == |handed| - from + if Throws(AllTold(parse, c, handed[from..]), parse(line)) then 0 else 1
  {
    var more := (handed + [line])[from..];
    assert more[..|more| - 1] == handed[from..];
  }

  lemma {:induction false} ToldOn(parse: string -> Parsed, c: Calls, a: seq<string>, b: seq<string>)
    ensures AllTold(parse, c, a + b) == AllTold(parse, AllTold(parse, c, a), b)
    decreases |b|
  {
    if b == [] {
      assert a + b == a;
    } else {
      ToldOn(parse, c, a, b[..|b| - 1]);
      assert (a + b)[..|a + b| - 1] == a + b[..|b| - 1];
    }
  }

  lemma Onwards(a: seq<string>, b: seq<string>, c: seq<string>)
    requires a <= b <= c
    ensures b[|a|..] + c[|b|..] == c[|a|..]
  {
  }

  lemma JoinedFirst(was: string, chunks: seq<string>, i: nat)
    requires i < |chunks|
    ensures (was + chunks[i]) + Joined(chunks[i + 1..]) == was + Joined(chunks[i..])
  {
    assert chunks[i..][1..] == chunks[i + 1..];
  }

  lemma JoinedNone(received: string)
    ensures received + Joined([]) == received
  {
  }

  function Joined(chunks: seq<string>): string {
    if chunks == [] then "" else chunks[0] + Joined(chunks[1..])
  }
}
