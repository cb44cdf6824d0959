/**
  `pages` of `packages/documents-accept/src/checks.ts`: every page of a
  paginated route, whatever the server answers.
*/
module Paging {
  import opened Prelude

  const MAX_PAGES: nat := 1000

  /** `next_cursor` as it came: null, a text, or something else. */
  datatype Cursor = Null | Text(text: string) | Neither
  datatype Page<T> = Page(items: seq<T>, next: Cursor)

  datatype End = AllRead | NoCursor | CameTwice(cursor: string) | TooMany

  /** A server: what it answers to its `n`-th request, for a cursor. */
  type Server<!T> = (nat, string) -> Page<T>

  /** The cursors asked for, first to last: the empty one, then each page's own next one, none of them twice. */
  ghost predicate Asked<T>(server: Server<T>, cursors: seq<string>) {
    && 0 < |cursors| && cursors[0] == ""
    && (forall k {:trigger cursors[k]} :: 0 < k < |cursors| ==> server(k - 1, cursors[k - 1]).next == Text(cursors[k]))
    && (forall j, k :: 0 <= j < k < |cursors| ==> cursors[j] != cursors[k])
  }

  ghost function Answers<T>(server: Server<T>, cursors: seq<string>): (pages: seq<Page<T>>)
    ensures |pages| == |cursors| && forall k :: 0 <= k < |pages| ==> pages[k] == server(k, cursors[k])
  {
    seq(|cursors|, k requires 0 <= k < |cursors| => server(k, cursors[k]))
  }

  /** How the reading of a server must end after these requests, the last of them just answered. */
  ghost predicate EndsWith<T>(server: Server<T>, cursors: seq<string>, end: End)
    requires 0 < |cursors|
  {
    var last := |cursors| - 1;
    var next := server(last, cursors[last]).next;
    match end
    case NoCursor => next == Neither
    case CameTwice(c) => next == Text(c) && c in cursors
    case TooMany => |cursors| == MAX_PAGES + 1 && next != Neither && (next.Text? ==> next.text !in cursors)
    case AllRead => next == Null && |cursors| <= MAX_PAGES
  }

  lemma FirstAsked<T>(server: Server<T>)
    ensures Asked(server, [""]) && SeenAre({""}, [""])
  {
  }

  lemma AskedMore<T>(server: Server<T>, cursors: seq<string>, c: string)
    requires Asked(server, cursors) && server(|cursors| - 1, cursors[|cursors| - 1]).next == Text(c) && c !in cursors
    ensures Asked(server, cursors + [c])
  {
    var more := cursors + [c];
    forall k | 0 < k < |more| ensures server(k - 1, more[k - 1]).next == Text(more[k]) {
      if k < |cursors| { assert more[k] == cursors[k] && more[k - 1] == cursors[k - 1]; }
    }
  }

  lemma AnswersMore<T>(server: Server<T>, cursors: seq<string>, c: string)
    ensures Answers(server, cursors + [c]) == Answers(server, cursors) + [server(|cursors|, c)]
  {
  }

  ghost predicate SeenAre(seen: set<string>, cursors: seq<string>) {
    (forall c :: c in seen <==> c in cursors) && |seen| == |cursors|
  }

  /** The checks of an answer, in their order: the end it makes, or none where a page follows. */
  function Checked(seen: set<string>, next: Cursor): Option<End> {
    if next == Neither then Some(NoCursor)
    else if next.Text? && next.text in seen then Some(CameTwice(next.text))
    else if |seen| > MAX_PAGES then Some(TooMany)
    else if next == Null then Some(AllRead)
    else None
  }

  lemma CheckedEnds<T>(server: Server<T>, cursors: seq<string>, seen: set<string>)
    requires 0 < |cursors| <= MAX_PAGES + 1 && SeenAre(seen, cursors)
    ensures var next := server(|cursors| - 1, cursors[|cursors| - 1]).next;
            match Checked(seen, next)
            case Some(end) => EndsWith(server, cursors, end)
            case None => next.Text? && next.text !in cursors && |cursors| <= MAX_PAGES && SeenAre(seen + {next.text}, cursors + [next.text])
  {
  }

  /**
    Every page before the last answer is handed on, in order; the last one too
    when it ends the list. At most one request more is made than there may be
    pages; `cursors` is the list of the requests.
  */
  method Pages<T>(server: Server<T>) returns (yielded: seq<Page<T>>, cursors: seq<string>, end: End)
    ensures Asked(server, cursors) && EndsWith(server, cursors, end) && |cursors| <= MAX_PAGES + 1
    ensures yielded == if end.AllRead? then Answers(server, cursors) else Answers(server, cursors)[..|cursors| - 1]
  {
    hide Asked, SeenAre, EndsWith;
    var seen, cursor, n := {""}, "", 0;
    yielded, cursors, end := [], [""], AllRead;
    FirstAsked(server);
    while true
      invariant n == |cursors| - 1 && cursor == cursors[n] && n <= MAX_PAGES
      invariant Asked(server, cursors) && SeenAre(seen, cursors)
      invariant yielded + [server(n, cursor)] == Answers(server, cursors)
      decreases MAX_PAGES - n
    {
      var got := server(n, cursor);
      CheckedEnds(server, cursors, seen);
      var checked := Checked(seen, got.next);
      if checked.Some? {
        end := checked.value;
        if end.AllRead? { yielded := yielded + [got]; }
        break;
      }
      AskedMore(server, cursors, got.next.text);
      AnswersMore(server, cursors, got.next.text);
      yielded, cursor := yielded + [got], got.next.text;
      seen, cursors, n := seen + {cursor}, cursors + [cursor], n + 1;
    }
  }

  // ------------------------------------------------------- a list put together

  /** A server that serves these parts under these cursors, the first of them the empty one. */
  ghost predicate Serves<T>(server: Server<T>, parts: seq<seq<T>>, cursors: seq<string>) {
    && 0 < |parts| == |cursors| && cursors[0] == ""
    && (forall j, k :: 0 <= j < k < |cursors| ==> cursors[j] != cursors[k])
    && (forall n: nat, k :: 0 <= k < |parts| ==>
          server(n, cursors[k]) == Page(parts[k], if k + 1 < |parts| then Text(cursors[k + 1]) else Null))
  }

  function Joined<T>(pages: seq<Page<T>>): seq<T> {
    if pages == [] then [] else Joined(pages[..|pages| - 1]) + pages[|pages| - 1].items
  }

  function Whole<T>(parts: seq<seq<T>>): seq<T> {
    if parts == [] then [] else Whole(parts[..|parts| - 1]) + parts[|parts| - 1]
  }

  lemma {:induction false} JoinedIsWhole<T>(pages: seq<Page<T>>, parts: seq<seq<T>>)
    requires |pages| == |parts| && forall k :: 0 <= k < |pages| ==> pages[k].items == parts[k]
    ensures Joined(pages) == Whole(parts)
  {
    if pages != [] { JoinedIsWhole(pages[..|pages| - 1], parts[..|parts| - 1]); }
  }

  /** The first requests to a server of a list are for its parts in order. */
  lemma {:induction false} AskedInOrder<T>(server: Server<T>, parts: seq<seq<T>>, names: seq<string>, cursors: seq<string>, k: nat)
    requires Serves(server, parts, names) && Asked(server, cursors) && k < |cursors|
    ensures k < |parts| && cursors[k] == names[k]
  {
    if k > 0 {
      AskedInOrder(server, parts, names, cursors, k - 1);
      assert server(k - 1, names[k - 1]).next == Text(cursors[k]);
    }
  }

  /**
    A list in parts under different cursors is read whole and in order when
    there are at most MAX_PAGES of them, and refused when there are more.
  */
  lemma ListIsPutTogether<T>(server: Server<T>, parts: seq<seq<T>>, names: seq<string>, cursors: seq<string>, end: End)
    requires Serves(server, parts, names)
    requires Asked(server, cursors) && EndsWith(server, cursors, end) && |cursors| <= MAX_PAGES + 1
    ensures end == (if |parts| <= MAX_PAGES then AllRead else TooMany)
    ensures end == AllRead ==> Joined(Answers(server, cursors)) == Whole(parts)
  {
    hide Serves;
    var last := |cursors| - 1;
    AllInOrder(server, parts, names, cursors);
    ServedNext(server, parts, names, last);
    if last + 1 == |parts| {
      forall k | 0 <= k < |parts| ensures server(k, cursors[k]).items == parts[k] { ServedNext(server, parts, names, k); }
      JoinedIsWhole(Answers(server, cursors), parts);
    }
  }

  lemma AllInOrder<T>(server: Server<T>, parts: seq<seq<T>>, names: seq<string>, cursors: seq<string>)
    requires Serves(server, parts, names) && Asked(server, cursors)
    ensures |cursors| <= |parts| && cursors <= names
  {
    forall k | 0 <= k < |cursors| ensures k < |parts| && cursors[k] == names[k] { AskedInOrder(server, parts, names, cursors, k); }
    AskedInOrder(server, parts, names, cursors, |cursors| - 1);
  }

  lemma ServedNext<T>(server: Server<T>, parts: seq<seq<T>>, names: seq<string>, k: nat)
    requires Serves(server, parts, names) && k < |parts|
    ensures |names| == |parts| && server(k, names[k]).items == parts[k]
    ensures server(k, names[k]).next == if k + 1 < |parts| then Text(names[k + 1]) else Null
    ensures k + 1 < |parts| ==> names[k + 1] !in names[..k + 1]
  {
  }
}
