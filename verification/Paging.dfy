/** Backwards pagination over the lines of one snapshot with opaque cursors. */
module Paging {
  import opened AnsiHistory

  const ENVELOPE := 512

  /** How many bytes a line takes in a response. */
  type Encoder = Line -> nat

  datatype PageLimits = PageLimits(maxLines: int, maxBytes: int)

  /** The bytes of lines[lo..hi], each followed by a separator. */
  function Encoded(enc: Encoder, lines: seq<Line>, lo: int, hi: int): nat
    requires 0 <= lo <= hi <= |lines|
    decreases hi - lo
  {
    if lo == hi then 0 else enc(lines[lo]) + 1 + Encoded(enc, lines, lo + 1, hi)
  }

  /** Where the page that ends at `before` starts, when it already reaches down to `start`. */
  function Reach(enc: Encoder, limits: PageLimits, lines: seq<Line>, before: nat, start: nat): (r: nat)
    requires start <= before <= |lines|
    ensures r <= start
    decreases start
  {
    if start > 0 && before - start < limits.maxLines
       && (before == start || ENVELOPE + Encoded(enc, lines, start - 1, before) <= limits.maxBytes)
    then Reach(enc, limits, lines, before, start - 1)
    else start
  }

  function PageStart(enc: Encoder, limits: PageLimits, lines: seq<Line>, before: nat): nat
    requires before <= |lines|
  {
    Reach(enc, limits, lines, before, before)
  }

  /** A page within the limits: one line always counts as fitting, more must fit whole. */
  ghost predicate PageFits(enc: Encoder, limits: PageLimits, lines: seq<Line>, start: nat, before: nat)
    requires start <= before <= |lines|
  {
    && before - start <= limits.maxLines
    && (before - start >= 2 ==> ENVELOPE + Encoded(enc, lines, start, before) <= limits.maxBytes)
  }

  lemma {:induction false} ReachIsLongest(enc: Encoder, limits: PageLimits, lines: seq<Line>, before: nat, start: nat)
    requires start <= before <= |lines| && PageFits(enc, limits, lines, start, before)
    ensures var r := Reach(enc, limits, lines, before, start);
            PageFits(enc, limits, lines, r, before) && (r == 0 || !PageFits(enc, limits, lines, r - 1, before))
    decreases start
  {
    if start > 0 && before - start < limits.maxLines
       && (before == start || ENVELOPE + Encoded(enc, lines, start - 1, before) <= limits.maxBytes) {
      ReachIsLongest(enc, limits, lines, before, start - 1);
    }
  }

  /** The page is the longest one that fits, and it makes progress. */
  lemma PageIsLongest(enc: Encoder, limits: PageLimits, lines: seq<Line>, before: nat)
    requires before <= |lines| && limits.maxLines > 0
    ensures var start := PageStart(enc, limits, lines, before);
            && PageFits(enc, limits, lines, start, before)
            && (start == 0 || !PageFits(enc, limits, lines, start - 1, before))
            && (before > 0 ==> start < before)
  {
    ReachIsLongest(enc, limits, lines, before, before);
  }

  /** Every stored line fits a page of its own. */
  ghost predicate LinesFit(enc: Encoder, limits: PageLimits, lines: seq<Line>) {
    forall i :: 0 <= i < |lines| ==> enc(lines[i]) + ENVELOPE <= limits.maxBytes
  }

  /** The envelope, the lines and the separators between them never pass the limit, even
      when the page is a single line and the running count is one too high. */
  lemma PageWithinBytes(enc: Encoder, limits: PageLimits, lines: seq<Line>, before: nat)
    requires 0 < before <= |lines| && limits.maxLines > 0 && LinesFit(enc, limits, lines)
    ensures var start := PageStart(enc, limits, lines, before);
            512 + Encoded(enc, lines, start, before) - 1 <= limits.maxBytes
  {
    PageIsLongest(enc, limits, lines, before);
    var start := PageStart(enc, limits, lines, before);
    if start == before - 1 {
      assert Encoded(enc, lines, start, before) == enc(lines[start]) + 1 + Encoded(enc, lines, before, before);
    }
  }

  /** Exactly when the loop's own count passes the limit, and by how much: on a page of one line
      that fills it, where the count includes a separator that no page has. */
  lemma CountPasses(enc: Encoder, limits: PageLimits, lines: seq<Line>, before: nat)
    requires 0 < before <= |lines| && limits.maxLines > 0 && LinesFit(enc, limits, lines)
    ensures var start := PageStart(enc, limits, lines, before);
            var count := 512 + Encoded(enc, lines, start, before);
            && count <= limits.maxBytes + 1
            && (count > limits.maxBytes <==> start == before - 1 && 512 + enc(lines[start]) == limits.maxBytes)
  {
    PageIsLongest(enc, limits, lines, before);
    PageWithinBytes(enc, limits, lines, before);
    var start := PageStart(enc, limits, lines, before);
    assert Encoded(enc, lines, start, before) == enc(lines[start]) + 1 + Encoded(enc, lines, start + 1, before);
  }

  /** It happens on a snapshot of one line that is as long as may be. */
  lemma CountPassesOnce(enc: Encoder, limits: PageLimits, line: Line)
    requires limits.maxLines > 0 && ENVELOPE + enc(line) == limits.maxBytes
    ensures LinesFit(enc, limits, [line])
    ensures ENVELOPE + Encoded(enc, [line], PageStart(enc, limits, [line], 1), 1) == limits.maxBytes + 1
  {
    CountPasses(enc, limits, [line], 1);
  }

  method FindStart(enc: Encoder, limits: PageLimits, lines: seq<Line>, before: nat) returns (start: nat)
    requires before <= |lines|
    ensures start == PageStart(enc, limits, lines, before)
  {
    start := before;
    var bytes := ENVELOPE;
    while start > 0 && before - start < limits.maxLines
      invariant start <= before
      invariant bytes == ENVELOPE + Encoded(enc, lines, start, before)
      invariant PageStart(enc, limits, lines, before) == Reach(enc, limits, lines, before, start)
    {
      var encoded := enc(lines[start - 1]);
      if before - start > 0 && bytes + encoded + 1 > limits.maxBytes {
        break;
      }
      bytes := bytes + encoded + 1;
      start := start - 1;
    }
  }

  // ----- Cursors

  /** The part of a snapshot that paging reads and writes. */
  datatype Book = Book(lines: seq<Line>, cursors: map<string, nat>, cursorByBefore: map<nat, string>)

  /** The two cursor maps are inverses of each other, and cursors point inside. */
  ghost predicate CursorsOk(b: Book) {
    && (forall c :: c in b.cursors ==>
          && c != "" && 0 < b.cursors[c] <= |b.lines|
          && b.cursors[c] in b.cursorByBefore && b.cursorByBefore[b.cursors[c]] == c)
    && (forall n :: n in b.cursorByBefore ==>
          b.cursorByBefore[n] in b.cursors && b.cursors[b.cursorByBefore[n]] == n)
  }

  datatype Page = Page(lines: seq<Line>, before: string, hasMore: bool)
  datatype PageResult = Shown(page: Page) | UnknownCursor | NothingFits

  predicate KnownCursor(b: Book, cursor: string) { cursor == "" || cursor in b.cursors }

  function Position(b: Book, cursor: string): nat
    requires KnownCursor(b, cursor)
  {
    if cursor == "" then |b.lines| else b.cursors[cursor]
  }

  /** One request; `id` is the opaque reference that is drawn if a new one is needed. */
  ghost function Turn(enc: Encoder, limits: PageLimits, b: Book, cursor: string, id: string): (Book, PageResult)
    requires CursorsOk(b)
  {
    if !KnownCursor(b, cursor) then (b, UnknownCursor)
    else
      var before := Position(b, cursor);
      var start := PageStart(enc, limits, b.lines, before);
      if start == before && start > 0 then (b, NothingFits)
      else if start == 0 then (b, Shown(Page(b.lines[start..before], "", false)))
      else if start in b.cursorByBefore then (b, Shown(Page(b.lines[start..before], b.cursorByBefore[start], true)))
      else (b.(cursors := b.cursors[id := start], cursorByBefore := b.cursorByBefore[start := id]),
            Shown(Page(b.lines[start..before], id, true)))
  }

  method PageLocked(enc: Encoder, limits: PageLimits, b: Book, cursor: string, id: string)
    returns (b': Book, r: PageResult)
    requires CursorsOk(b)
    ensures (b', r) == Turn(enc, limits, b, cursor, id)
  {
    b' := b;
    var before := |b.lines|;
    if cursor != "" {
      if cursor !in b.cursors {
        return b, UnknownCursor;
      }
      before := b.cursors[cursor];
    }
    var start := FindStart(enc, limits, b.lines, before);
    if start == before && start > 0 {
      return b, NothingFits;
    }
    var nextCursor := "";
    if start > 0 {
      if start in b.cursorByBefore {
        nextCursor := b.cursorByBefore[start];
      } else {
        nextCursor := id;
        b' := b.(cursors := b.cursors[id := start], cursorByBefore := b.cursorByBefore[start := id]);
      }
    }
    r := Shown(Page(b.lines[start..before], nextCursor, start > 0));
  }

  /** Cursors are only ever added. */
  ghost predicate Grows(b: Book, b': Book) {
    && b'.lines == b.lines
    && (forall c :: c in b.cursors ==> c in b'.cursors && b'.cursors[c] == b.cursors[c])
    && (forall n :: n in b.cursorByBefore ==> n in b'.cursorByBefore && b'.cursorByBefore[n] == b.cursorByBefore[n])
  }

  lemma TurnKeeps(enc: Encoder, limits: PageLimits, b: Book, cursor: string, id: string)
    requires CursorsOk(b) && limits.maxLines > 0 && id != "" && id !in b.cursors
    ensures var (b', r) := Turn(enc, limits, b, cursor, id);
            CursorsOk(b') && Grows(b, b') && !r.NothingFits?
  {
    if KnownCursor(b, cursor) { PageIsLongest(enc, limits, b.lines, Position(b, cursor)); }
  }

  /** What one request shows, and that the cursor it hands out stands for its start. */
  lemma TurnShows(enc: Encoder, limits: PageLimits, b: Book, cursor: string, id: string)
    requires CursorsOk(b) && limits.maxLines > 0 && id != "" && id !in b.cursors && KnownCursor(b, cursor)
    ensures var (b', r) := Turn(enc, limits, b, cursor, id);
            var before := Position(b, cursor);
            var start := PageStart(enc, limits, b.lines, before);
            && r.Shown? && r.page.lines == b.lines[start..before] && r.page.hasMore == (start > 0)
            && (r.page.before == "" <==> start == 0)
            && (start > 0 ==> r.page.before in b'.cursors && b'.cursors[r.page.before] == start
                              && start in b'.cursorByBefore && b'.cursorByBefore[start] == r.page.before)
  {
    PageIsLongest(enc, limits, b.lines, Position(b, cursor));
  }

  /** Asking again with a cursor, however much was asked in between, shows the same page. */
  lemma AskingAgain(enc: Encoder, limits: PageLimits, b: Book, cursor: string, id: string, later: Book, id': string)
    requires CursorsOk(b) && limits.maxLines > 0 && id != "" && id !in b.cursors && KnownCursor(b, cursor)
    requires Grows(Turn(enc, limits, b, cursor, id).0, later) && CursorsOk(later) && id' != "" && id' !in later.cursors
    ensures Turn(enc, limits, later, cursor, id') == (later, Turn(enc, limits, b, cursor, id).1)
  {
    TurnKeeps(enc, limits, b, cursor, id);
    TurnShows(enc, limits, b, cursor, id);
    TurnShows(enc, limits, later, cursor, id');
    var b' := Turn(enc, limits, b, cursor, id).0;
    if cursor != "" { assert cursor in b'.cursors; }
    assert Position(later, cursor) == Position(b, cursor);
  }

  // ----- Reading everything back

  /** A request and what it showed. */
  datatype Visit = Visit(book: Book, cursor: string, id: string, page: Page)

  ghost predicate Answered(enc: Encoder, limits: PageLimits, v: Visit) {
    && CursorsOk(v.book) && v.id != "" && v.id !in v.book.cursors
    && Turn(enc, limits, v.book, v.cursor, v.id).1 == Shown(v.page)
  }

  /** The next request uses the cursor just handed out; in between others may page through
      the same snapshot. */
  ghost predicate Follows(enc: Encoder, limits: PageLimits, v: Visit, w: Visit)
    requires Answered(enc, limits, v)
  {
    w.cursor == v.page.before != "" && Grows(Turn(enc, limits, v.book, v.cursor, v.id).0, w.book)
  }

  ghost predicate IsWalk(enc: Encoder, limits: PageLimits, walk: seq<Visit>) {
    && (forall i :: 0 <= i < |walk| ==> Answered(enc, limits, walk[i]))
    && (forall i :: 0 < i < |walk| ==> Follows(enc, limits, walk[i - 1], walk[i]))
    && (walk != [] ==> walk[0].cursor == "")
  }

  function OldestFirst(walk: seq<Visit>): seq<Line> {
    if walk == [] then [] else walk[|walk| - 1].page.lines + OldestFirst(walk[..|walk| - 1])
  }

  ghost function Start(enc: Encoder, limits: PageLimits, v: Visit): nat
    requires Answered(enc, limits, v) && KnownCursor(v.book, v.cursor)
  {
    PageStart(enc, limits, v.book.lines, Position(v.book, v.cursor))
  }

  /** The page asked for next ends where the last one started. */
  lemma NextEndsHere(enc: Encoder, limits: PageLimits, v: Visit, w: Visit)
    requires limits.maxLines > 0 && Answered(enc, limits, v) && Answered(enc, limits, w)
    requires KnownCursor(v.book, v.cursor) && Follows(enc, limits, v, w)
    ensures w.book.lines == v.book.lines && KnownCursor(w.book, w.cursor)
    ensures Position(w.book, w.cursor) == Start(enc, limits, v) < Position(v.book, v.cursor)
  {
    TurnShows(enc, limits, v.book, v.cursor, v.id);
    TurnKeeps(enc, limits, v.book, v.cursor, v.id);
    PageIsLongest(enc, limits, v.book.lines, Position(v.book, v.cursor));
  }

  /** The pages of a walk, oldest first, are exactly the end of the snapshot from where the
      last page starts: no gap, no overlap. A page without a cursor reaches the beginning,
      and a walk has no more pages than there are lines (one if there are none). */
  lemma {:induction false} WalkCovers(enc: Encoder, limits: PageLimits, walk: seq<Visit>)
    requires limits.maxLines > 0 && IsWalk(enc, limits, walk) && walk != []
    ensures var last, lines := walk[|walk| - 1], walk[0].book.lines;
            && last.book.lines == lines && KnownCursor(last.book, last.cursor)
            && OldestFirst(walk) == lines[Start(enc, limits, last)..]
            && (last.page.before == "" <==> Start(enc, limits, last) == 0)
            && Position(last.book, last.cursor) + |walk| - 1 <= |lines|
  {
    var n := |walk| - 1;
    if n == 0 {
      VisitShows(enc, limits, walk[0]);
      assert walk[..0] == [];
      assert walk[0].book.lines[|walk[0].book.lines|..] == [];
    } else {
      WalkPrefix(enc, limits, walk);
      WalkCovers(enc, limits, walk[..n]);
      NextEndsHere(enc, limits, walk[n - 1], walk[n]);
      VisitShows(enc, limits, walk[n]);
    }
  }

  lemma WalkPrefix(enc: Encoder, limits: PageLimits, walk: seq<Visit>)
    requires IsWalk(enc, limits, walk) && |walk| > 1
    ensures IsWalk(enc, limits, walk[..|walk| - 1])
    ensures Answered(enc, limits, walk[|walk| - 2]) && Follows(enc, limits, walk[|walk| - 2], walk[|walk| - 1])
  {
  }

  lemma VisitShows(enc: Encoder, limits: PageLimits, v: Visit)
    requires limits.maxLines > 0 && Answered(enc, limits, v) && KnownCursor(v.book, v.cursor)
    ensures var lines, start, end := v.book.lines, Start(enc, limits, v), Position(v.book, v.cursor);
            && start <= end <= |lines|
            && v.page.lines + lines[end..] == lines[start..]
            && (v.page.before == "" <==> start == 0)
  {
    TurnShows(enc, limits, v.book, v.cursor, v.id);
    PageIsLongest(enc, limits, v.book.lines, Position(v.book, v.cursor));
  }

  /** ... so a walk that ran out of cursors has read back the whole snapshot. */
  lemma WalkReadsAll(enc: Encoder, limits: PageLimits, walk: seq<Visit>)
    requires limits.maxLines > 0 && IsWalk(enc, limits, walk) && walk != [] && walk[|walk| - 1].page.before == ""
    ensures OldestFirst(walk) == walk[0].book.lines
  {
    WalkCovers(enc, limits, walk);
    assert walk[0].book.lines[0..] == walk[0].book.lines;
  }

  /** A walk that has not can always go on: the cursor handed out is known to any later
      state of the snapshot, and asking with it shows a page. */
  lemma WalkGoesOn(enc: Encoder, limits: PageLimits, walk: seq<Visit>, later: Book, id: string)
    requires limits.maxLines > 0 && IsWalk(enc, limits, walk) && walk != [] && walk[|walk| - 1].page.before != ""
    requires var last := walk[|walk| - 1]; Grows(Turn(enc, limits, last.book, last.cursor, last.id).0, later)
    requires CursorsOk(later) && id != "" && id !in later.cursors
    ensures var cursor := walk[|walk| - 1].page.before;
            Turn(enc, limits, later, cursor, id).1.Shown? &&
            IsWalk(enc, limits, walk + [Visit(later, cursor, id, Turn(enc, limits, later, cursor, id).1.page)])
  {
    var last := walk[|walk| - 1];
    var cursor := last.page.before;
    WalkCovers(enc, limits, walk);
    TurnShows(enc, limits, last.book, last.cursor, last.id);
    assert KnownCursor(later, cursor);
    TurnShows(enc, limits, later, cursor, id);
    LongerWalk(enc, limits, walk, Visit(later, cursor, id, Turn(enc, limits, later, cursor, id).1.page));
  }

  lemma LongerWalk(enc: Encoder, limits: PageLimits, walk: seq<Visit>, v: Visit)
    requires IsWalk(enc, limits, walk) && walk != [] && Answered(enc, limits, v)
    requires Answered(enc, limits, walk[|walk| - 1]) && Follows(enc, limits, walk[|walk| - 1], v)
    ensures IsWalk(enc, limits, walk + [v])
  {
    hide Answered, Follows, Turn;
    assert forall i :: 0 < i < |walk| ==> Follows(enc, limits, walk[i - 1], walk[i]);
  }
}
