/** What file events make of an index, event by event
(crates/codegen/xai-codebase-graph/src/index_manager.rs). */
module CoalescerEvents {
  import opened Wrappers
  import opened Coalescer

  /** A rename that carries both paths: the first is gone, and the second is there. */
  predicate IsMove(e: FileEvent) {
    e.kind == Renamed && |e.paths| >= 2
  }

  predicate Mentions(e: FileEvent, p: Path) {
    if IsMove(e) then p == e.paths[0] || p == e.paths[1] else p in e.paths
  }

  /** After the event the path is gone. */
  predicate Removes(e: FileEvent, p: Path) {
    if IsMove(e) then p == e.paths[0] && p != e.paths[1] else p in e.paths && e.kind == Removed
  }

  /** After the event the path is new or changed. */
  predicate Touches(e: FileEvent, p: Path) {
    if IsMove(e) then p == e.paths[1] else p in e.paths && (e.kind == Created || e.kind == Modified)
  }

  function NotedKind(e: FileEvent, p: Path): Kind {
    if Removes(e, p) then Removed else if IsMove(e) then Created else e.kind
  }

  predicate NeverMentions(events: seq<FileEvent>, p: Path) {
    forall k :: 0 <= k < |events| ==> !Mentions(events[k], p)
  }

  predicate LastMention(events: seq<FileEvent>, p: Path, k: int) {
    0 <= k < |events| && Mentions(events[k], p) && forall j :: k < j < |events| ==> !Mentions(events[j], p)
  }

  // ---------- notes ----------

  lemma {:induction false} Snoc(a: seq<Note>, n: Note)
    ensures (a + [n])[..|a|] == a && (a + [n])[|a|] == n
  {}

  lemma {:induction false} OneNote(a: seq<Note>, n: Note, p: Path)
    ensures LastKind(a + [n], p) == if n.path == p then Some(n.kind) else LastKind(a, p)
    ensures Cancelled(a + [n], p) <==>
            if n.path == p then n.kind == Removed && Touched(LastKind(a, p)) else Cancelled(a, p)
  {
    Snoc(a, n);
  }

  lemma {:induction false} EachNoted(a: seq<Note>, kind: Kind, paths: seq<Path>, p: Path)
    ensures LastKind(a + Each(kind, paths), p) == if p in paths then Some(kind) else LastKind(a, p)
    ensures Cancelled(a + Each(kind, paths), p) <==>
            if p in paths then kind == Removed && multiset(paths)[p] == 1 && Touched(LastKind(a, p))
            else Cancelled(a, p)
    decreases |paths|
  {
    if paths == [] {
      assert a + [] == a;
    } else {
      var n, rest := Note(paths[0], kind), paths[1..];
      assert a + ([n] + Each(kind, rest)) == (a + [n]) + Each(kind, rest);
      assert paths == [paths[0]] + rest;
      OneNote(a, n, p);
      EachNoted(a + [n], kind, rest, p);
    }
  }

  /** The last note of an event on a path, and whether it cancels the note before it. */
  lemma {:induction false} EventNoted(a: seq<Note>, e: FileEvent, p: Path)
    ensures LastKind(a + Notes(e), p) == if Mentions(e, p) then Some(NotedKind(e, p)) else LastKind(a, p)
    ensures Cancelled(a + Notes(e), p) <==>
            if Mentions(e, p) then RemovesOnce(e, p) && Touched(LastKind(a, p)) else Cancelled(a, p)
  {
    if IsMove(e) {
      var from, to := Note(e.paths[0], Removed), Note(e.paths[1], Created);
      assert a + Notes(e) == (a + [from]) + [to];
      OneNote(a, from, p);
      OneNote(a + [from], to, p);
    } else {
      EachNoted(a, e.kind, e.paths, p);
    }
  }

  predicate RemovesOnce(e: FileEvent, p: Path) {
    Removes(e, p) && (IsMove(e) || multiset(e.paths)[p] == 1)
  }

  /** The last note on a path comes from the last event that mentions it. */
  lemma {:induction false} EventsNoted(events: seq<FileEvent>, p: Path)
    ensures NeverMentions(events, p) ==> LastKind(BatchNotes(events), p) == None
    ensures forall k :: LastMention(events, p, k) ==> LastKind(BatchNotes(events), p) == Some(NotedKind(events[k], p))
    ensures NeverMentions(events, p) || exists k :: LastMention(events, p, k)
  {
    if events != [] {
      var n := |events| - 1;
      EventsNoted(events[..n], p);
      EventNoted(BatchNotes(events[..n]), events[n], p);
      LastMentionStep(events, p);
    }
  }

  lemma {:induction false} LastMentionStep(events: seq<FileEvent>, p: Path)
    requires events != []
    ensures var n := |events| - 1;
            if Mentions(events[n], p) then forall k :: LastMention(events, p, k) <==> k == n
            else (forall k :: LastMention(events, p, k) <==> LastMention(events[..n], p, k))
                 && (NeverMentions(events, p) <==> NeverMentions(events[..n], p))
  {}

  // ---------- one by one ----------

  /** After a run of events the index says of a path what the last event that mentions it says: nothing if that
  removed it, and else what the disk holds; of an unwanted or never mentioned path what it said before. */
  lemma {:induction false} EventsApplied<C>(
    index: Index<C>, events: seq<FileEvent>, wanted: Path -> bool, disk: Disk<C>, p: Path)
    ensures var r := OneByOne(index, BatchNotes(events), wanted, disk);
            && (!wanted(p) || NeverMentions(events, p) ==> Lookup(r, p) == Lookup(index, p))
            && (forall k :: wanted(p) && LastMention(events, p, k) ==>
                              Lookup(r, p) == if Removes(events[k], p) then None else disk(p))
  {
    EventsNoted(events, p);
    OneByOneLast(index, BatchNotes(events), wanted, disk, p);
  }

  /** After a rename of one path to another the index says nothing of the first, of the second what the disk
  holds, and of all others what it said before. */
  lemma {:induction false} RenameApplied<C>(
    index: Index<C>, from: Path, to: Path, wanted: Path -> bool, disk: Disk<C>, p: Path)
    requires from != to && wanted(from) && wanted(to)
    ensures var r := OneByOne(index, Notes(FileEvent(Renamed, [from, to])), wanted, disk);
            Lookup(r, p) == if p == from then None else if p == to then disk(to) else Lookup(index, p)
  {
    var e := FileEvent(Renamed, [from, to]);
    EventNoted([], e, p);
    assert [] + Notes(e) == Notes(e);
    OneByOneLast(index, Notes(e), wanted, disk, p);
  }

  // ---------- coalesced ----------

  /** The last event that mentions the path made or changed it. */
  predicate LastTouches(events: seq<FileEvent>, p: Path) {
    exists i | 0 <= i < |events| :: LastMention(events, p, i) && Touches(events[i], p)
  }

  /** The last event that mentions the path removes it, once, and the one before that made or changed it. */
  predicate Cancels(events: seq<FileEvent>, p: Path) {
    exists k | 0 <= k < |events| ::
      LastMention(events, p, k) && RemovesOnce(events[k], p) && LastTouches(events[..k], p)
  }

  lemma {:induction false} CancelledAt(events: seq<FileEvent>, p: Path, k: nat)
    requires LastMention(events, p, k)
    ensures Cancelled(BatchNotes(events), p) <==>
            RemovesOnce(events[k], p) && Touched(LastKind(BatchNotes(events[..k]), p))
  {
    var n := |events| - 1;
    EventNoted(BatchNotes(events[..n]), events[n], p);
    if k < n {
      assert events[..n][..k] == events[..k];
      CancelledAt(events[..n], p, k);
    }
  }

  lemma {:induction false} NeverCancelled(events: seq<FileEvent>, p: Path)
    requires NeverMentions(events, p)
    ensures !Cancelled(BatchNotes(events), p)
  {
    if events != [] {
      NeverCancelled(events[..|events| - 1], p);
      EventNoted(BatchNotes(events[..|events| - 1]), events[|events| - 1], p);
    }
  }

  lemma {:induction false} TouchedBefore(events: seq<FileEvent>, p: Path)
    ensures Touched(LastKind(BatchNotes(events), p)) <==> LastTouches(events, p)
  {
    EventsNoted(events, p);
    if !NeverMentions(events, p) {
      var i :| LastMention(events, p, i);
      assert forall j :: LastMention(events, p, j) ==> j == i;
      assert Touches(events[i], p) <==> Touched(Some(NotedKind(events[i], p)));
    }
  }

  lemma {:induction false} CancelledExactly(events: seq<FileEvent>, p: Path)
    ensures Cancelled(BatchNotes(events), p) <==> Cancels(events, p)
  {
    EventsNoted(events, p);
    if NeverMentions(events, p) {
      NeverCancelled(events, p);
    } else {
      var k :| LastMention(events, p, k);
      CancelledAt(events, p, k);
      TouchedBefore(events[..k], p);
      assert forall j :: LastMention(events, p, j) ==> j == k;
    }
  }

  /** After a run of coalesced events the index says of a path what the last event that mentions it says, unless
  that removal cancelled a creation or change, which leaves the path as it was. */
  lemma {:induction false} CoalescedApplied<C>(
    index: Index<C>, events: seq<FileEvent>, wanted: Path -> bool, disk: Disk<C>, p: Path)
    ensures var r := Flushed(index, Coalesced(BatchNotes(events)), wanted, disk);
            && (!wanted(p) || NeverMentions(events, p) || Cancels(events, p) ==> Lookup(r, p) == Lookup(index, p))
            && (forall k :: wanted(p) && LastMention(events, p, k) && !Cancels(events, p) ==>
                              Lookup(r, p) == if Removes(events[k], p) then None else disk(p))
  {
    EventsApplied(index, events, wanted, disk, p);
    CancelledExactly(events, p);
    CoalescingAgrees(index, BatchNotes(events), wanted, disk, p);
    EventsNoted(events, p);
    PendingLast(BatchNotes(events), p);
  }

  /** A path that was removed, without cancelling, and then made or changed is pending as created. */
  lemma {:induction false} ReplacedIsCreated(notes: seq<Note>, n: Note)
    requires LastKind(notes, n.path) == Some(Removed) && !Cancelled(notes, n.path) && Touched(Some(n.kind))
    ensures n.path in Coalesced(notes + [n]) && Coalesced(notes + [n])[n.path] == Created
  {
    PendingLast(notes, n.path);
    InsertedConcat(map[], notes, n);
  }

  // ---------- commands and batches ----------

  function EventsIn(c: Command): seq<FileEvent> {
    match c
    case Event(e) => [e]
    case Batch(events) => events
    case Other => []
  }

  /** The file events of a queue of commands, in order. */
  function EventsOf(queue: seq<Command>): seq<FileEvent> {
    if queue == [] then [] else EventsOf(queue[..|queue| - 1]) + EventsIn(queue[|queue| - 1])
  }

  lemma {:induction false} BatchNotesConcat(a: seq<FileEvent>, b: seq<FileEvent>)
    ensures BatchNotes(a + b) == BatchNotes(a) + BatchNotes(b)
    decreases |b|
  {
    if b == [] {
      assert a + b == a && BatchNotes(a) + [] == BatchNotes(a);
    } else {
      var front, last := b[..|b| - 1], b[|b| - 1];
      assert (a + b)[..|a + b| - 1] == a + front && (a + b)[|a + b| - 1] == last;
      BatchNotesConcat(a, front);
      assert BatchNotes(a) + (BatchNotes(front) + Notes(last)) == (BatchNotes(a) + BatchNotes(front)) + Notes(last);
    }
  }

  lemma {:induction false} OneEventNotes(e: FileEvent)
    ensures BatchNotes([e]) == Notes(e)
  {
    assert [e][..0] == [] && [] + Notes(e) == Notes(e);
  }

  lemma {:induction false} QueueNoted(queue: seq<Command>)
    ensures QueueNotes(queue) == BatchNotes(EventsOf(queue))
  {
    if queue != [] {
      var front, last := queue[..|queue| - 1], queue[|queue| - 1];
      QueueNoted(front);
      BatchNotesConcat(EventsOf(front), EventsIn(last));
      if last.Event? { OneEventNotes(last.event); }
    }
  }

  /** After an event and those waiting behind it have been processed together, the index says of a path what the last
  of them that mentions it says, unless that removal cancelled. */
  lemma {:induction false} QueueApplied<C>(
    index: Index<C>, event: FileEvent, queue: seq<Command>, wanted: Path -> bool, disk: Disk<C>, p: Path)
    ensures var events := [event] + EventsOf(queue);
            var r := Flushed(index, Coalesced(Notes(event) + QueueNotes(queue)), wanted, disk);
            && (!wanted(p) || NeverMentions(events, p) || Cancels(events, p) ==> Lookup(r, p) == Lookup(index, p))
            && (forall k :: wanted(p) && LastMention(events, p, k) && !Cancels(events, p) ==>
                              Lookup(r, p) == if Removes(events[k], p) then None else disk(p))
  {
    QueueNoted(queue);
    OneEventNotes(event);
    BatchNotesConcat([event], EventsOf(queue));
    CoalescedApplied(index, [event] + EventsOf(queue), wanted, disk, p);
  }

  function NotedAll(batches: seq<seq<FileEvent>>): seq<seq<Note>> {
    if batches == [] then [] else NotedAll(batches[..|batches| - 1]) + [BatchNotes(batches[|batches| - 1])]
  }

  function InOrder(batches: seq<seq<FileEvent>>): seq<FileEvent> {
    if batches == [] then [] else InOrder(batches[..|batches| - 1]) + batches[|batches| - 1]
  }

  lemma {:induction false} NotedInOrder(batches: seq<seq<FileEvent>>)
    ensures Joined(NotedAll(batches)) == BatchNotes(InOrder(batches))
  {
    if batches != [] {
      var front, last := batches[..|batches| - 1], batches[|batches| - 1];
      NotedInOrder(front);
      BatchNotesConcat(InOrder(front), last);
      assert NotedAll(batches)[..|NotedAll(front)|] == NotedAll(front);
    }
  }

  lemma {:induction false} LastKindConcat(a: seq<Note>, b: seq<Note>, p: Path)
    ensures LastKind(a + b, p) == if LastKind(b, p).Some? then LastKind(b, p) else LastKind(a, p)
    decreases |b|
  {
    if b == [] {
      assert a + b == a;
    } else {
      assert (a + b)[..|a + b| - 1] == a + b[..|b| - 1];
      LastKindConcat(a, b[..|b| - 1], p);
    }
  }

  lemma {:induction false} StaleIsNoted<C>(
    index: Index<C>, batches: seq<seq<Note>>, wanted: Path -> bool, disk: Disk<C>, p: Path)
    requires LeftStale(index, batches, wanted, disk, p)
    ensures LastKind(Joined(batches), p).Some?
    decreases |batches|
  {
    var front, last := batches[..|batches| - 1], batches[|batches| - 1];
    LastKindConcat(Joined(front), last, p);
    if LastKind(last, p).None? { StaleIsNoted(index, front, wanted, disk, p); }
  }

  /** However the events of a run are cut into batches, the index says in the end of a path what the last event that
  mentions it says, except on a path left stale, which is still there. */
  lemma {:induction false} BatchesApplied<C>(
    index: Index<C>, batches: seq<seq<FileEvent>>, wanted: Path -> bool, disk: Disk<C>, p: Path)
    ensures var r, events := InBatches(index, NotedAll(batches), wanted, disk), InOrder(batches);
            && (!wanted(p) || NeverMentions(events, p) ==> Lookup(r, p) == Lookup(index, p))
            && (LeftStale(index, NotedAll(batches), wanted, disk, p) ==> Lookup(r, p).Some?)
            && (forall k :: wanted(p) && LastMention(events, p, k) ==>
                              var word := if Removes(events[k], p) then None else disk(p);
                              Lookup(r, p) == word <==> !LeftStale(index, NotedAll(batches), wanted, disk, p))
  {
    NotedInOrder(batches);
    EventsApplied(index, InOrder(batches), wanted, disk, p);
    BatchesAgree(index, NotedAll(batches), wanted, disk, p);
    if LeftStale(index, NotedAll(batches), wanted, disk, p) {
      StaleIsNoted(index, NotedAll(batches), wanted, disk, p);
    }
    EventsNoted(InOrder(batches), p);
  }
}
