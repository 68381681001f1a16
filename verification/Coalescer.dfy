/** Bringing an index up to date from file events, many at a time
(crates/codegen/xai-codebase-graph/src/index_manager.rs). The index is a map from path to
contents, and `disk` says what reading a path would index: nothing for a file that is missing,
empty, binary or too large. */
module Coalescer {
  import opened Wrappers

  type Path = string

  datatype Kind = Created | Modified | Removed | Renamed

  datatype FileEvent = FileEvent(kind: Kind, paths: seq<Path>)

  /** What one event says of one path. */
  datatype Note = Note(path: Path, kind: Kind)

  type Pending = map<Path, Kind>
  type Index<C> = map<Path, C>
  type Disk<C> = Path -> Option<C>

  function Each(kind: Kind, paths: seq<Path>): seq<Note> {
    if paths == [] then [] else [Note(paths[0], kind)] + Each(kind, paths[1..])
  }

  /** A rename that carries both paths removes the first and creates the second. */
  function Notes(e: FileEvent): seq<Note> {
    if e.kind == Renamed && |e.paths| >= 2
    then [Note(e.paths[0], Removed), Note(e.paths[1], Created)]
    else Each(e.kind, e.paths)
  }

  // ---------- one at a time ----------

  function Lookup<C>(index: Index<C>, p: Path): Option<C> {
    if p in index then Some(index[p]) else None
  }

  /** What the index says of a path after a note of this kind. */
  function Outcome<C>(kind: Kind, p: Path, disk: Disk<C>): Option<C> {
    if kind == Removed then None else disk(p)
  }

  function Put<C>(index: Index<C>, p: Path, c: Option<C>): Index<C> {
    match c case Some(contents) => index[p := contents] case None => index - {p}
  }

  function ApplyNote<C>(index: Index<C>, n: Note, wanted: Path -> bool, disk: Disk<C>): Index<C> {
    if wanted(n.path) then Put(index, n.path, Outcome(n.kind, n.path, disk)) else index
  }

  function OneByOne<C>(index: Index<C>, notes: seq<Note>, wanted: Path -> bool, disk: Disk<C>): Index<C> {
    if notes == [] then index
    else ApplyNote(OneByOne(index, notes[..|notes| - 1], wanted, disk), notes[|notes| - 1], wanted, disk)
  }

  // ---------- coalesced ----------

  /** `insert`. */
  function Inserted(pending: Pending, n: Note): Pending {
    if n.path !in pending then pending[n.path := n.kind]
    else
      match (pending[n.path], n.kind)
      case (Created, Removed) => pending - {n.path}
      case (Modified, Removed) => pending - {n.path}
      case (Removed, Created) => pending[n.path := Created]
      case (Removed, Modified) => pending[n.path := Created]
      case _ => pending[n.path := n.kind]
  }

  function InsertedAll(pending: Pending, notes: seq<Note>): Pending {
    if notes == [] then pending else Inserted(InsertedAll(pending, notes[..|notes| - 1]), notes[|notes| - 1])
  }

  function Coalesced(notes: seq<Note>): Pending {
    InsertedAll(map[], notes)
  }

  function LookupAfter<C>(index: Index<C>, pending: Pending, p: Path, wanted: Path -> bool, disk: Disk<C>): Option<C> {
    if p in pending && wanted(p) then Outcome(pending[p], p, disk) else Lookup(index, p)
  }

  /** The index after the pending kinds, which concern different paths, have been applied. */
  function Flushed<C>(index: Index<C>, pending: Pending, wanted: Path -> bool, disk: Disk<C>): (r: Index<C>)
    ensures forall p :: Lookup(r, p) == LookupAfter(index, pending, p, wanted, disk)
  {
    map p | p in index.Keys + pending.Keys && LookupAfter(index, pending, p, wanted, disk).Some?
      :: LookupAfter(index, pending, p, wanted, disk).value
  }

  // ---------- where the two differ ----------

  /** The last note on the path is a `Removed`, and the one before it a `Created` or `Modified`: the
  two are taken to cancel. */
  predicate Cancelled(notes: seq<Note>, p: Path) {
    if notes == [] then false
    else
      var front, last := notes[..|notes| - 1], notes[|notes| - 1];
      if last.path != p then Cancelled(front, p)
      else last.kind == Removed && Touched(LastKind(front, p))
  }

  predicate Touched(kind: Option<Kind>) {
    kind == Some(Created) || kind == Some(Modified)
  }

  function LastKind(notes: seq<Note>, p: Path): Option<Kind> {
    if notes == [] then None
    else if notes[|notes| - 1].path == p then Some(notes[|notes| - 1].kind)
    else LastKind(notes[..|notes| - 1], p)
  }

  lemma {:induction false} OneByOneLast<C>(
    index: Index<C>, notes: seq<Note>, wanted: Path -> bool, disk: Disk<C>, p: Path)
    ensures Lookup(OneByOne(index, notes, wanted, disk), p) ==
            match LastKind(notes, p)
            case Some(kind) => if wanted(p) then Outcome(kind, p, disk) else Lookup(index, p)
            case None => Lookup(index, p)
  {
    if notes != [] {
      OneByOneLast(index, notes[..|notes| - 1], wanted, disk, p);
    }
  }

  /** What is pending on a path is a removal exactly when the last note is; nothing is pending
  when there is no note or the last one cancelled. */
  lemma {:induction false} PendingLast(notes: seq<Note>, p: Path)
    ensures var pending := Coalesced(notes);
            && (p in pending <==> LastKind(notes, p).Some? && !Cancelled(notes, p))
            && (p in pending ==> (pending[p] == Removed <==> LastKind(notes, p) == Some(Removed)))
            && (p in pending && Touched(Some(pending[p])) <==> Touched(LastKind(notes, p)))
            && (Cancelled(notes, p) ==> LastKind(notes, p) == Some(Removed))
  {
    if notes != [] {
      PendingLast(notes[..|notes| - 1], p);
    }
  }

  /** Coalescing gives the same index as one event at a time, except exactly on the wanted paths
  that were indexed before and whose last note cancelled: those are removed one by one, and
  stay in the index when coalesced. */
  lemma {:induction false} CoalescingAgrees<C>(
    index: Index<C>, notes: seq<Note>, wanted: Path -> bool, disk: Disk<C>, p: Path)
    ensures var together := Lookup(Flushed(index, Coalesced(notes), wanted, disk), p);
            var apart := Lookup(OneByOne(index, notes, wanted, disk), p);
            && (together == apart <==> !(Cancelled(notes, p) && wanted(p) && p in index))
            && (together != apart ==> apart == None && together == Some(index[p]))
  {
    OneByOneLast(index, notes, wanted, disk, p);
    PendingLast(notes, p);
  }

  // ---------- over a whole run ----------

  /** No path is removed right after a note that created or modified it. */
  predicate NeverCancels(notes: seq<Note>) {
    forall k :: 0 <= k < |notes| && notes[k].kind == Removed ==>
                  !Touched(LastKind(notes[..k], notes[k].path))
  }

  lemma {:induction false} NothingCancelled(notes: seq<Note>, p: Path)
    requires NeverCancels(notes)
    ensures !Cancelled(notes, p)
  {
    if notes != [] {
      var front := notes[..|notes| - 1];
      assert forall k :: 0 <= k < |front| ==> front[..k] == notes[..k];
      NothingCancelled(front, p);
    }
  }

  function Joined(batches: seq<seq<Note>>): seq<Note> {
    if batches == [] then [] else Joined(batches[..|batches| - 1]) + batches[|batches| - 1]
  }

  /** Each batch coalesced and flushed before the next. */
  function InBatches<C>(index: Index<C>, batches: seq<seq<Note>>, wanted: Path -> bool, disk: Disk<C>): Index<C> {
    if batches == [] then index
    else
      var front, last := batches[..|batches| - 1], batches[|batches| - 1];
      Flushed(InBatches(index, front, wanted, disk), Coalesced(last), wanted, disk)
  }

  lemma {:induction false} OneByOneConcat<C>(
    index: Index<C>, a: seq<Note>, b: seq<Note>, wanted: Path -> bool, disk: Disk<C>)
    ensures OneByOne(index, a + b, wanted, disk) == OneByOne(OneByOne(index, a, wanted, disk), b, wanted, disk)
    decreases |b|
  {
    if b == [] {
      assert a + b == a;
    } else {
      assert (a + b)[..|a + b| - 1] == a + b[..|b| - 1];
      OneByOneConcat(index, a, b[..|b| - 1], wanted, disk);
    }
  }

  lemma {:induction false} SameIndex<C>(a: Index<C>, b: Index<C>)
    requires forall p :: Lookup(a, p) == Lookup(b, p)
    ensures a == b
  {
    assert forall p :: p in a <==> Lookup(a, p).Some?;
    assert forall p :: p in b <==> Lookup(b, p).Some?;
    assert forall p | p in a :: Some(a[p]) == Lookup(a, p) == Lookup(b, p);
  }

  /** The last batch with a note on the path cancelled, on a wanted path that was indexed before it. */
  predicate LeftStale<C>(index: Index<C>, batches: seq<seq<Note>>, wanted: Path -> bool, disk: Disk<C>, p: Path) {
    if batches == [] then false
    else
      var front, last := batches[..|batches| - 1], batches[|batches| - 1];
      if LastKind(last, p).None? then LeftStale(index, front, wanted, disk, p)
      else Cancelled(last, p) && wanted(p) && p in InBatches(index, front, wanted, disk)
  }

  /** However the events are cut into batches, coalescing each leaves of a path what one event at
  a time leaves, except exactly on a path left stale, which stays indexed. */
  lemma {:induction false} BatchesAgree<C>(
    index: Index<C>, batches: seq<seq<Note>>, wanted: Path -> bool, disk: Disk<C>, p: Path)
    ensures var together := Lookup(InBatches(index, batches, wanted, disk), p);
            var apart := Lookup(OneByOne(index, Joined(batches), wanted, disk), p);
            && (together == apart <==> !LeftStale(index, batches, wanted, disk, p))
            && (together != apart ==> apart == None && together.Some?)
    ensures LeftStale(index, batches, wanted, disk, p) ==> wanted(p)
    decreases |batches|
  {
    if batches != [] {
      var front, last := batches[..|batches| - 1], batches[|batches| - 1];
      BatchesAgree(index, front, wanted, disk, p);
      OneByOneConcat(index, Joined(front), last, wanted, disk);
      OneByOneLast(OneByOne(index, Joined(front), wanted, disk), last, wanted, disk, p);
      PendingLast(last, p);
    }
  }

  /** So batches in which nothing is removed after it was created or modified leave the index
  that one event at a time leaves. */
  lemma {:induction false} QuietBatchesAgree<C>(
    index: Index<C>, batches: seq<seq<Note>>, wanted: Path -> bool, disk: Disk<C>)
    requires forall k :: 0 <= k < |batches| ==> NeverCancels(batches[k])
    ensures InBatches(index, batches, wanted, disk) == OneByOne(index, Joined(batches), wanted, disk)
  {
    forall p
      ensures Lookup(InBatches(index, batches, wanted, disk), p) ==
              Lookup(OneByOne(index, Joined(batches), wanted, disk), p)
    {
      BatchesAgree(index, batches, wanted, disk, p);
      NothingStale(index, batches, wanted, disk, p);
    }
    SameIndex(InBatches(index, batches, wanted, disk), OneByOne(index, Joined(batches), wanted, disk));
  }

  lemma {:induction false} NothingStale<C>(
    index: Index<C>, batches: seq<seq<Note>>, wanted: Path -> bool, disk: Disk<C>, p: Path)
    requires forall k :: 0 <= k < |batches| ==> NeverCancels(batches[k])
    ensures !LeftStale(index, batches, wanted, disk, p)
    decreases |batches|
  {
    if batches != [] {
      NothingStale(index, batches[..|batches| - 1], wanted, disk, p);
      NothingCancelled(batches[|batches| - 1], p);
    }
  }

  /** The exception: an indexed file modified and then removed in one batch stays indexed. */
  lemma {:induction false} ModifiedThenRemovedStays<C>(p: Path, c: C, wanted: Path -> bool, disk: Disk<C>)
    requires wanted(p)
    ensures var notes := [Note(p, Modified), Note(p, Removed)];
            p in Flushed(map[p := c], Coalesced(notes), wanted, disk)
            && p !in OneByOne(map[p := c], notes, wanted, disk)
  {
    var notes := [Note(p, Modified), Note(p, Removed)];
    assert notes[..1] == [Note(p, Modified)] && [Note(p, Modified)][..0] == [];
    InsertedConcat(map[], [], Note(p, Modified));
    assert [] + [Note(p, Modified)] == [Note(p, Modified)];
    assert Coalesced([Note(p, Modified)]) == map[p := Modified];
    assert Cancelled(notes, p);
    CoalescingAgrees(map[p := c], notes, wanted, disk, p);
    assert p in Flushed(map[p := c], Coalesced(notes), wanted, disk) <==>
           Lookup(Flushed(map[p := c], Coalesced(notes), wanted, disk), p).Some?;
  }

  // ---------- the objects ----------

  lemma {:induction false} InsertedConcat(pending: Pending, a: seq<Note>, n: Note)
    ensures InsertedAll(pending, a + [n]) == Inserted(InsertedAll(pending, a), n)
  {
    assert (a + [n])[..|a|] == a;
  }

  lemma {:induction false} InsertedInTurn(pending: Pending, a: seq<Note>, b: seq<Note>)
    ensures InsertedAll(pending, a + b) == InsertedAll(InsertedAll(pending, a), b)
    decreases |b|
  {
    if b == [] {
      assert a + b == a;
    } else {
      assert (a + b)[..|a + b| - 1] == a + b[..|b| - 1];
      InsertedInTurn(pending, a, b[..|b| - 1]);
    }
  }

  // ---------- the command queue ----------

  datatype Command = Event(event: FileEvent) | Batch(events: seq<FileEvent>) | Other

  function BatchNotes(events: seq<FileEvent>): seq<Note> {
    if events == [] then [] else BatchNotes(events[..|events| - 1]) + Notes(events[|events| - 1])
  }

  function CommandNotes(c: Command): seq<Note> {
    match c
    case Event(e) => Notes(e)
    case Batch(events) => BatchNotes(events)
    case Other => []
  }

  function QueueNotes(queue: seq<Command>): seq<Note> {
    if queue == [] then [] else QueueNotes(queue[..|queue| - 1]) + CommandNotes(queue[|queue| - 1])
  }

  lemma {:induction false} QueueStep(pending: Pending, queue: seq<Command>, c: Command)
    ensures InsertedAll(pending, QueueNotes(queue + [c])) ==
            InsertedAll(InsertedAll(pending, QueueNotes(queue)), CommandNotes(c))
  {
    assert (queue + [c])[..|queue|] == queue;
    InsertedInTurn(pending, QueueNotes(queue), CommandNotes(c));
  }

  lemma {:induction false} OneMore(queue: seq<Command>, k: nat)
    requires k < |queue|
    ensures queue[..k + 1] == queue[..k] + [queue[k]]
  {}

  lemma {:induction false} EachNext(kind: Kind, paths: seq<Path>, k: nat)
    requires k < |paths|
    ensures Each(kind, paths[..k + 1]) == Each(kind, paths[..k]) + [Note(paths[k], kind)]
  {
    assert paths[..k + 1][..1] == paths[..1];
    if k > 0 {
      assert paths[1..][..k] == paths[..k + 1][1..] && paths[1..][..k - 1] == paths[..k][1..];
      EachNext(kind, paths[1..], k - 1);
    }
  }

  class CoalescedEvents {
    var events: Pending

    constructor ()
      ensures events == map[]
    {
      events := map[];
    }

    method Add(event: FileEvent)
      modifies this
      ensures events == InsertedAll(old(events), Notes(event))
    {
      if event.kind == Renamed && |event.paths| >= 2 {
        var from, to := Note(event.paths[0], Removed), Note(event.paths[1], Created);
        InsertedConcat(events, [], from);
        InsertedConcat(events, [from], to);
        assert [] + [from] == [from] && [from] + [to] == [from, to];
        Insert(from.path, Removed);
        Insert(to.path, Created);
        return;
      }
      var k := 0;
      while k < |event.paths|
        invariant k <= |event.paths|
        invariant events == InsertedAll(old(events), Each(event.kind, event.paths[..k]))
      {
        EachNext(event.kind, event.paths, k);
        InsertedConcat(old(events), Each(event.kind, event.paths[..k]), Note(event.paths[k], event.kind));
        Insert(event.paths[k], event.kind);
        k := k + 1;
      }
      assert event.paths[..k] == event.paths;
    }

    method AddBatch(batch: seq<FileEvent>)
      modifies this
      ensures events == InsertedAll(old(events), BatchNotes(batch))
    {
      var k := 0;
      while k < |batch|
        invariant k <= |batch| && events == InsertedAll(old(events), BatchNotes(batch[..k]))
      {
        assert batch[..k + 1][..k] == batch[..k];
        InsertedInTurn(old(events), BatchNotes(batch[..k]), Notes(batch[k]));
        Add(batch[k]);
        k := k + 1;
      }
      assert batch[..k] == batch;
    }

    /** Adds the events that are waiting, up to the first other command. */
    method Drain(waiting: seq<Command>) returns (taken: nat)
      modifies this
      ensures taken <= |waiting| && (taken < |waiting| ==> waiting[taken].Other?)
      ensures forall c :: c in waiting[..taken] ==> !c.Other?
      ensures events == InsertedAll(old(events), QueueNotes(waiting[..taken]))
    {
      taken := 0;
      ghost var drained: seq<Command> := [];
      while taken < |waiting| && !waiting[taken].Other?
        invariant taken <= |waiting| && drained == waiting[..taken]
        invariant forall c :: c in drained ==> !c.Other?
        invariant events == InsertedAll(old(events), QueueNotes(drained))
      {
        var c := waiting[taken];
        QueueStep(old(events), drained, c);
        OneMore(waiting, taken);
        AddCommand(c);
        drained := drained + [c];
        taken := taken + 1;
      }
    }

    method AddCommand(c: Command)
      requires !c.Other?
      modifies this
      ensures events == InsertedAll(old(events), CommandNotes(c))
    {
      match c {
        case Event(e) => Add(e);
        case Batch(batch) => AddBatch(batch);
      }
    }

    method Insert(path: Path, kind: Kind)
      modifies this
      ensures events == Inserted(old(events), Note(path, kind))
    {
      if path !in events {
        events := events[path := kind];
      } else {
        match (events[path], kind)
        case (Created, Removed) => events := events - {path};
        case (Modified, Removed) => events := events - {path};
        case (Removed, Created) => events := events[path := Created];
        case (Removed, Modified) => events := events[path := Created];
        case _ => events := events[path := kind];
      }
    }
  }

  class IndexManager<C> {
    var index: Index<C>
    const wanted: Path -> bool
    const disk: Disk<C>

    constructor (index: Index<C>, wanted: Path -> bool, disk: Disk<C>)
      ensures this.index == index && this.wanted == wanted && this.disk == disk
    {
      this.index, this.wanted, this.disk := index, wanted, disk;
    }

    /** The draining arm of `process_command_coalesced`: the file events that are waiting are
    coalesced with this one and flushed before any other command is handled. */
    method ProcessEvents(event: FileEvent, waiting: seq<Command>) returns (taken: nat)
      modifies this
      ensures taken <= |waiting| && (taken < |waiting| ==> waiting[taken].Other?)
      ensures forall c :: c in waiting[..taken] ==> !c.Other?
      ensures index == Flushed(old(index), Coalesced(Notes(event) + QueueNotes(waiting[..taken])), wanted, disk)
    {
      var coalesced := new CoalescedEvents();
      coalesced.Add(event);
      taken := coalesced.Drain(waiting);
      InsertedInTurn(map[], Notes(event), QueueNotes(waiting[..taken]));
      ApplyCoalesced(coalesced.events);
    }

    /** `apply_coalesced`: the map hands out its entries in any order. */
    method ApplyCoalesced(events: Pending)
      modifies this
      ensures index == Flushed(old(index), events, wanted, disk)
    {
      var rest := events;
      while rest != map[]
        invariant rest.Keys <= events.Keys && forall p :: p in rest ==> rest[p] == events[p]
        invariant forall p :: Lookup(index, p) ==
                              if p in rest then Lookup(old(index), p)
                              else LookupAfter(old(index), events, p, wanted, disk)
        decreases |rest|
      {
        assert rest.Keys != {};
        var path :| path in rest;
        if wanted(path) {
          if rest[path] == Removed {
            index := index - {path};
          } else {
            Reindex(path);
          }
        }
        rest := rest - {path};
      }
      SameIndex(index, Flushed(old(index), events, wanted, disk));
    }

    /** `reindex_file`: old entries first, so a file that cannot be read stays absent. */
    method Reindex(path: Path)
      modifies this
      ensures index == Put(old(index), path, disk(path))
    {
      index := index - {path};
      var contents := disk(path);
      if contents.Some? {
        index := index[path := contents.value];
      }
    }
  }
}
