/** Which items the passes over tool results keep, and which they report. */
module PairingPositions {
  import opened Text
  import opened Conversation
  import opened Pairing
  import opened Positions

  /** An item that sanitizing keeps: no tool result, or one that an earlier assistant declares. */
  ghost function Declared(items: History, seen: set<string>): nat -> bool {
    (i: nat) => i < |items| && (items[i].ToolResult? ==> DeclaredBefore(items, i, seen))
  }

  ghost function Undeclared(items: History, seen: set<string>): nat -> bool {
    (i: nat) => i < |items| && items[i].ToolResult? && !DeclaredBefore(items, i, seen)
  }

  /** An item that stripping keeps: no tool result, or one in the run of its owner. */
  ghost function Placed(items: History, run: set<string>): nat -> bool {
    (i: nat) => i < |items| && (items[i].ToolResult? ==> InItsRun(items, i, run))
  }

  ghost function Misplaced(items: History, run: set<string>): nat -> bool {
    (i: nat) => i < |items| && items[i].ToolResult? && !InItsRun(items, i, run)
  }

  predicate ItemsAt(items: History, at: seq<nat>, out: History) {
    |out| == |at| && forall k :: 0 <= k < |at| ==> at[k] < |items| && out[k] == items[at[k]]
  }

  predicate IdsAt(items: History, at: seq<nat>, ids: seq<string>) {
    && |ids| == |at|
    && forall k :: 0 <= k < |at| ==> at[k] < |items| && items[at[k]].ToolResult? && ids[k] == items[at[k]].callId
  }

  lemma {:induction false} ItemsAhead(items: History, rest: seq<nat>, out: History, first: bool)
    requires items != [] && ItemsAt(items[1..], rest, out)
    ensures ItemsAt(items, Ahead(first, rest), (if first then [items[0]] else []) + out)
  {}

  lemma {:induction false} IdsAhead(items: History, rest: seq<nat>, ids: seq<string>, first: bool)
    requires items != [] && IdsAt(items[1..], rest, ids) && (first ==> items[0].ToolResult?)
    ensures IdsAt(items, Ahead(first, rest), (if first then [items[0].callId] else []) + ids)
  {}

  lemma {:induction false} DeclaredCons(items: History, i: nat, seen: set<string>)
    requires i + 1 < |items| && items[i + 1].ToolResult?
    ensures DeclaredBefore(items, i + 1, seen) <==> DeclaredBefore(items[1..], i, seen + Declares(items[0]))
  {
    var rest := items[1..];
    if DeclaredBefore(items, i + 1, seen) && items[i + 1].callId !in seen + Declares(items[0]) {
      var j :| 0 <= j < i + 1 && items[i + 1].callId in Declares(items[j]);
      assert items[i + 1].callId in Declares(rest[j - 1]);
    }
    if exists j :: 0 <= j < i && rest[i].callId in Declares(rest[j]) {
      var j :| 0 <= j < i && rest[i].callId in Declares(rest[j]);
      assert items[i + 1].callId in Declares(items[j + 1]);
    }
  }

  lemma {:induction false} DeclaredBehind(items: History, seen: set<string>, i: nat)
    requires i + 1 < |items|
    ensures var next := seen + Declares(items[0]);
            && (Declared(items[1..], next)(i) <==> Declared(items, seen)(i + 1))
            && (Undeclared(items[1..], next)(i) <==> Undeclared(items, seen)(i + 1))
  {
    if items[i + 1].ToolResult? { DeclaredCons(items, i, seen); }
  }

  lemma {:induction false} SanitizedKeptAhead(items: History, seen: set<string>, rest: seq<nat>)
    requires items != [] && Lists(rest, 0, |items| - 1, Declared(items[1..], seen + Declares(items[0])))
    ensures Lists(Ahead(Declared(items, seen)(0), rest), 0, |items|, Declared(items, seen))
  {
    forall i: nat | i < |items| - 1
      ensures Declared(items[1..], seen + Declares(items[0]))(i) <==> Declared(items, seen)(i + 1)
    {
      DeclaredBehind(items, seen, i);
    }
    ListsAhead(rest, |items| - 1, Declared(items[1..], seen + Declares(items[0])), Declared(items, seen));
  }

  lemma {:induction false} SanitizedKept(items: History, seen: set<string>) returns (kept: seq<nat>)
    ensures Lists(kept, 0, |items|, Declared(items, seen)) && ItemsAt(items, kept, Sanitized(items, seen))
  {
    kept := [];
    if items != [] {
      var rest := SanitizedKept(items[1..], seen + Declares(items[0]));
      SanitizedKeptAhead(items, seen, rest);
      var first := Declared(items, seen)(0);
      ItemsAhead(items, rest, Sanitized(items[1..], seen + Declares(items[0])), first);
      EmptyFront(Sanitized(items[1..], seen + Declares(items[0])));
      kept := Ahead(first, rest);
    }
  }

  lemma {:induction false} SanitizedGoneAhead(items: History, seen: set<string>, rest: seq<nat>)
    requires items != [] && Lists(rest, 0, |items| - 1, Undeclared(items[1..], seen + Declares(items[0])))
    ensures Lists(Ahead(Undeclared(items, seen)(0), rest), 0, |items|, Undeclared(items, seen))
  {
    forall i: nat | i < |items| - 1
      ensures Undeclared(items[1..], seen + Declares(items[0]))(i) <==> Undeclared(items, seen)(i + 1)
    {
      DeclaredBehind(items, seen, i);
    }
    ListsAhead(rest, |items| - 1, Undeclared(items[1..], seen + Declares(items[0])), Undeclared(items, seen));
  }

  lemma {:induction false} SanitizedGone(items: History, seen: set<string>) returns (gone: seq<nat>)
    ensures Lists(gone, 0, |items|, Undeclared(items, seen)) && IdsAt(items, gone, Orphans(items, seen))
  {
    gone := [];
    if items != [] {
      var rest := SanitizedGone(items[1..], seen + Declares(items[0]));
      SanitizedGoneAhead(items, seen, rest);
      var first := Undeclared(items, seen)(0);
      IdsAhead(items, rest, Orphans(items[1..], seen + Declares(items[0])), first);
      EmptyFront(Orphans(items[1..], seen + Declares(items[0])));
      gone := Ahead(first, rest);
    }
  }

  /** Sanitizing keeps, in order, every item but the tool results that no earlier assistant declares; validation
  reports the ids of these, in order. */
  lemma {:induction false} SanitizedAt(items: History, seen: set<string>) returns (kept: seq<nat>, gone: seq<nat>)
    ensures Lists(kept, 0, |items|, Declared(items, seen)) && ItemsAt(items, kept, Sanitized(items, seen))
    ensures Lists(gone, 0, |items|, Undeclared(items, seen)) && IdsAt(items, gone, Orphans(items, seen))
  {
    kept := SanitizedKept(items, seen);
    gone := SanitizedGone(items, seen);
  }

  lemma {:induction false} PlacedBehind(items: History, run: set<string>, i: nat)
    requires i + 1 < |items|
    ensures var next := RunAfter(items[0], run);
            && (Placed(items[1..], next)(i) <==> Placed(items, run)(i + 1))
            && (Misplaced(items[1..], next)(i) <==> Misplaced(items, run)(i + 1))
  {
    if items[i + 1].ToolResult? { InItsRunCons(items, i, run); }
  }

  lemma {:induction false} StrippedKeptAhead(items: History, run: set<string>, rest: seq<nat>)
    requires items != [] && Lists(rest, 0, |items| - 1, Placed(items[1..], RunAfter(items[0], run)))
    ensures Lists(Ahead(Placed(items, run)(0), rest), 0, |items|, Placed(items, run))
  {
    forall i: nat | i < |items| - 1
      ensures Placed(items[1..], RunAfter(items[0], run))(i) <==> Placed(items, run)(i + 1)
    {
      PlacedBehind(items, run, i);
    }
    ListsAhead(rest, |items| - 1, Placed(items[1..], RunAfter(items[0], run)), Placed(items, run));
  }

  lemma {:induction false} StrippedKept(items: History, run: set<string>) returns (kept: seq<nat>)
    ensures Lists(kept, 0, |items|, Placed(items, run)) && ItemsAt(items, kept, Stripped(items, run))
  {
    kept := [];
    if items != [] {
      var rest := StrippedKept(items[1..], RunAfter(items[0], run));
      StrippedKeptAhead(items, run, rest);
      var first := Placed(items, run)(0);
      ItemsAhead(items, rest, Stripped(items[1..], RunAfter(items[0], run)), first);
      EmptyFront(Stripped(items[1..], RunAfter(items[0], run)));
      kept := Ahead(first, rest);
    }
  }

  lemma {:induction false} StrippedGoneAhead(items: History, run: set<string>, rest: seq<nat>)
    requires items != [] && Lists(rest, 0, |items| - 1, Misplaced(items[1..], RunAfter(items[0], run)))
    ensures Lists(Ahead(Misplaced(items, run)(0), rest), 0, |items|, Misplaced(items, run))
  {
    forall i: nat | i < |items| - 1
      ensures Misplaced(items[1..], RunAfter(items[0], run))(i) <==> Misplaced(items, run)(i + 1)
    {
      PlacedBehind(items, run, i);
    }
    ListsAhead(rest, |items| - 1, Misplaced(items[1..], RunAfter(items[0], run)), Misplaced(items, run));
  }

  lemma {:induction false} StrippedGone(items: History, run: set<string>) returns (gone: seq<nat>)
    ensures Lists(gone, 0, |items|, Misplaced(items, run)) && IdsAt(items, gone, Displaced(items, run))
  {
    gone := [];
    if items != [] {
      var rest := StrippedGone(items[1..], RunAfter(items[0], run));
      StrippedGoneAhead(items, run, rest);
      var first := Misplaced(items, run)(0);
      IdsAhead(items, rest, Displaced(items[1..], RunAfter(items[0], run)), first);
      EmptyFront(Displaced(items[1..], RunAfter(items[0], run)));
      gone := Ahead(first, rest);
    }
  }

  /** Stripping keeps, in order, every item but the tool results outside the run of their owner, and reports the
  ids of these, in order. */
  lemma {:induction false} StrippedAt(items: History, run: set<string>) returns (kept: seq<nat>, gone: seq<nat>)
    ensures Lists(kept, 0, |items|, Placed(items, run)) && ItemsAt(items, kept, Stripped(items, run))
    ensures Lists(gone, 0, |items|, Misplaced(items, run)) && IdsAt(items, gone, Displaced(items, run))
  {
    kept := StrippedKept(items, run);
    gone := StrippedGone(items, run);
  }
}
