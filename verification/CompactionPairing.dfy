/** Compacting never orphans a tool result. */
module CompactionPairing {
  import opened Conversation
  import opened Compaction
  import opened CompactionLaws
  import opened Pairing

  /** Leaving items out between the runs keeps the pairing. */
  lemma {:induction false} CarriedPaired(items: History, run: set<string>, wide: set<string>)
    requires Stripped(items, run) == items && run <= wide
    ensures Stripped(CarriedAll(items), wide) == CarriedAll(items)
  {
    if items != [] {
      var x, rest := items[0], CarriedAll(items[1..]);
      StrippedParts(items, run);
      if Carried(x) == [] {
        CarriedPaired(items[1..], RunAfter(x, run), wide);
        assert [] + rest == rest;
      } else {
        var y := Carried(x)[0];
        CarriedPaired(items[1..], RunAfter(x, run), RunAfter(y, wide));
        assert Carried(x) + rest == [y] + rest && ([y] + rest)[1..] == rest;
        StrippedParts([y] + rest, wide);
      }
    }
  }

  lemma {:induction false} RecentPaired(items: History, human: Item -> bool)
    requires IsClassifier(human) && Stripped(items, {}) == items
    ensures Stripped(RecentMessages(items, human), {}) == RecentMessages(items, human)
  {
    var k := RecentStart(items, human);
    SuffixPaired(items, {}, k);
    var b := LastIndex(items, Boundary(human));
    if b.Some? {
      assert Boundary(human)(items[b.value]) && items[b.value].User?;
      if k == b.value {
        assert items[k..][0] == items[k];
        assert Stripped(items[k..], {}) == Stripped(items[k..], RunAt(items, {}, k));
      }
    }
    CarriedPaired(items[k..], {}, {});
  }

  /** Neither results nor assistants. */
  predicate Plain(items: History) {
    forall x :: x in items ==> !x.ToolResult? && !x.Assistant?
  }

  lemma {:induction false} PlainFront(plain: History, items: History)
    requires Plain(plain)
    ensures Stripped(plain + items, {}) == plain + items <==> Stripped(items, {}) == items
  {
    if plain == [] {
      assert plain + items == items;
    } else {
      assert (plain + items)[1..] == plain[1..] + items;
      PlainFront(plain[1..], items);
      StrippedParts(plain + items, {});
    }
  }

  lemma {:induction false} PlainEnd(items: History, plain: History, run: set<string>)
    requires Plain(plain)
    ensures Stripped(items + plain, run) == items + plain <==> Stripped(items, run) == items
  {
    if items == [] {
      assert items + plain == plain;
      PlainAlone(plain, run);
    } else {
      assert (items + plain)[1..] == items[1..] + plain;
      StrippedParts(items, run);
      PlainEnd(items[1..], plain, RunAfter(items[0], run));
      StrippedParts(items + plain, run);
    }
  }

  lemma {:induction false} PlainAlone(plain: History, run: set<string>)
    requires Plain(plain)
    ensures Stripped(plain, run) == plain
  {
    if plain != [] { PlainAlone(plain[1..], {}); }
  }

  lemma {:induction false} FramePlain(input: Input, c: Context)
    requires c.anchor.Some? ==> IsAgentMessage(c.anchor.value.item)
    ensures var a := EmittedAnchor(c.anchor, c.recent);
            && Plain(Head(input, c)) && Plain(Tail(input))
            && Plain(AnchorBefore(a) + QueryItems(c.lastQuery) + AnchorAfter(a))
  {}

  /** A compacted history is paired exactly when its working tail is. */
  lemma {:induction false} CompactedPaired(input: Input, c: Context)
    requires c.anchor.Some? ==> IsAgentMessage(c.anchor.value.item)
    ensures Stripped(CompactedHistory(input, c), {}) == CompactedHistory(input, c)
       <==> Stripped(c.recent, {}) == c.recent
  {
    var a := EmittedAnchor(c.anchor, c.recent);
    var mid := AnchorBefore(a) + QueryItems(c.lastQuery) + AnchorAfter(a);
    FramePlain(input, c);
    PlainFront(mid, c.recent);
    PlainFront(Head(input, c), mid + c.recent);
    PlainEnd(Head(input, c) + (mid + c.recent), Tail(input), {});
  }

  lemma {:induction false} ContextPaired(items: History, s: Session, human: Item -> bool)
    requires IsClassifier(human) && Stripped(items, {}) == items
    ensures Stripped(ContextOf(items, s, human).recent, {}) == ContextOf(items, s, human).recent
  {
    RecentPaired(items, human);
  }

  /** Every result of a compaction lies in its owner's contiguous run, and nothing is reported as
  orphaned, exactly when the retained tail alone has that shape. */
  lemma {:induction false} CompactionPairedExactly(items: History, s: Session)
    ensures var out, recent := Compact(items, s, IsRealUserTurn), ContextOf(items, s, IsRealUserTurn).recent;
            Paired(out, {}) <==> Paired(recent, {})
    ensures var out, recent := Compact(items, s, IsRealUserTurn), ContextOf(items, s, IsRealUserTurn).recent;
            Paired(recent, {}) ==> Orphans(out, {}) == []
  {
    var out, c := Compact(items, s, IsRealUserTurn), ContextOf(items, s, IsRealUserTurn);
    RealTurnsClassify();
    ContextShaped(items, s, IsRealUserTurn);
    StrippedExactly(c.recent, {});
    StrippedExactly(out, {});
    CompactedPaired(s.input, c);
    if Paired(c.recent, {}) {
      StripMeetsSanitize(out, {}, {});
    }
  }

  /** So it is whenever the history itself is paired, with or without the working tail; */
  lemma {:induction false} CompactionKeepsPairing(items: History, s: Session)
    requires Paired(items, {})
    ensures Paired(Compact(items, s, IsRealUserTurn), {})
    ensures Orphans(Compact(items, s, IsRealUserTurn), {}) == []
  {
    StrippedExactly(items, {});
    RealTurnsClassify();
    ContextPaired(items, s, IsRealUserTurn);
    StrippedExactly(ContextOf(items, s, IsRealUserTurn).recent, {});
    CompactionPairedExactly(items, s);
  }

  /** and for every history once the tail is dropped. */
  lemma {:induction false} DroppedTailPairs(items: History, s: Session)
    requires s.dropTail
    ensures Paired(Compact(items, s, IsRealUserTurn), {})
    ensures Orphans(Compact(items, s, IsRealUserTurn), {}) == []
  {
    CompactionPairedExactly(items, s);
  }
}
