/** Compaction leaves no tool call without a result that had one. */
module CompactionCalls {
  import opened Text
  import opened Conversation
  import opened Compaction
  import opened CompactionLaws
  import opened CompactionTail
  import opened Pairing
  import opened Repair

  /** Results in front make no difference. */
  lemma {:induction false} BehindResults(items: History)
    ensures HasDangling(items[RunLen(items)..]) <==> HasDangling(items)
  {
    if items != [] && items[0].ToolResult? {
      BehindResults(items[1..]);
      assert items[RunLen(items)..] == items[1..][RunLen(items[1..])..];
    }
  }

  lemma {:induction false} NoAskingFront(front: History, items: History)
    requires forall x :: x in front ==> !AsksTools(x)
    ensures HasDangling(front + items) <==> HasDangling(items)
  {
    if front == [] {
      assert front + items == items;
    } else {
      assert (front + items)[1..] == front[1..] + items;
      NoAskingFront(front[1..], items);
    }
  }

  lemma {:induction false} RunLenGrows(items: History, more: History)
    ensures RunLen(items + more) >= RunLen(items)
    ensures (items + more)[..RunLen(items)] == items[..RunLen(items)]
  {
    if items != [] && items[0].ToolResult? {
      assert (items + more)[1..] == items[1..] + more;
      RunLenGrows(items[1..], more);
    }
  }

  lemma {:induction false} ResultIdsGrow(run: History, more: History)
    ensures ResultIds(run) <= ResultIds(run + more)
  {
    if run != [] {
      assert (run + more)[1..] == run[1..] + more;
      ResultIdsGrow(run[1..], more);
    }
  }

  /** A run of results is carried as a run of results for the same calls. */
  lemma {:induction false} RunCarried(run: History)
    requires AllResults(run)
    ensures var r := CarriedAll(run);
            |r| == |run| && AllResults(r) && ResultIds(r) == ResultIds(run)
  {
    if run != [] {
      assert run[0] in run;
      RunCarried(run[1..]);
      assert CarriedAll(run)[1..] == CarriedAll(run[1..]);
    }
  }

  lemma {:induction false} FrontRun(run: History, rest: History)
    requires AllResults(run)
    ensures var x := run + rest;
            RunLen(x) >= |run| && ResultIds(run) <= ResultIds(x[..RunLen(x)])
  {
    RunLenJoin(run, []);
    assert run + [] == run;
    RunLenGrows(run, rest);
    var x := run + rest;
    assert x[..RunLen(x)] == run + x[|run|..RunLen(x)];
    ResultIdsGrow(run, x[|run|..RunLen(x)]);
  }

  lemma {:induction false} CarriedAnswered(items: History)
    requires !HasDangling(items)
    ensures !HasDangling(CarriedAll(items))
    decreases |items|
  {
    if items != [] {
      if AsksTools(items[0]) {
        var n := RunLen(items[1..]);
        var run, rest := items[1..1 + n], items[1 + n..];
        assert items[1..] == run + rest;
        CarriedConcat(run, rest);
        CarriedAnswered(rest);
        AskingCarried(items[0], run, CarriedAll(rest));
        assert CarriedAll(items) == [items[0]] + (CarriedAll(run) + CarriedAll(rest));
      } else {
        CarriedAnswered(items[1..]);
        assert forall x :: x in Carried(items[0]) ==> !AsksTools(x);
        NoAskingFront(Carried(items[0]), CarriedAll(items[1..]));
      }
    }
  }

  lemma {:induction false} AskingCarried(a: Item, run: History, rest: History)
    requires AsksTools(a) && AllResults(run) && CallIds(a.calls) <= ResultIds(run) && !HasDangling(rest)
    ensures !HasDangling([a] + (CarriedAll(run) + rest))
  {
    var x := CarriedAll(run) + rest;
    RunCarried(run);
    FrontRun(CarriedAll(run), rest);
    assert ([a] + x)[1..] == x && x[RunLen(x)..] == ([a] + x)[1 + RunLen(x)..];
    assert x[..RunLen(x)] == ([a] + x)[1..1 + RunLen(x)];
    BehindResults(x);
    assert forall y :: y in CarriedAll(run) ==> !AsksTools(y);
    NoAskingFront(CarriedAll(run), rest);
  }

  /** A cut that separates no results from the assistant before them. */
  predicate CleanCut(items: History, k: nat) {
    k == 0 || k >= |items| || !items[k].ToolResult? || (!items[k - 1].ToolResult? && !AsksTools(items[k - 1]))
  }

  lemma {:induction false} SuffixAnswered(items: History, k: nat)
    requires k <= |items| && CleanCut(items, k) && !HasDangling(items)
    ensures !HasDangling(items[k..])
    decreases |items|
  {
    if k > 0 {
      if AsksTools(items[0]) {
        var n := RunLen(items[1..]);
        assert forall j :: 1 <= j < 1 + n ==> items[j] == items[1..][j - 1];
        assert k >= 1 + n;
        SuffixAnswered(items[1 + n..], k - 1 - n);
        assert items[k..] == items[1 + n..][k - 1 - n..];
      } else {
        if k > 1 || CleanCut(items[1..], 0) {
          SuffixAnswered(items[1..], k - 1);
        }
        assert items[k..] == items[1..][k - 1..];
      }
    }
  }

  lemma {:induction false} NoWorkBehind(items: History, plain: History)
    requires NoWork(plain)
    ensures HasDangling(items + plain) <==> HasDangling(items)
    decreases |items|
  {
    if items == [] {
      assert items + plain == plain + [];
      NoAskingFront(plain, []);
    } else {
      var n := if AsksTools(items[0]) then RunLen(items[1..]) else 0;
      assert (items + plain)[1..] == items[1..] + plain;
      if AsksTools(items[0]) { RunLenPlain(items[1..], plain); }
      assert (items + plain)[1..1 + n] == items[1..1 + n] && (items + plain)[1 + n..] == items[1 + n..] + plain;
      NoWorkBehind(items[1 + n..], plain);
    }
  }

  lemma {:induction false} RunLenPlain(items: History, plain: History)
    requires NoWork(plain)
    ensures RunLen(items + plain) == RunLen(items)
  {
    if items == [] {
      assert items + plain == plain;
      assert plain != [] ==> plain[0] in plain;
    } else {
      assert (items + plain)[1..] == items[1..] + plain;
      RunLenPlain(items[1..], plain);
    }
  }

  /** If every call of the input has a result in its run, so has every call of the compacted history. */
  lemma {:induction false} CompactionLeavesNoneOpen(items: History, s: Session, human: Item -> bool)
    requires IsClassifier(human) && !HasDangling(items)
    ensures !HasDangling(Compact(items, s, human))
  {
    var before := AroundTail(items, s, human);
    var recent := ContextOf(items, s, human).recent;
    if !s.dropTail {
      var start := RecentStart(items, human);
      SuffixAnswered(items, start);
      CarriedAnswered(items[start..]);
    }
    NoWorkBehind(recent, Tail(s.input));
    NoAskingFront(before, recent + Tail(s.input));
    Assoc3(before, recent, Tail(s.input));
  }
}
