/** The bounded tail of recent raw output (crates/codegen/ptyctl/src/wait.rs, `push_raw_tail`). */
module RawTail {

  const RAW_TAIL_CAP: nat := 2048

  /** The last `RAW_TAIL_CAP` elements, or all there are. */
  function LastOf<T>(s: seq<T>): (r: seq<T>)
    ensures |r| <= RAW_TAIL_CAP
  {
    if |s| <= RAW_TAIL_CAP then s else s[|s| - RAW_TAIL_CAP..]
  }

  function Concat<T>(chunks: seq<seq<T>>): seq<T> {
    if chunks == [] then [] else Concat(chunks[..|chunks| - 1]) + chunks[|chunks| - 1]
  }

  lemma {:induction false} LastOfSuffix<T>(s: seq<T>, d: nat)
    requires d <= |s| && (d == 0 || |s| - d >= RAW_TAIL_CAP)
    ensures LastOf(s[d..]) == LastOf(s)
  {
    if d > 0 {
      var k := |s| - d - RAW_TAIL_CAP;
      assert s[d..][k..] == s[d + k..];
    }
  }

  /** What the tail drops never comes back into it. */
  lemma {:induction false} LastOfLast<T>(a: seq<T>, b: seq<T>)
    ensures LastOf(LastOf(a) + b) == LastOf(a + b)
  {
    var d := if |a| <= RAW_TAIL_CAP then 0 else |a| - RAW_TAIL_CAP;
    assert LastOf(a) + b == (a + b)[d..];
    LastOfSuffix(a + b, d);
  }

  /** Dropping from the front until both fit leaves the last of both. */
  lemma {:induction false} DropThenAppend<T>(was: seq<T>, d: nat, bytes: seq<T>)
    requires d <= |was| && |was| - d + |bytes| <= RAW_TAIL_CAP
    requires d == 0 || |was| - d + |bytes| == RAW_TAIL_CAP
    ensures was[d..] + bytes == LastOf(was + bytes)
  {
    assert was[d..] + bytes == (was + bytes)[d..];
    LastOfSuffix(was + bytes, d);
  }

  lemma {:induction false} LongAppend<T>(was: seq<T>, bytes: seq<T>)
    requires |bytes| >= RAW_TAIL_CAP
    ensures bytes[|bytes| - RAW_TAIL_CAP..] == LastOf(was + bytes)
  {
    var d := |was| + |bytes| - RAW_TAIL_CAP;
    assert bytes[|bytes| - RAW_TAIL_CAP..] == (was + bytes)[d..];
    LastOfSuffix(was + bytes, d);
  }

  class Tail<T> {
    var deque: seq<T>
    ghost var fed: seq<seq<T>>

    /** The tail is the end of everything ever fed. */
    ghost predicate Valid()
      reads this
    {
      deque == LastOf(Concat(fed))
    }

    constructor ()
      ensures Valid() && fed == []
    {
      deque, fed := [], [];
    }

    /** `push_raw_tail`. */
    method Push(bytes: seq<T>)
      requires Valid()
      modifies this
      ensures Valid() && fed == old(fed) + [bytes]
      ensures deque == LastOf(old(deque) + bytes)
    {
      LastOfLast(Concat(fed), bytes);
      assert (fed + [bytes])[..|fed|] == fed;
      if |bytes| >= RAW_TAIL_CAP {
        LongAppend(deque, bytes);
        deque := bytes[|bytes| - RAW_TAIL_CAP..];
      } else {
        MakeRoom(bytes);
      }
      fed := fed + [bytes];
    }

    method MakeRoom(bytes: seq<T>)
      requires |bytes| < RAW_TAIL_CAP && |deque| <= RAW_TAIL_CAP
      modifies this`deque
      ensures deque == LastOf(old(deque) + bytes)
    {
      ghost var dropped := 0;
      while |deque| + |bytes| > RAW_TAIL_CAP
        invariant dropped <= |old(deque)| && deque == old(deque)[dropped..]
        invariant dropped == 0 || |deque| + |bytes| >= RAW_TAIL_CAP
      {
        deque := deque[1..];
        dropped := dropped + 1;
      }
      DropThenAppend(old(deque), dropped, bytes);
      deque := deque + bytes;
    }
  }
}
