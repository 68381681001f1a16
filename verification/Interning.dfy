/** The arena interner of byte strings (crates/codegen/xai-codebase-graph/src/interner.rs). */
module Interning {
  import opened Wrappers

  type Id = nat

  /** Starts are kept in 32 bits and lengths in 16. */
  const U32: nat := 0x1_0000_0000
  const U16: nat := 0x1_0000

  type Hash = Bytes -> int
  type Lookup = map<int, seq<Id>>

  datatype Parts = Parts(arena: Bytes, offsets: seq<(nat, nat)>)

  datatype State = State(parts: Parts, lookup: Lookup)

  const EMPTY: State := State(Parts([], []), map[])

  /** `get_bytes`. */
  function GetBytes(p: Parts, id: Id): Option<Bytes> {
    if id < |p.offsets| && p.offsets[id].0 + p.offsets[id].1 <= |p.arena|
    then Some(p.arena[p.offsets[id].0..p.offsets[id].0 + p.offsets[id].1])
    else None
  }

  /** The first of some ids that stands for `s`. */
  function FirstOf(p: Parts, ids: seq<Id>, s: Bytes): (r: Option<Id>)
    ensures r.Some? ==> r.value in ids && GetBytes(p, r.value) == Some(s)
    ensures r.None? ==> forall id :: id in ids ==> GetBytes(p, id) != Some(s)
  {
    if ids == [] then None else if GetBytes(p, ids[0]) == Some(s) then Some(ids[0]) else FirstOf(p, ids[1..], s)
  }

  function Bucket(lookup: Lookup, h: int): seq<Id> {
    if h in lookup then lookup[h] else []
  }

  /** `get_bytes_id`. */
  function IdOf(st: State, s: Bytes, hash: Hash): Option<Id> {
    FirstOf(st.parts, Bucket(st.lookup, hash(s)), s)
  }

  function Entered(lookup: Lookup, h: int, id: Id): Lookup {
    lookup[h := Bucket(lookup, h) + [id]]
  }

  function Appended(p: Parts, s: Bytes): Parts {
    Parts(p.arena + s, p.offsets + [(|p.arena| % U32, |s| % U16)])
  }

  /** What `intern_bytes` leaves and returns. */
  function Interned(st: State, s: Bytes, hash: Hash): (State, Id) {
    match IdOf(st, s, hash)
    case Some(id) => (st, id)
    case None =>
      var id := |st.parts.offsets| % U32;
      (State(Appended(st.parts, s), Entered(st.lookup, hash(s), id)), id)
  }

  /** The lookup table `from_parts` builds from the first `n` offsets. */
  function Rebuilt(p: Parts, n: nat, hash: Hash): Lookup {
    if n == 0 then map[]
    else
      var before := Rebuilt(p, n - 1, hash);
      match GetBytes(p, n - 1)
      case Some(bytes) => Entered(before, hash(bytes), (n - 1) % U32)
      case None => before
  }

  function Restored(p: Parts, hash: Hash): State {
    State(p, Rebuilt(p, |p.offsets|, hash))
  }

  // ---------- the list of strings it stands for ----------

  function IndexOf(strings: seq<Bytes>, s: Bytes): (r: Option<Id>)
    ensures r.Some? ==> r.value < |strings| && strings[r.value] == s
    ensures r.None? ==> s !in strings
  {
    if strings == [] then None
    else if strings[0] == s then Some(0)
    else match IndexOf(strings[1..], s) case None => None case Some(k) => Some(k + 1)
  }

  function Added(strings: seq<Bytes>, s: Bytes): seq<Bytes> {
    if s in strings then strings else strings + [s]
  }

  predicate NoDuplicates(strings: seq<Bytes>) {
    forall i, j :: 0 <= i < j < |strings| ==> strings[i] != strings[j]
  }

  /** The offsets cut these strings from the arena. */
  predicate Cuts(p: Parts, strings: seq<Bytes>) {
    |p.offsets| == |strings| && forall i :: 0 <= i < |strings| ==> GetBytes(p, i) == Some(strings[i])
  }

  /** The interner stands for a duplicate-free list of strings, and is the one rebuilt from its parts. */
  predicate Represents(st: State, strings: seq<Bytes>, hash: Hash) {
    Cuts(st.parts, strings) && NoDuplicates(strings) && Short(strings) && |strings| <= U32
    && st == Restored(st.parts, hash)
  }

  predicate Short(strings: seq<Bytes>) {
    forall i :: 0 <= i < |strings| ==> |strings[i]| < U16
  }

  /** Another string has room: one more start and one more id can be told apart. */
  predicate HasRoom(p: Parts) {
    |p.arena| < U32 && |p.offsets| < U32
  }

  /** A rebuilt bucket holds the ids of the strings with its hash. */
  lemma {:induction false} BucketExactly(p: Parts, strings: seq<Bytes>, n: nat, hash: Hash, h: int, id: Id)
    requires Cuts(p, strings) && n <= |strings| <= U32
    ensures id in Bucket(Rebuilt(p, n, hash), h) <==> id < n && hash(strings[id]) == h
    decreases n
  {
    if n > 0 {
      BucketExactly(p, strings, n - 1, hash, h, id);
    }
  }

  lemma {:induction false} IndexIsUnique(strings: seq<Bytes>, k: nat)
    requires NoDuplicates(strings) && k < |strings|
    ensures IndexOf(strings, strings[k]) == Some(k)
  {
    assert strings[k] in strings;
    assert forall i :: 0 <= i < |strings| && strings[i] == strings[k] ==> !(i < k) && !(k < i);
  }

  /** Looking a string up agrees with searching the list, whatever the hash function. */
  lemma {:induction false} LookupAgrees(st: State, strings: seq<Bytes>, s: Bytes, hash: Hash)
    requires Represents(st, strings, hash)
    ensures IdOf(st, s, hash) == IndexOf(strings, s)
  {
    var found := IdOf(st, s, hash);
    if found.Some? {
      BucketExactly(st.parts, strings, |strings|, hash, hash(s), found.value);
      IndexIsUnique(strings, found.value);
    } else if IndexOf(strings, s).Some? {
      BucketExactly(st.parts, strings, |strings|, hash, hash(s), IndexOf(strings, s).value);
    }
  }

  // ---------- adding to the arena ----------

  /** More bytes behind the arena and more offsets behind the old ones change no old string. */
  lemma {:induction false} OldStringsStay(p: Parts, strings: seq<Bytes>, s: Bytes, id: Id)
    requires Cuts(p, strings) && id < |strings|
    ensures GetBytes(Appended(p, s), id) == GetBytes(p, id)
  {
    assert GetBytes(p, id) == Some(strings[id]);
    var (start, len) := p.offsets[id];
    assert (p.arena + s)[start..start + len] == p.arena[start..start + len];
  }

  lemma {:induction false} RebuiltStays(p: Parts, strings: seq<Bytes>, s: Bytes, n: nat, hash: Hash)
    requires Cuts(p, strings) && n <= |strings|
    ensures Rebuilt(Appended(p, s), n, hash) == Rebuilt(p, n, hash)
    decreases n
  {
    if n > 0 {
      RebuiltStays(p, strings, s, n - 1, hash);
      OldStringsStay(p, strings, s, n - 1);
    }
  }

  /** The new id stands for the string's first `|s| % 65536` bytes. */
  lemma {:induction false} NewString(p: Parts, s: Bytes)
    requires |p.arena| < U32
    ensures GetBytes(Appended(p, s), |p.offsets|) == Some(s[..|s| % U16])
  {
    var len := |s| % U16;
    assert (p.arena + s)[|p.arena|..|p.arena| + len] == s[..len];
  }

  lemma {:induction false} AppendCuts(p: Parts, strings: seq<Bytes>, s: Bytes)
    requires Cuts(p, strings) && |p.arena| < U32 && |s| < U16
    ensures Cuts(Appended(p, s), strings + [s])
  {
    NewString(p, s);
    assert s[..|s|] == s;
    forall i | 0 <= i < |strings| + 1 ensures GetBytes(Appended(p, s), i) == Some((strings + [s])[i]) {
      if i < |strings| { OldStringsStay(p, strings, s, i); }
    }
  }

  lemma {:induction false} NewRepresented(st: State, strings: seq<Bytes>, s: Bytes, hash: Hash)
    requires Represents(st, strings, hash) && HasRoom(st.parts) && |s| < U16 && s !in strings
    ensures Represents(State(Appended(st.parts, s), Entered(st.lookup, hash(s), |strings|)), strings + [s], hash)
  {
    var p := Appended(st.parts, s);
    AppendCuts(st.parts, strings, s);
    RebuiltStays(st.parts, strings, s, |strings|, hash);
    assert GetBytes(p, |strings|) == Some((strings + [s])[|strings|]);
    assert Rebuilt(p, |strings| + 1, hash) == Entered(st.lookup, hash(s), |strings|);
  }

  /** Interning a string of at most 65535 bytes adds it to the list, if it is not there, and
  returns its index; the old strings keep theirs. */
  lemma {:induction false} InternRefines(st: State, strings: seq<Bytes>, s: Bytes, hash: Hash)
    requires Represents(st, strings, hash) && HasRoom(st.parts) && |s| < U16
    ensures var (next, id) := Interned(st, s, hash);
            Represents(next, Added(strings, s), hash) && IndexOf(Added(strings, s), s) == Some(id)
  {
    InternedIs(st, strings, s, hash);
    if s !in strings {
      NewRepresented(st, strings, s, hash);
      IndexIsUnique(strings + [s], |strings|);
    }
  }

  lemma {:induction false} InternedIs(st: State, strings: seq<Bytes>, s: Bytes, hash: Hash)
    requires Represents(st, strings, hash) && HasRoom(st.parts)
    ensures var (next, id) := Interned(st, s, hash);
            if s in strings then next == st && Some(id) == IndexOf(strings, s)
            else id == |strings| && next == State(Appended(st.parts, s), Entered(st.lookup, hash(s), |strings|))
  {
    LookupAgrees(st, strings, s, hash);
  }

  /** With room in the arena, what is interned reads back exactly when it is at most 65535 bytes
  long: of a longer string only the first `|s| % 65536` bytes do. */
  lemma {:induction false} RoundTripExactly(st: State, strings: seq<Bytes>, s: Bytes, hash: Hash)
    requires Represents(st, strings, hash) && HasRoom(st.parts)
    ensures var (next, id) := Interned(st, s, hash);
            GetBytes(next.parts, id) == Some(s[..|s| % U16])
            && (GetBytes(next.parts, id) == Some(s) <==> |s| < U16)
  {
    InternedIs(st, strings, s, hash);
    if s in strings {
      assert s[..|s|] == s;
    } else {
      NewString(st.parts, s);
      PrefixIsWhole(s, |s| % U16);
    }
  }

  lemma {:induction false} PrefixIsWhole(s: Bytes, n: nat)
    requires n <= |s|
    ensures s[..n] == s <==> n == |s|
  {
    if n == |s| { assert s[..n] == s; }
  }

  // ---------- over every run ----------

  datatype Op = Intern(s: Bytes) | Clear

  function Stepped(st: State, op: Op, hash: Hash): State {
    match op
    case Intern(s) => Interned(st, s, hash).0
    case Clear => EMPTY
  }

  function After(ops: seq<Op>, hash: Hash): State {
    if ops == [] then EMPTY else Stepped(After(ops[..|ops| - 1], hash), ops[|ops| - 1], hash)
  }

  /** The list a run builds: each string once, where it first came since the last clear. */
  function Listed(ops: seq<Op>): seq<Bytes> {
    if ops == [] then []
    else
      match ops[|ops| - 1]
      case Intern(s) => Added(Listed(ops[..|ops| - 1]), s)
      case Clear => []
  }

  /** How many bytes some strings take together. */
  function Total(strings: seq<Bytes>): nat {
    if strings == [] then 0 else Total(strings[..|strings| - 1]) + |strings[|strings| - 1]|
  }

  /** Whenever a string is stored, it is at most 65535 bytes long and its start fits 32 bits. What is
  stored already may be interned again, and what was cleared takes no room. */
  predicate Fits(ops: seq<Op>) {
    ops == [] ||
    (var front, last := ops[..|ops| - 1], ops[|ops| - 1];
     && Fits(front)
     && (last.Intern? && last.s !in Listed(front) ==> |last.s| < U16 && Total(Listed(front)) < U32))
  }

  // Ids run out only after starts do, since few strings are short.

  /** The empty string, and the one-byte strings below `n`. */
  function ShortStrings(n: nat): (r: set<Bytes>)
    requires n <= 256
    ensures |r| <= n + 1
    ensures forall s: Bytes :: |s| <= 1 && (s != [] ==> s[0] as int < n) ==> s in r
  {
    if n == 0 then {[]}
    else
      var x := (n - 1) as byte;
      assert forall s: Bytes :: |s| == 1 && s[0] == x ==> s == [x];
      ShortStrings(n - 1) + {[x]}
  }

  lemma {:induction false} CountBound(strings: seq<Bytes>, allowed: set<Bytes>)
    requires NoDuplicates(strings) && forall s :: s in strings && |s| <= 1 ==> s in allowed
    ensures 2 * |strings| <= Total(strings) + 2 * |allowed|
  {
    if strings != [] {
      var front, s := strings[..|strings| - 1], strings[|strings| - 1];
      assert s in strings && s !in front;
      CountBound(front, if |s| <= 1 then allowed - {s} else allowed);
    }
  }

  lemma {:induction false} IdsSuffice(strings: seq<Bytes>)
    requires NoDuplicates(strings) && Total(strings) < U32
    ensures |strings| < U32
  {
    CountBound(strings, ShortStrings(256));
  }

  lemma {:induction false} InternedRoom(st: State, strings: seq<Bytes>, s: Bytes, hash: Hash)
    requires Represents(st, strings, hash) && |st.parts.arena| == Total(strings)
    requires s !in strings ==> |s| < U16 && Total(strings) < U32
    ensures var next := Interned(st, s, hash).0;
            Represents(next, Added(strings, s), hash) && |next.parts.arena| == Total(Added(strings, s))
  {
    if s in strings {
      LookupAgrees(st, strings, s, hash);
    } else {
      IdsSuffice(strings);
      InternRefines(st, strings, s, hash);
      InternedIs(st, strings, s, hash);
      assert (strings + [s])[..|strings|] == strings;
    }
  }

  lemma {:induction false} RunRefines(ops: seq<Op>, hash: Hash)
    requires Fits(ops)
    ensures var st := After(ops, hash);
            Represents(st, Listed(ops), hash) && |st.parts.arena| == Total(Listed(ops))
  {
    if ops != [] {
      var front, last := ops[..|ops| - 1], ops[|ops| - 1];
      RunRefines(front, hash);
      if last.Intern? { InternedRoom(After(front, hash), Listed(front), last.s, hash); }
    }
  }

  /** After every such run: ids read back the listed strings, looking up agrees with searching
  the list, and the interner rebuilt from arena and offsets is the same. */
  lemma {:induction false} RunIsFaithful(ops: seq<Op>, hash: Hash, s: Bytes, id: Id)
    requires Fits(ops)
    ensures var st, strings := After(ops, hash), Listed(ops);
            && NoDuplicates(strings)
            && GetBytes(st.parts, id) == (if id < |strings| then Some(strings[id]) else None)
            && IdOf(st, s, hash) == IndexOf(strings, s)
            && Restored(st.parts, hash) == st
  {
    RunRefines(ops, hash);
    LookupAgrees(After(ops, hash), Listed(ops), s, hash);
  }

  // ---------- the object ----------

  class StringInterner {
    var arena: Bytes
    var offsets: seq<(nat, nat)>
    var lookup: Lookup
    const hash: Hash

    function Value(): State
      reads this
    {
      State.State(Parts(arena, offsets), lookup)
    }

    constructor (hash: Hash)
      ensures Value() == EMPTY && this.hash == hash
    {
      arena, offsets, lookup := [], [], map[];
      this.hash := hash;
    }

    /** `from_parts`. */
    constructor FromParts(arena: Bytes, offsets: seq<(nat, nat)>, hash: Hash)
      ensures Value() == Restored(Parts(arena, offsets), hash) && this.hash == hash
    {
      this.arena, this.offsets, this.hash := arena, offsets, hash;
      var lookup: Lookup := map[];
      var idx := 0;
      while idx < |offsets|
        invariant idx <= |offsets| && lookup == Rebuilt(Parts(arena, offsets), idx, hash)
      {
        var (start, len) := offsets[idx];
        if start + len <= |arena| {
          lookup := Entered(lookup, hash(arena[start..start + len]), idx % U32);
        }
        idx := idx + 1;
      }
      this.lookup := lookup;
    }

    /** `get_bytes_id`. */
    method GetBytesId(s: Bytes) returns (found: Option<Id>)
      ensures found == IdOf(Value(), s, hash)
    {
      var ids := Bucket(lookup, hash(s));
      var k := 0;
      while k < |ids|
        invariant k <= |ids| && FirstOf(Value().parts, ids[k..], s) == IdOf(Value(), s, hash)
      {
        assert ids[k..][1..] == ids[k + 1..];
        if GetBytes(Value().parts, ids[k]) == Some(s) {
          return Some(ids[k]);
        }
        k := k + 1;
      }
      return None;
    }

    /** `intern_bytes`. */
    method InternBytes(s: Bytes) returns (id: Id)
      modifies this
      ensures (Value(), id) == Interned(old(Value()), s, hash)
    {
      var found := GetBytesId(s);
      if found.Some? {
        return found.value;
      }
      var start, len := |arena| % U32, |s| % U16;
      arena := arena + s;
      id := |offsets| % U32;
      offsets := offsets + [(start, len)];
      lookup := Entered(lookup, hash(s), id);
    }

    method Clear()
      modifies this
      ensures Value() == EMPTY
    {
      arena, offsets, lookup := [], [], map[];
    }
  }
}
