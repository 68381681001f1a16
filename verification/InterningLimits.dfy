/** What an interner answers beyond its limits (crates/codegen/xai-codebase-graph/src/interner.rs). */
module InterningLimits {
  import opened Wrappers
  import opened Interning

  /** A string that is not yet known reads back, whatever the size of the arena, as the bytes that start at the arena's
  old length modulo 2^32, as many as its own length modulo 2^16. */
  lemma {:induction false} ReadsBackAt(p: Parts, s: Bytes)
    ensures var arena, start := p.arena + s, |p.arena| % 0x1_0000_0000;
            GetBytes(Appended(p, s), |p.offsets|) == Some(arena[start..start + |s| % 0x1_0000])
  {}

  /** So the first string stored beyond 4 GiB reads back as the bytes at the start of the arena: whole if and only if
  these are the same. */
  lemma {:induction false} FullArenaMisreads(p: Parts, s: Bytes)
    requires |p.arena| == 0x1_0000_0000 && |s| < 0x1_0000
    ensures GetBytes(Appended(p, s), |p.offsets|) == Some(s) <==> s <= p.arena
  {
    ReadsBackAt(p, s);
    var arena := p.arena + s;
    assert |p.arena| % 0x1_0000_0000 == 0 && |s| % 0x1_0000 == |s|;
    assert arena[0..0 + |s|] == p.arena[..|s|];
    assert s <= p.arena <==> p.arena[..|s|] == s;
  }
}
