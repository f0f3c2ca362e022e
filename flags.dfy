/** Actor flags as a bitmask: one bit per property of a context, and the
    tests that read them. JavaScript's bitwise operators work on 32-bit
    integers, so a flag word is a `bv32`. */
module Flags {

  const FLAG_IMMUTABLE: bv32 := 0x1
  const FLAG_BUFFERED: bv32 := 0x2
  const FLAG_TEMPORARY: bv32 := 0x4
  const FLAG_ROUTER: bv32 := 0x8

  /** `isImmutable` flag test. */
  predicate IsImmutable(f: bv32)
  {
    f & FLAG_IMMUTABLE == FLAG_IMMUTABLE
  }

  /** `isBuffered` flag test. */
  predicate IsBuffered(f: bv32)
  {
    f & FLAG_BUFFERED == FLAG_BUFFERED
  }

  /** Test for the temporary flag (no named test exists in the source; the
      resident actors set it). */
  predicate IsTemporary(f: bv32)
  {
    f & FLAG_TEMPORARY == FLAG_TEMPORARY
  }

  /** `isRouter` flag test. */
  predicate IsRouter(f: bv32)
  {
    f & FLAG_ROUTER == FLAG_ROUTER
  }

  /** The four flags are the single bits 0, 1, 2 and 3, pairwise distinct. */
  lemma FlagsAreDistinctBits()
    ensures FLAG_IMMUTABLE == 1 << 0 && FLAG_BUFFERED == 1 << 1
    ensures FLAG_TEMPORARY == 1 << 2 && FLAG_ROUTER == 1 << 3
    ensures FLAG_IMMUTABLE & FLAG_BUFFERED == 0 && FLAG_IMMUTABLE & FLAG_TEMPORARY == 0
    ensures FLAG_IMMUTABLE & FLAG_ROUTER == 0 && FLAG_BUFFERED & FLAG_TEMPORARY == 0
    ensures FLAG_BUFFERED & FLAG_ROUTER == 0 && FLAG_TEMPORARY & FLAG_ROUTER == 0
  {
  }

  /** Setting a flag makes its test hold. */
  lemma SetFlagHolds(f: bv32)
    ensures IsImmutable(f | FLAG_IMMUTABLE)
    ensures IsBuffered(f | FLAG_BUFFERED)
    ensures IsTemporary(f | FLAG_TEMPORARY)
    ensures IsRouter(f | FLAG_ROUTER)
  {
  }

  /** ORing in the immutable flag never changes the tests for the others. */
  lemma SetImmutableKeepsOthers(f: bv32)
    ensures IsBuffered(f | FLAG_IMMUTABLE) == IsBuffered(f)
    ensures IsTemporary(f | FLAG_IMMUTABLE) == IsTemporary(f)
    ensures IsRouter(f | FLAG_IMMUTABLE) == IsRouter(f)
  {
  }

  /** ORing in the buffered flag never changes the tests for the others. */
  lemma SetBufferedKeepsOthers(f: bv32)
    ensures IsImmutable(f | FLAG_BUFFERED) == IsImmutable(f)
    ensures IsTemporary(f | FLAG_BUFFERED) == IsTemporary(f)
    ensures IsRouter(f | FLAG_BUFFERED) == IsRouter(f)
  {
  }

  /** ORing in the temporary flag never changes the tests for the others. */
  lemma SetTemporaryKeepsOthers(f: bv32)
    ensures IsImmutable(f | FLAG_TEMPORARY) == IsImmutable(f)
    ensures IsBuffered(f | FLAG_TEMPORARY) == IsBuffered(f)
    ensures IsRouter(f | FLAG_TEMPORARY) == IsRouter(f)
  {
  }

  /** ORing in the router flag never changes the tests for the others. */
  lemma SetRouterKeepsOthers(f: bv32)
    ensures IsImmutable(f | FLAG_ROUTER) == IsImmutable(f)
    ensures IsBuffered(f | FLAG_ROUTER) == IsBuffered(f)
    ensures IsTemporary(f | FLAG_ROUTER) == IsTemporary(f)
  {
  }
}
