/**
 * Handler chains (kaptivate/event_chain.cpp). KeyboardEventChain and
 * MouseEventChain have identical code over different handler types, so both
 * are the one generic class HandlerChain here: an ordered vector of non-NULL
 * handler references, newest first.
 */
module EventChains {
  import opened Wrappers
  import opened Events

  /**
   * The intended effect of removeHandler: every entry equal to `h` dropped,
   * the others kept in their relative order.
   */
  function Without<H(==)>(s: seq<H>, h: H): (r: seq<H>)
    ensures h !in r
    ensures h !in s ==> r == s
  {
    if s == [] then []
    else
      assert s == [s[0]] + s[1..];
      if s[0] == h then Without(s[1..], h) else [s[0]] + Without(s[1..], h)
  }

  /** Removal drops exactly the copies of `h`: every other handler keeps its multiplicity. */
  lemma {:induction false} WithoutCounts<H>(s: seq<H>, h: H)
    ensures multiset(Without(s, h)) == multiset(s)[h := 0]
  {
    if s != [] {
      WithoutCounts(s[1..], h);
      assert s == [s[0]] + s[1..];
    }
  }

  /** Removal works piecewise, so the kept handlers stay in their order. */
  lemma {:induction false} WithoutDistributes<H>(a: seq<H>, b: seq<H>, h: H)
    ensures Without(a + b, h) == Without(a, h) + Without(b, h)
  {
    if a == [] {
      assert a + b == b;
    } else {
      assert (a + b)[0] == a[0];
      assert (a + b)[1..] == a[1..] + b;
      WithoutDistributes(a[1..], b, h);
    }
  }

  /** Removal over a prefix extended by one element. */
  lemma WithoutSnoc<H>(p: seq<H>, x: H, h: H)
    ensures Without(p + [x], h) == Without(p, h) + (if x == h then [] else [x])
  {
    WithoutDistributes(p, [x], h);
    assert [x][1..] == [];
  }

  /** Indexing and slicing a concatenation at the seam. */
  lemma SplitAt<H>(done: seq<H>, rest: seq<H>)
    requires rest != []
    ensures (done + rest)[..|done|] == done
    ensures (done + rest)[|done|] == rest[0]
    ensures (done + rest)[|done| + 1..] == rest[1..]
  {
  }

  /**
   * One iteration of the removal loop over `Without(original[..j], h) +
   * original[j..]`: erasing a match, or stepping past a non-match, yields the
   * same shape with `j + 1`.
   */
  lemma RemoveStep<H>(original: seq<H>, j: nat, h: H)
    requires j < |original|
    ensures var done := Without(original[..j], h);
            var chain := done + original[j..];
            var next := Without(original[..j + 1], h);
            && chain[|done|] == original[j]
            && (original[j] == h ==>
                  |next| == |done| && chain[..|done|] + chain[|done| + 1..] == next + original[j + 1..])
            && (original[j] != h ==>
                  |next| == |done| + 1 && chain == next + original[j + 1..])
  {
    var done := Without(original[..j], h);
    SplitAt(done, original[j..]);
    assert original[j..][1..] == original[j + 1..];
    assert original[..j + 1] == original[..j] + [original[j]];
    WithoutSnoc(original[..j], original[j], h);
    if original[j] != h {
      assert original[j..] == [original[j]] + original[j + 1..];
      assert done + original[j..] == (done + [original[j]]) + original[j + 1..];
    }
  }

  /**
   * removeHandler AS WRITTEN, on the usual vector implementation: after
   * `erase(it)` the iterator still denotes index `i`, which now holds the
   * next element, and the loop's `it++` then skips that element. When the
   * erased element was the last one, `it++` steps past `end()` and the loop
   * runs on out of bounds: that outcome is None (undefined behaviour).
   */
  function EraseLoopAsWritten<H(==)>(s: seq<H>, h: H, i: nat): Option<seq<H>>
    requires i <= |s|
    decreases |s| - i
  {
    if i == |s| then Some(s)
    else if s[i] == h then
      var erased := s[..i] + s[i + 1..];
      if i + 1 > |erased| then None else EraseLoopAsWritten(erased, h, i + 1)
    else EraseLoopAsWritten(s, h, i + 1)
  }

  /**
   * The erase loop as written disagrees with the intended filter: two
   * adjacent copies of a handler leave one behind, and a match in last
   * position runs the iterator past the end.
   */
  lemma EraseLoopAsWrittenDiverges()
    ensures var h, g := KeyboardHandler(1), KeyboardHandler(2);
            && EraseLoopAsWritten([h, h, g], h, 0) == Some([h, g])
            && Without([h, h, g], h) == [g]
            && EraseLoopAsWritten([g, h], h, 0) == None
            && Without([g, h], h) == [g]
  {
    var h, g := KeyboardHandler(1), KeyboardHandler(2);
    assert [h, h, g][..0] + [h, h, g][1..] == [h, g];
    assert EraseLoopAsWritten([h, g], h, 2) == Some([h, g]);
    assert EraseLoopAsWritten([h, g], h, 1) == Some([h, g]);
    assert [h, h, g][1..] == [h, g] && [h, g][1..] == [g];
    assert [g, h][..1] + [g, h][2..] == [g];
    assert EraseLoopAsWritten([g, h], h, 1) == None;
    assert [g, h][1..] == [h] && [h][1..] == [];
  }

  /** An ordered chain of handlers: the most recently added handler is first. */
  class HandlerChain<H(==)> {
    var handlers: seq<H>

    constructor ()
      ensures handlers == []
    {
      handlers := [];
    }

    method ClearHandlers()
      modifies this
      ensures handlers == []
    {
      handlers := [];
    }

    /** A NULL handler is ignored; otherwise the handler goes in front, duplicates included. */
    method AddHandler(handler: Pointer<H>)
      modifies this
      ensures handler.Null? ==> handlers == old(handlers)
      ensures handler.Ref? ==> handlers == [handler.target] + old(handlers)
      ensures handler.Ref? ==> |handlers| == |old(handlers)| + 1 && handlers[0] == handler.target
    {
      if handler.Ref? {
        handlers := [handler.target] + handlers;
      }
    }

    /**
     * Drops every entry equal to `handler` (the intended behaviour; see
     * EraseLoopAsWritten). The chain never holds NULL, so removing NULL
     * changes nothing.
     */
    method RemoveHandler(handler: Pointer<H>)
      modifies this
      ensures handler.Null? ==> handlers == old(handlers)
      ensures handler.Ref? ==> handlers == Without(old(handlers), handler.target)
    {
      if handler.Null? {
        return;
      }
      var h := handler.target;
      ghost var original := handlers;
      ghost var j := 0;
      var chain := handlers;
      var i := 0;
      while i < |chain|
        invariant 0 <= j <= |original|
        invariant i == |Without(original[..j], h)|
        invariant chain == Without(original[..j], h) + original[j..]
        decreases |chain| - i
      {
        RemoveStep(original, j, h);
        if chain[i] == h {
          chain := chain[..i] + chain[i + 1..];
        } else {
          i := i + 1;
        }
        j := j + 1;
      }
      assert original[..j] == original;
      handlers := chain;
    }

    /** The number of stored handlers, as the `unsigned int` the source returns. */
    method ChainSize() returns (size: uint32)
      ensures size as int == |handlers| % 0x1_0000_0000
      ensures |handlers| < 0x1_0000_0000 ==> size as int == |handlers|
    {
      size := (|handlers| % 0x1_0000_0000) as uint32;
    }
  }

  type KeyboardEventChain = HandlerChain<KeyboardHandler>
  type MouseEventChain = HandlerChain<MouseHandler>

  /**
   * A client of the class: the newest handler comes first, re-adding does not
   * deduplicate, removal drops every copy, and clearing empties the chain.
   */
  method ChainClient(chain: KeyboardEventChain, a: KeyboardHandler, b: KeyboardHandler)
    requires a != b && chain.handlers == []
    modifies chain
    ensures chain.handlers == []
  {
    chain.AddHandler(Ref(a));
    chain.AddHandler(Null);
    chain.AddHandler(Ref(b));
    chain.AddHandler(Ref(a));
    assert chain.handlers == [a, b, a];
    chain.RemoveHandler(Ref(a));
    assert chain.handlers == [b] by {
      assert [a, b, a] == [a] + [b] + [a];
      WithoutDistributes([a] + [b], [a], a);
      WithoutDistributes([a], [b], a);
    }
    var size := chain.ChainSize();
    assert size == 1;
    chain.ClearHandlers();
  }
}
