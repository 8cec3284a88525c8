/** Control-flow graphs under construction.

    The compiler appends instructions to the block the builder stands in, opens new blocks,
    closes a block with a terminator and moves the builder.  `Builder` is that state as a value;
    `Grows` says that a later graph only completes an earlier one, which is what lets a proof
    about a piece of emitted code be used inside any function that contains the piece. */
module Cfg {

  datatype Option<+T> = None | Some(value: T)

  datatype BB<+I, +T> = BB(code: seq<I>, term: Option<T>)

  /** `next` is the next unused register (or slot) number. */
  datatype Builder<+I, +T> = Builder(blocks: seq<BB<I, T>>, cur: nat, next: nat)

  predicate Open<I, T>(b: Builder<I, T>) {
    b.cur < |b.blocks| && b.blocks[b.cur].term.None?
  }

  /** Position of the builder inside its block. */
  function End<I, T>(b: Builder<I, T>): nat
    requires Open(b)
  {
    |b.blocks[b.cur].code|
  }

  function Emit<I, T>(b: Builder<I, T>, i: I): Builder<I, T>
    requires Open(b)
  {
    b.(blocks := b.blocks[b.cur := BB(b.blocks[b.cur].code + [i], None)])
  }

  function Close<I, T>(b: Builder<I, T>, t: T): Builder<I, T>
    requires Open(b)
  {
    b.(blocks := b.blocks[b.cur := BB(b.blocks[b.cur].code, Some(t))])
  }

  function NewBlock<I, T>(b: Builder<I, T>): Builder<I, T> {
    b.(blocks := b.blocks + [BB([], None)])
  }

  function At<I, T>(b: Builder<I, T>, i: nat): Builder<I, T> {
    b.(cur := i)
  }

  function Bump<I, T>(b: Builder<I, T>, n: nat): Builder<I, T> {
    b.(next := b.next + n)
  }

  /** q completes p: closed blocks are kept, open ones may only be appended to. */
  ghost predicate Grows<I, T>(p: seq<BB<I, T>>, q: seq<BB<I, T>>) {
    |p| <= |q| &&
    forall i :: 0 <= i < |p| ==>
      if p[i].term.Some? then q[i] == p[i] else p[i].code <= q[i].code
  }

  lemma GrowsTrans<I, T>(p: seq<BB<I, T>>, q: seq<BB<I, T>>, r: seq<BB<I, T>>)
    requires Grows(p, q) && Grows(q, r)
    ensures Grows(p, r)
  {
  }

  /** What emitting code for one construct may touch: the builder's block and new blocks. */
  ghost predicate Frame<I, T>(b: Builder<I, T>, c: Builder<I, T>) {
    && Open(b) && Open(c)
    && b.next <= c.next
    && Grows(b.blocks, c.blocks)
    && (forall i :: 0 <= i < |b.blocks| && i != b.cur ==> c.blocks[i] == b.blocks[i])
    && (c.cur == b.cur || |b.blocks| <= c.cur)
  }

  lemma FrameTrans<I, T>(a: Builder<I, T>, b: Builder<I, T>, c: Builder<I, T>)
    requires Frame(a, b) && Frame(b, c)
    ensures Frame(a, c)
  {
  }
}
