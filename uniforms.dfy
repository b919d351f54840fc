/**
 * The fog uniforms of one patched shader program, and the broadcast that
 * writes one fog parameter into every registered program's uniforms
 * (the `for (let s of this.shaders_)` loops of main.js).
 */
module Uniforms {

  import opened Wrappers

  /** The three fog uniforms a patched program reads. */
  datatype Slot = Time | Density | HeightFactor

  /**
   * The fog part of a program's `uniforms` object: `fogTime`, `fogDensity`
   * and `fogHeightFactor`, each either missing (None) or present holding its
   * `value`.
   */
  datatype UniformBlock = UniformBlock(fogTime: Option<real>, fogDensity: Option<real>, fogHeightFactor: Option<real>)
  {
    function Get(s: Slot): Option<real>
    {
      match s
      case Time => fogTime
      case Density => fogDensity
      case HeightFactor => fogHeightFactor
    }

    /**
     * The guarded write `if (s.uniforms.x) s.uniforms.x.value = v`: a present
     * slot takes `v`, a missing slot stays missing, other slots are untouched.
     */
    function Write(s: Slot, v: real): (b: UniformBlock)
      ensures b.Get(s) == (if Get(s).Some? then Some(v) else None)
      ensures forall o :: o != s ==> b.Get(o) == Get(o)
    {
      match s
      case Time => if fogTime.Some? then this.(fogTime := Some(v)) else this
      case Density => if fogDensity.Some? then this.(fogDensity := Some(v)) else this
      case HeightFactor => if fogHeightFactor.Some? then this.(fogHeightFactor := Some(v)) else this
    }

    /** Slot `s` is missing or holds `v`. */
    predicate Holds(s: Slot, v: real)
    {
      Get(s).Some? ==> Get(s).value == v
    }

    /** All three fog uniforms are present. */
    predicate Complete()
    {
      fogTime.Some? && fogDensity.Some? && fogHeightFactor.Some?
    }
  }

  /** Every block agrees with the canonical value `v` on slot `s`. */
  predicate Synced(blocks: seq<UniformBlock>, s: Slot, v: real)
  {
    forall i :: 0 <= i < |blocks| ==> blocks[i].Holds(s, v)
  }

  /** Every block carries all three fog uniforms. */
  predicate AllComplete(blocks: seq<UniformBlock>)
  {
    forall i :: 0 <= i < |blocks| ==> blocks[i].Complete()
  }

  /** The blocks after one loop that writes `v` into slot `s` of each of them, in order. */
  function Broadcast(blocks: seq<UniformBlock>, s: Slot, v: real): (r: seq<UniformBlock>)
    ensures |r| == |blocks|
  {
    if blocks == [] then [] else [blocks[0].Write(s, v)] + Broadcast(blocks[1..], s, v)
  }

  /** The broadcast touches each block on its own: block `i` is block `i` written. */
  lemma {:induction false} BroadcastAt(blocks: seq<UniformBlock>, s: Slot, v: real, i: nat)
    requires i < |blocks|
    ensures Broadcast(blocks, s, v)[i] == blocks[i].Write(s, v)
  {
    if i > 0 {
      BroadcastAt(blocks[1..], s, v, i - 1);
    }
  }

  /**
   * After a broadcast of `v` to slot `s`, every block agrees with `v` on `s`;
   * every other slot of every block is unchanged, so agreement on it, and
   * completeness, are kept.
   */
  lemma BroadcastSyncs(blocks: seq<UniformBlock>, s: Slot, v: real)
    ensures Synced(Broadcast(blocks, s, v), s, v)
    ensures forall i, o :: 0 <= i < |blocks| && o != s ==> Broadcast(blocks, s, v)[i].Get(o) == blocks[i].Get(o)
    ensures forall o, w :: o != s && Synced(blocks, o, w) ==> Synced(Broadcast(blocks, s, v), o, w)
    ensures AllComplete(blocks) ==> AllComplete(Broadcast(blocks, s, v))
  {
    forall i | 0 <= i < |blocks| {
      BroadcastAt(blocks, s, v, i);
    }
  }

  /** Broadcasting the same value twice is the same as broadcasting it once. */
  lemma {:induction false} BroadcastIdempotent(blocks: seq<UniformBlock>, s: Slot, v: real)
    ensures Broadcast(Broadcast(blocks, s, v), s, v) == Broadcast(blocks, s, v)
  {
    if blocks != [] {
      var r := Broadcast(blocks, s, v);
      assert r[1..] == Broadcast(blocks[1..], s, v);
      BroadcastIdempotent(blocks[1..], s, v);
    }
  }

  /** A broadcast of the value every block already agrees with changes nothing. */
  lemma BroadcastSyncedIsNoOp(blocks: seq<UniformBlock>, s: Slot, v: real)
    requires Synced(blocks, s, v)
    ensures Broadcast(blocks, s, v) == blocks
  {
    forall i | 0 <= i < |blocks|
      ensures Broadcast(blocks, s, v)[i] == blocks[i]
    {
      BroadcastAt(blocks, s, v, i);
      assert forall q :: blocks[i].Write(s, v).Get(q) == blocks[i].Get(q);
    }
  }

  /** A second broadcast to the same slot overwrites the first. */
  lemma {:induction false} BroadcastOverwrite(blocks: seq<UniformBlock>, s: Slot, v: real, w: real)
    ensures Broadcast(Broadcast(blocks, s, v), s, w) == Broadcast(blocks, s, w)
  {
    if blocks != [] {
      var x := blocks[0];
      assert x.Write(s, v).Write(s, w) == x.Write(s, w) by {
        assert forall q :: x.Write(s, v).Write(s, w).Get(q) == x.Write(s, w).Get(q);
      }
      assert Broadcast(blocks, s, v)[1..] == Broadcast(blocks[1..], s, v);
      BroadcastOverwrite(blocks[1..], s, v, w);
    }
  }

  /** Broadcasts to two different slots do not interfere: their order does not matter. */
  lemma {:induction false} BroadcastsCommute(blocks: seq<UniformBlock>, s: Slot, v: real, o: Slot, w: real)
    requires s != o
    ensures Broadcast(Broadcast(blocks, s, v), o, w) == Broadcast(Broadcast(blocks, o, w), s, v)
  {
    if blocks != [] {
      var x := blocks[0];
      assert x.Write(s, v).Write(o, w) == x.Write(o, w).Write(s, v) by {
        assert forall q :: x.Write(s, v).Write(o, w).Get(q) == x.Write(o, w).Write(s, v).Get(q);
      }
      assert Broadcast(blocks, s, v)[1..] == Broadcast(blocks[1..], s, v);
      assert Broadcast(blocks, o, w)[1..] == Broadcast(blocks[1..], o, w);
      BroadcastsCommute(blocks[1..], s, v, o, w);
    }
  }
}
