/** Unity layer masks: a 32-bit set of layers, tested with `1 << layer`. */
module LayerMasks {
  import opened Numerics

  /** The shift count C# uses for `1 << layer` on an `int`: the low five
      bits of `layer`, that is `layer` modulo 32. */
  function LayerShift(layer: int32): bv5 {
    ((layer as int) % 32) as bv5
  }

  /** `1 << layer` on a C# `int`. */
  function LayerBit(layer: int32): bv32 {
    (1 as bv32) << LayerShift(layer)
  }

  /** The layer mask `~0`, which selects every layer. */
  const AllLayers: bv32 := 0xFFFF_FFFF

  /** Proof helper for `AllLayersSelectEveryLayer`, not a property of the
      source: a single set bit is never zero, so the all-layers mask keeps it. */
  lemma BitKeptByAllLayers(n: bv5)
    ensures ((1 as bv32) << n) & AllLayers == (1 as bv32) << n != 0
  {
  }
}
