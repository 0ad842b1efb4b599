/**
 * The game and patch-framework types the mod works on. Their internals are not
 * part of this model; each member below states the behaviour the mod relies on.
 */
module Host {

  import opened Wrappers

  /** The "created" bit of a PathUnit's simulation flags. */
  const FLAG_CREATED: bv8 := 1

  predicate IsCreated(simulationFlags: bv8)
  {
    simulationFlags & FLAG_CREATED != 0
  }

  /**
   * The game's Array32<PathUnit>: `buffer` holds each unit's simulation flags,
   * `unused` is the free list of unit indices in the order they were released.
   */
  class Array32 {
    var buffer: array<bv8>
    var unused: seq<nat>

    constructor (size: nat)
      ensures fresh(buffer) && buffer.Length == size
      ensures unused == []
    {
      buffer := new bv8[size](_ => 0);
      unused := [];
    }

    /** Assumed behaviour: the free list becomes empty; the buffer is not touched. */
    method ClearUnused()
      modifies this`unused
      ensures unused == []
    {
      unused := [];
    }

    /** Assumed behaviour: `id` is appended to the free list; the buffer is not touched. */
    method ReleaseItem(id: nat)
      modifies this`unused
      ensures unused == old(unused) + [id]
    {
      unused := unused + [id];
    }
  }

  /** The simulation metadata; `modOverride` is the mod-override dictionary, `None` when it is null. */
  class SimulationMetaData {
    var modOverride: Option<map<string, bool>>

    constructor (modOverride: Option<map<string, bool>>)
      ensures this.modOverride == modOverride
    {
      this.modOverride := modOverride;
    }
  }

  /** The simulation manager singleton; `metaData` may be null. */
  class SimulationManager {
    var metaData: SimulationMetaData?

    constructor (metaData: SimulationMetaData?)
      ensures this.metaData == metaData
    {
      this.metaData := metaData;
    }
  }

  /** The patch framework's manager, reduced to whether the mod's patches are installed. */
  class Patcher {
    var patched: bool

    constructor ()
      ensures patched
    {
      patched := true;
    }

    /** Reverts every patch; restoring the original code is the framework's business. */
    method UnpatchAll()
      modifies this
      ensures !patched
    {
      patched := false;
    }
  }
}
