/**
 * The save-metadata marker: one key of the simulation's mod-override
 * dictionary records that a save was written with the expanded PathUnit array.
 */
module MetaData {

  import opened Wrappers
  import Host

  const MetadataKey: string := "User/More PathUnits x2"

  /** A mod-override dictionary (`None` when null) marks the save as expanded. */
  predicate MarksExpanded(modOverride: Option<map<string, bool>>)
  {
    modOverride.Some? && MetadataKey in modOverride.value && modOverride.value[MetadataKey]
  }

  /**
   * Whether the save being loaded was made with the expanded PathUnit array.
   * A missing simulation manager, metadata object or dictionary, a missing key
   * and a key set to false all read as "not expanded".
   */
  function LoadingExtended(sim: Host.SimulationManager?): (r: bool)
    reads sim, if sim != null then {sim.metaData} else {}
    ensures r <==> sim != null && sim.metaData != null && MarksExpanded(sim.metaData.modOverride)
    ensures sim == null || sim.metaData == null || sim.metaData.modOverride.None? ==> !r
    ensures sim != null && sim.metaData != null && sim.metaData.modOverride.Some?
            && MetadataKey in sim.metaData.modOverride.value
            ==> r == sim.metaData.modOverride.value[MetadataKey]
  {
    var dict := if sim == null || sim.metaData == null then None else sim.metaData.modOverride;
    match dict
    case None => false
    case Some(d) =>
      if MetadataKey in d then
        var isOverridden := d[MetadataKey];
        isOverridden
      else
        false
  }

  /** The dictionary after the marker is set: created when null, the key forced to true. */
  function WithMarker(modOverride: Option<map<string, bool>>): (r: map<string, bool>)
    ensures MetadataKey in r && r[MetadataKey]
    ensures MarksExpanded(Some(r))
    ensures forall k :: k != MetadataKey ==> (k in r <==> modOverride.Some? && k in modOverride.value)
    ensures forall k :: k != MetadataKey && k in r ==> modOverride.Some? && k in modOverride.value && r[k] == modOverride.value[k]
    ensures modOverride.None? ==> r.Keys == {MetadataKey}
  {
    var d := if modOverride.None? then map[] else modOverride.value;
    d[MetadataKey := true]
  }

  /** Setting the marker twice is the same as setting it once. */
  lemma WithMarkerIdempotent(modOverride: Option<map<string, bool>>)
    ensures WithMarker(Some(WithMarker(modOverride))) == WithMarker(modOverride)
  {
  }

  /** A save once marked expanded stays marked after the marker is set again. */
  lemma MarkerNeverDowngrades(modOverride: Option<map<string, bool>>)
    requires MarksExpanded(modOverride)
    ensures modOverride.value == WithMarker(modOverride)
  {
  }

  /**
   * Sets the marker in the simulation metadata, creating the dictionary when
   * it is null. The mod dereferences the simulation manager and its
   * metadata without a null check, so both must exist.
   */
  method SetMetaData(sim: Host.SimulationManager)
    requires sim.metaData != null
    modifies sim.metaData
    ensures sim.metaData.modOverride == Some(WithMarker(old(sim.metaData.modOverride)))
    ensures LoadingExtended(sim)
  {
    var metaData := sim.metaData;
    if metaData.modOverride.None? {
      metaData.modOverride := Some(map[]);
    }
    // The mod overwrites the key when present and adds it otherwise;
    // either way the dictionary ends up mapping the key to true.
    var dict := metaData.modOverride.value;
    metaData.modOverride := Some(dict[MetadataKey := true]);
  }
}
