/**
 * The post-load check: once the level has loaded, an enlarged PathUnit buffer
 * marks the save as expanded; a buffer of any other size reverts every patch.
 */
module OnLevelLoaded {

  import opened Wrappers
  import Host
  import MetaData
  import PathDeserialize

  /** What the check reads and writes: the buffer length, the mod-override dictionary and whether patches are installed. */
  datatype LoadState = LoadState(bufferLength: nat, modOverride: Option<map<string, bool>>, patched: bool)

  /**
   * The state after the check. Exactly one action is taken: on an enlarged
   * buffer the marker is set and the patches stay; otherwise the patches are
   * reverted and the metadata stays. The buffer length never changes.
   */
  function AfterLevelLoaded(s: LoadState): (r: LoadState)
    ensures r.bufferLength == s.bufferLength
    ensures s.bufferLength == PathDeserialize.NewUnitCount ==>
              MetaData.MarksExpanded(r.modOverride) && r.modOverride == Some(MetaData.WithMarker(s.modOverride))
              && r.patched == s.patched
    ensures s.bufferLength != PathDeserialize.NewUnitCount ==> !r.patched && r.modOverride == s.modOverride
  {
    if s.bufferLength == PathDeserialize.NewUnitCount then
      s.(modOverride := Some(MetaData.WithMarker(s.modOverride)))
    else
      s.(patched := false)
  }

  /** Running the check a second time on its own result changes nothing. */
  lemma AfterLevelLoadedIdempotent(s: LoadState)
    ensures AfterLevelLoaded(AfterLevelLoaded(s)) == AfterLevelLoaded(s)
  {
    MetaData.WithMarkerIdempotent(s.modOverride);
  }

  /** A save already marked expanded (with the patches in place) passes the check unchanged. */
  lemma ExpandedSaveUnchanged(s: LoadState)
    requires s.bufferLength == PathDeserialize.NewUnitCount && MetaData.MarksExpanded(s.modOverride)
    ensures AfterLevelLoaded(s) == s
  {
    MetaData.MarkerNeverDowngrades(s.modOverride);
  }

  ghost function StateOf(units: Host.Array32, metaData: Host.SimulationMetaData, patcher: Host.Patcher): LoadState
    reads units, metaData, patcher
  {
    LoadState(units.buffer.Length, metaData.modOverride, patcher.patched)
  }

  /**
   * The postfix on LoadingWrapper.OnLevelLoaded. The success branch
   * dereferences the simulation manager and its metadata, so they must exist
   * when the buffer has been enlarged.
   */
  method Postfix(units: Host.Array32, sim: Host.SimulationManager?, patcher: Host.Patcher) returns (success: bool)
    requires units.buffer.Length == PathDeserialize.NewUnitCount ==> sim != null && sim.metaData != null
    modifies if sim != null && sim.metaData != null then {sim.metaData} else {}, patcher
    ensures success <==> units.buffer.Length == PathDeserialize.NewUnitCount
    ensures sim != null && sim.metaData != null ==>
              StateOf(units, sim.metaData, patcher) == AfterLevelLoaded(old(StateOf(units, sim.metaData, patcher)))
    ensures success ==> MetaData.LoadingExtended(sim) && patcher.patched == old(patcher.patched)
    ensures !success ==> !patcher.patched
  {
    var bufferSize := units.buffer.Length;
    if bufferSize == PathDeserialize.NewUnitCount {
      MetaData.SetMetaData(sim);
      success := true;
    } else {
      patcher.UnpatchAll();
      success := false;
    }
  }
}
