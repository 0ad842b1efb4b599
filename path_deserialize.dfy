/**
 * The patches on the game's PathUnit deserialisation: the unit-count
 * constants, the splice that makes the deserialiser read its size from
 * `DeserialiseSize`, and the prefix/postfix hooks that size the buffer and
 * rebuild the free list when a vanilla save is loaded into the enlarged buffer.
 */
module PathDeserialize {

  import opened Wrappers
  import opened Il
  import Host
  import MetaData

  const OriginalUnitCount: int := 262144
  const ExtraUnitCount: int := OriginalUnitCount
  const NewUnitCount: int := ExtraUnitCount + OriginalUnitCount

  /** The enlarged capacity doubles the vanilla one. */
  lemma UnitCounts()
    ensures NewUnitCount == 2 * OriginalUnitCount == 524288
  {
  }

  // ---------------------------------------------------------------------------
  // The splice transpiler
  // ---------------------------------------------------------------------------

  /** The instruction the splice emits in place of the dropped range. */
  const DeserialiseSizeCall: Instruction := Instruction(Call, MethodOp("get_DeserialiseSize"))

  /** The first `stloc.2` after the start marker is missing: the enumerator runs off the end. */
  datatype SpliceError = EndAnchorMissing

  /** `k` is the first index at or after `from` whose opcode is `op`. */
  ghost predicate IsFirstOpcode(s: seq<Instruction>, op: Opcode, from: nat, k: nat)
  {
    from <= k < |s| && s[k].opcode == op && forall j :: from <= j < k ==> s[j].opcode != op
  }

  /** The index of the first instruction at or after `from` with opcode `op`, if any. */
  function FirstOpcodeFrom(s: seq<Instruction>, op: Opcode, from: nat): (r: Option<nat>)
    requires from <= |s|
    ensures r.Some? ==> IsFirstOpcode(s, op, from, r.value)
    ensures r.None? ==> forall j :: from <= j < |s| ==> s[j].opcode != op
    decreases |s| - from
  {
    if from == |s| then None
    else if s[from].opcode == op then Some(from)
    else FirstOpcodeFrom(s, op, from + 1)
  }

  /**
   * The instruction stream the splice produces: everything before the first
   * `ldloc.1`, then one call of the `DeserialiseSize` getter, then everything
   * from the next `stloc.2` on. Without a `ldloc.1` the stream is unchanged.
   */
  function Splice(s: seq<Instruction>): Result<seq<Instruction>, SpliceError>
  {
    match FirstOpcodeFrom(s, Ldloc_1, 0)
    case None => Success(s)
    case Some(p) =>
      match FirstOpcodeFrom(s, Stloc_2, p + 1)
      case None => Failure(EndAnchorMissing)
      case Some(q) => Success(s[..p] + [DeserialiseSizeCall] + s[q..])
  }

  /** With `p` the first `ldloc.1` and `q` the first `stloc.2` after it, the splice keeps `s[..p]` and `s[q..]`. */
  lemma SpliceShape(s: seq<Instruction>, p: nat, q: nat)
    requires IsFirstOpcode(s, Ldloc_1, 0, p)
    requires IsFirstOpcode(s, Stloc_2, p + 1, q)
    ensures Splice(s) == Success(s[..p] + [DeserialiseSizeCall] + s[q..])
    ensures |Splice(s).value| == |s| - (q - p) + 1
    ensures forall k :: 0 <= k < p ==> Splice(s).value[k] == s[k]
    ensures Splice(s).value[p] == DeserialiseSizeCall
    ensures forall k :: q <= k < |s| ==> Splice(s).value[k - q + p + 1] == s[k]
  {
  }

  /** With no `ldloc.1` at all the splice leaves the stream as it is. */
  lemma SpliceWithoutStart(s: seq<Instruction>)
    requires forall k :: 0 <= k < |s| ==> s[k].opcode != Ldloc_1
    ensures Splice(s) == Success(s)
  {
  }

  /** The splice fails exactly when no `stloc.2` follows the first `ldloc.1`. */
  lemma SpliceFailsExactly(s: seq<Instruction>)
    ensures Splice(s).Failure? <==>
              exists p: nat :: IsFirstOpcode(s, Ldloc_1, 0, p) && forall j :: p < j < |s| ==> s[j].opcode != Stloc_2
  {
  }

  /**
   * The transpiler on PathManager.Data.Deserialize, as the mod's enumerator
   * loop: copy instructions until the first `ldloc.1`, emit the getter call in
   * its place, skip up to the next `stloc.2`, and copy the rest verbatim.
   */
  method Transpiler(instructions: seq<Instruction>) returns (r: Result<seq<Instruction>, SpliceError>)
    ensures r == Splice(instructions)
  {
    var output: seq<Instruction> := [];
    var inserted := false;
    var i := 0;
    ghost var p: nat := 0;
    ghost var q: nat := 0;
    while i < |instructions|
      invariant 0 <= i <= |instructions|
      invariant !inserted ==> (forall j :: 0 <= j < i ==> instructions[j].opcode != Ldloc_1) && output == instructions[..i]
      invariant inserted ==> IsFirstOpcode(instructions, Ldloc_1, 0, p) && IsFirstOpcode(instructions, Stloc_2, p + 1, q)
      invariant inserted ==> q < i && output == instructions[..p] + [DeserialiseSizeCall] + instructions[q..i]
    {
      var instruction := instructions[i];
      if !inserted {
        if instruction.opcode == Ldloc_1 {
          inserted := true;
          p := i;
          output := output + [DeserialiseSizeCall];
          // Drop instructions until the next stloc.2 (the do-while
          // advances at least once before testing).
          i := i + 1;
          while i < |instructions| && instructions[i].opcode != Stloc_2
            invariant p < i <= |instructions|
            invariant forall j :: p < j < i ==> instructions[j].opcode != Stloc_2
          {
            i := i + 1;
          }
          if i == |instructions| {
            // The enumerator runs past the end here.
            assert FirstOpcodeFrom(instructions, Ldloc_1, 0) == Some(p);
            return Failure(EndAnchorMissing);
          }
          q := i;
          instruction := instructions[i];
        }
      }
      output := output + [instruction];
      i := i + 1;
    }
    if inserted {
      SpliceShape(instructions, p, q);
      assert instructions[q..i] == instructions[q..];
    } else {
      assert instructions[..i] == instructions;
      SpliceWithoutStart(instructions);
    }
    r := Success(output);
  }

  // ---------------------------------------------------------------------------
  // The free list the postfix rebuilds
  // ---------------------------------------------------------------------------

  /** The indices of the slots whose created bit is clear, in ascending order. */
  function FreeIndices(flags: seq<bv8>): seq<nat>
    decreases |flags|
  {
    if flags == [] then []
    else
      var last := |flags| - 1;
      FreeIndices(flags[..last]) + (if Host.IsCreated(flags[last]) then [] else [last])
  }

  /** The free indices are exactly the slots not flagged as created, each once, in ascending order. */
  lemma {:induction false} FreeIndicesExactly(flags: seq<bv8>)
    ensures forall k: int :: k in FreeIndices(flags) <==> 0 <= k < |flags| && !Host.IsCreated(flags[k])
    ensures forall i, j :: 0 <= i < j < |FreeIndices(flags)| ==> FreeIndices(flags)[i] < FreeIndices(flags)[j]
    decreases |flags|
  {
    if flags != [] {
      var last := |flags| - 1;
      var init := flags[..last];
      FreeIndicesExactly(init);
      forall k | 0 <= k < last ensures init[k] == flags[k] {
      }
      var prior := FreeIndices(init);
      forall i | 0 <= i < |prior| ensures prior[i] < last {
        assert prior[i] in prior;
      }
    }
  }

  /** On a zeroed buffer every slot is free: the free indices are 0, 1, ..., |flags| - 1. */
  lemma {:induction false} ZeroedBufferFreesAll(flags: seq<bv8>)
    requires forall k :: 0 <= k < |flags| ==> flags[k] == 0
    ensures |FreeIndices(flags)| == |flags|
    ensures forall k :: 0 <= k < |flags| ==> FreeIndices(flags)[k] == k
    decreases |flags|
  {
    if flags != [] {
      var last := |flags| - 1;
      ZeroedBufferFreesAll(flags[..last]);
      assert !Host.IsCreated(flags[last]);
    }
  }

  // ---------------------------------------------------------------------------
  // The prefix and postfix hooks
  // ---------------------------------------------------------------------------

  /** The patch's static state: whether the save being loaded has an expanded PathUnit array. */
  class Patch {
    var loadingExpanded: bool

    constructor ()
      ensures !loadingExpanded
    {
      loadingExpanded := false;
    }

    /** The unit count the patched deserialiser reads from the save. */
    function DeserialiseSize(): (size: int)
      reads this
      ensures size == NewUnitCount <==> loadingExpanded
      ensures size == OriginalUnitCount <==> !loadingExpanded
    {
      if loadingExpanded then NewUnitCount else OriginalUnitCount
    }

    /**
     * Before deserialisation: when the buffer has been enlarged, decide from the
     * save metadata whether the save is expanded, and zero the whole buffer when
     * it is not. Otherwise nothing changes.
     */
    method Prefix(units: Host.Array32, sim: Host.SimulationManager?)
      modifies this, units.buffer
      ensures units.buffer.Length == NewUnitCount ==>
                loadingExpanded == MetaData.LoadingExtended(sim)
                && DeserialiseSize() == (if MetaData.LoadingExtended(sim) then NewUnitCount else OriginalUnitCount)
      ensures units.buffer.Length == NewUnitCount && !loadingExpanded ==>
                forall k :: 0 <= k < units.buffer.Length ==> units.buffer[k] == 0
      ensures units.buffer.Length == NewUnitCount && loadingExpanded ==> units.buffer[..] == old(units.buffer[..])
      ensures units.buffer.Length != NewUnitCount ==>
                loadingExpanded == old(loadingExpanded) && units.buffer[..] == old(units.buffer[..])
    {
      var buffer := units.buffer;
      if buffer.Length == NewUnitCount {
        loadingExpanded := MetaData.LoadingExtended(sim);
        if !loadingExpanded {
          // Array.Clear over the whole buffer.
          forall k | 0 <= k < buffer.Length {
            buffer[k] := 0;
          }
        }
      }
    }

    /**
     * After deserialisation of a vanilla save: empty the free list, then release
     * every slot whose created bit is clear, in ascending order. `freedUnits` is
     * the mod's count of released slots (0 when nothing is done).
     */
    method Postfix(units: Host.Array32) returns (freedUnits: nat)
      modifies units`unused
      ensures loadingExpanded ==> units.unused == old(units.unused) && freedUnits == 0
      ensures !loadingExpanded ==> units.unused == FreeIndices(units.buffer[..]) && freedUnits == |units.unused|
    {
      freedUnits := 0;
      var unitBuffer := units.buffer;
      if !loadingExpanded {
        units.ClearUnused();
        for i := 0 to unitBuffer.Length
          invariant units.unused == FreeIndices(unitBuffer[..i])
          invariant freedUnits == |units.unused|
        {
          assert unitBuffer[..i + 1][..i] == unitBuffer[..i];
          if unitBuffer[i] & Host.FLAG_CREATED == 0 {
            units.ReleaseItem(i);
            freedUnits := freedUnits + 1;
          }
        }
        assert unitBuffer[..unitBuffer.Length] == unitBuffer[..];
      }
    }

    /**
     * Prefix and postfix around a deserialisation that writes no unit data,
     * for a vanilla save: every one of the enlarged buffer's slots ends up on the
     * free list, in index order.
     */
    method DeserializeVanillaUnpopulated(units: Host.Array32, sim: Host.SimulationManager?) returns (freedUnits: nat)
      requires units.buffer.Length == NewUnitCount && !MetaData.LoadingExtended(sim)
      modifies this, units.buffer, units`unused
      ensures freedUnits == NewUnitCount && |units.unused| == NewUnitCount
      ensures forall k :: 0 <= k < NewUnitCount ==> units.unused[k] == k
    {
      Prefix(units, sim);
      freedUnits := Postfix(units);
      ZeroedBufferFreesAll(units.buffer[..]);
    }

    /**
     * Prefix and postfix around the deserialisation of an expanded save: the
     * deserialiser reads the enlarged size, and neither the buffer nor the free
     * list is reset.
     */
    method DeserializeExpanded(units: Host.Array32, sim: Host.SimulationManager?) returns (freedUnits: nat)
      requires units.buffer.Length == NewUnitCount && MetaData.LoadingExtended(sim)
      modifies this, units.buffer, units`unused
      ensures DeserialiseSize() == NewUnitCount && freedUnits == 0
      ensures units.buffer[..] == old(units.buffer[..]) && units.unused == old(units.unused)
    {
      Prefix(units, sim);
      freedUnits := Postfix(units);
    }
  }
}
