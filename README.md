# More PathUnits: a Dafny model of the capacity-patching core

More PathUnits doubles the game's PathUnit arena from 262144 to 524288 slots.
It rewrites the hard-coded limit in the game's compiled methods, splices the
path-unit deserialiser so that it reads its size from the mod, zeroes and
rebuilds the free list when a vanilla save is loaded into the enlarged buffer,
records in the save metadata that the save is expanded, and reverts all
patches when the buffer turns out not to have been enlarged.

This project models that core in Dafny and proves what each piece promises:

- `Il`: an IL instruction is an opcode plus an operand. The opcodes the
  transpilers test for are `Ldc_I4`, `Ldloc_1`, `Stloc_2` and `Call`; every
  other opcode is `OtherOpcode`. A call's target is its `MethodOp` operand.
- `GameLimitTranspiler`: constant substitution over an array of instructions,
  changed in place. The method is proved equal to the sequence function
  `Patched`, and the lemmas state what `Patched` preserves.
- `PathDeserialize`: the unit-count constants, the splice transpiler, and the
  class `Patch` that holds the static `loadingExpanded` flag. `Patch` has the
  `DeserialiseSize` getter and the `Prefix` and `Postfix` hooks. The free list
  that `Postfix` rebuilds is specified by `FreeIndices`.
- `MetaData`: the lookup and the update of the one marker key in the
  optional mod-override dictionary.
- `OnLevelLoaded`: the post-load check, as the transition `AfterLevelLoaded`
  over (buffer length, metadata, patch state) and as a method on the objects.
- `Host`: the game and framework types. `Array32` holds the flags buffer and
  the free list. `SimulationManager` and `SimulationMetaData` hold the
  metadata. `Patcher` holds the patch state. The game's singletons become
  explicit parameters.

Assumptions about game and framework code outside the mod, stated as the
bodies and contracts of the `Host` methods:
- `Array32.ClearUnused` empties the free list.
- `Array32.ReleaseItem(i)` appends `i` to the free list.
- Neither of them touches the buffer.
- `Patcher.UnpatchAll` leaves no patch installed.
- `FLAG_CREATED` is bit value 1, the game's value. No proof depends on it.

Behaviour worth noting:
- The sizing decision reads only the save-metadata marker; no setting feeds it.
- The constant transpiler rewrites every `ldc.i4 262144` and reports an error
  only when there is none.
- The splice uses the first `ldloc.1` and the first `stloc.2` after it, and
  does not check that either occurs only once.

## Model

| member | source | states |
|---|---|---|
| `GameLimitTranspiler.Transpiler` | Code/Patches/GameLimitTranspiler.cs:36-72 | the array after the call equals `Patched` of the array before it; `foundTarget` holds exactly when some `ldc.i4 262144` was present; no match means the instructions are left untouched |
| `GameLimitTranspiler.PatchedAt` | Code/Patches/GameLimitTranspiler.cs:46-64 | the patched stream has the input's length, and its k-th instruction is the k-th input instruction, patched on its own |
| `GameLimitTranspiler.PatchedLength` | Code/Patches/GameLimitTranspiler.cs:46-64 | patching keeps the length of the stream |
| `GameLimitTranspiler.PatchedPointwise` | Code/Patches/GameLimitTranspiler.cs:46-65 | same length and the same opcode at every index; every `ldc.i4 262144` now loads 524288; every other instruction, including `ldc.i4` of another value or of a non-int operand, is unchanged |
| `GameLimitTranspiler.PatchedWithoutTarget` | Code/Patches/GameLimitTranspiler.cs:68-71 | when no instruction matches, the output equals the input |
| `GameLimitTranspiler.PatchedLeavesNoTarget` | Code/Patches/GameLimitTranspiler.cs:52-55 | the patched stream contains no `ldc.i4 262144` |
| `GameLimitTranspiler.PatchedIdempotent` | Code/Patches/GameLimitTranspiler.cs:52-55 | patching a patched stream again changes nothing |
| `GameLimitTranspiler.Patched` | Code/Patches/GameLimitTranspiler.cs:46-65 | reference definition of the patched stream: each instruction in turn, with the operand of every `ldc.i4 262144` replaced by 524288 (its properties are the lemmas in the rows above) |
| `PathDeserialize.UnitCounts` | Code/Patches/PathDeserialize.cs:23-25 | the new unit count is twice the original, 524288 |
| `PathDeserialize.FirstOpcodeFrom` | Code/Patches/PathDeserialize.cs:53-72 | returns the first index at or after `from` with the given opcode, or none when no such index exists |
| `PathDeserialize.Splice` | Code/Patches/PathDeserialize.cs:47-79 | reference definition of the spliced stream: unchanged without a `ldloc.1`; otherwise the part before the first `ldloc.1`, one getter call, and everything from the next `stloc.2`; failure when that `stloc.2` is missing (its properties are the lemmas below) |
| `PathDeserialize.SpliceShape` | Code/Patches/PathDeserialize.cs:53-78 | with p the first `ldloc.1` and q the first `stloc.2` after it, the output is `s[..p] + [call get_DeserialiseSize] + s[q..]`; the prefix, the inserted call and the shifted suffix are stated index by index |
| `PathDeserialize.SpliceWithoutStart` | Code/Patches/PathDeserialize.cs:42-61 | without any `ldloc.1` the output equals the input |
| `PathDeserialize.SpliceFailsExactly` | Code/Patches/PathDeserialize.cs:66-72 | the splice fails exactly when no `stloc.2` follows the first `ldloc.1` |
| `PathDeserialize.Transpiler` | Code/Patches/PathDeserialize.cs:35-80 | the enumerator loop, with its `inserted` flag and inner skipping loop, produces exactly `Splice` of its input, the failure included |
| `PathDeserialize.FreeIndices` | Code/Patches/PathDeserialize.cs:137-148 | reference definition of the rebuilt free list: the indices whose created bit is clear, in the order the loop visits them (its properties are the next two rows) |
| `PathDeserialize.FreeIndicesExactly` | Code/Patches/PathDeserialize.cs:137-148 | an index is released exactly when it is in range and its created bit is clear; the released indices are strictly ascending, so none is released twice |
| `PathDeserialize.ZeroedBufferFreesAll` | Code/Patches/PathDeserialize.cs:99-102 | on a zeroed buffer the released indices are 0, 1, … up to the buffer length minus one |
| `PathDeserialize.Patch.constructor` | Code/Patches/PathDeserialize.cs:28 | `loadingExpanded` starts false |
| `PathDeserialize.Patch.DeserialiseSize` | Code/Patches/PathDeserialize.cs:159 | 524288 exactly when `loadingExpanded` holds, 262144 exactly when it does not |
| `PathDeserialize.Patch.Prefix` | Code/Patches/PathDeserialize.cs:87-112 | with an enlarged buffer, `loadingExpanded` becomes the metadata marker, so `DeserialiseSize` follows the save; a vanilla save gets a buffer of all zeros and an expanded save keeps the buffer as it is; with any other buffer length neither the flag nor the buffer changes |
| `PathDeserialize.Patch.Postfix` | Code/Patches/PathDeserialize.cs:119-154 | when `loadingExpanded` holds nothing changes; otherwise the free list becomes exactly `FreeIndices` of the buffer, and the freed count is its length; the buffer is never written |
| `PathDeserialize.Patch.DeserializeVanillaUnpopulated` | Code/Patches/PathDeserialize.cs:87-154 | prefix then postfix on an enlarged buffer for a vanilla save with no unit data written puts all 524288 indices on the free list, in order |
| `PathDeserialize.Patch.DeserializeExpanded` | Code/Patches/PathDeserialize.cs:93-103 | prefix then postfix for an expanded save leave the buffer and the free list untouched and make the deserialiser read 524288 |
| `MetaData.MarksExpanded` | Code/MetaData.cs:28-38 | a dictionary marks the save as expanded when it exists and maps the marker key to true |
| `MetaData.LoadingExtended` | Code/MetaData.cs:23-51 | true exactly when the simulation manager, its metadata and the dictionary exist and the key maps to true; any missing link gives false; a present key gives its own value |
| `MetaData.WithMarker` | Code/MetaData.cs:64-80 | after the update the key maps to true; every other key is present exactly when it was before and keeps its value; a null dictionary becomes one holding only the key |
| `MetaData.WithMarkerIdempotent` | Code/MetaData.cs:70-74 | setting the marker twice equals setting it once |
| `MetaData.MarkerNeverDowngrades` | Code/MetaData.cs:70-74 | a dictionary already marked expanded is left exactly as it is |
| `MetaData.SetMetaData` | Code/MetaData.cs:56-82 | the metadata's dictionary becomes `WithMarker` of the old one, so `LoadingExtended` then holds |
| `OnLevelLoaded.AfterLevelLoaded` | Code/Patches/OnLevelLoaded.cs:23-43 | the buffer length never changes; with a length of 524288 the marker is set and the patch state kept; with any other length every patch is reverted and the metadata kept |
| `OnLevelLoaded.AfterLevelLoadedIdempotent` | Code/Patches/OnLevelLoaded.cs:31-42 | running the check again on its own result changes nothing |
| `OnLevelLoaded.ExpandedSaveUnchanged` | Code/Patches/OnLevelLoaded.cs:31-35 | an enlarged buffer whose save is already marked passes the check with nothing changed |
| `OnLevelLoaded.Postfix` | Code/Patches/OnLevelLoaded.cs:23-43 | the success branch is taken exactly when the buffer length is 524288; the new state is `AfterLevelLoaded` of the old one; the buffer is outside the frame |
| `Host.Array32.ClearUnused` | Code/Patches/PathDeserialize.cs:133 | assumed: the free list becomes empty |
| `Host.Array32.ReleaseItem` | Code/Patches/PathDeserialize.cs:143 | assumed: the released index is appended to the free list |
| `Host.Patcher.UnpatchAll` | Code/Patches/OnLevelLoaded.cs:41 | assumed: no patch remains installed |

## Left out

- Code/Patches/ModLimitTranspiler.cs is not part of this model. It only finds the extension's methods by reflection and hands them to the patch library. The rewriting it applies is `GameLimitTranspiler.Transpiler`.
- The list of target methods (Code/Patches/GameLimitTranspiler.cs:20-26) and the installation of patches are left out. Both belong to the patch library.
- Code/Patches/PathManager.cs, Code/Patches/Patcher.cs, Code/Mod.cs and Code/Loading.cs are left out. They are lifecycle hooks that delegate to the patch framework.
- Code/Settings/OptionsPanel.cs and Code/Settings/ModSettings.cs are left out. They are UI and XML settings code.
- Logging, and the `lock` around the metadata update, are left out. The update is modelled as a sequential one.
- The game's reading of the save's unit data between `Prefix` and `Postfix` is not modelled. So is the internal layout of `Array32` (`m_size`, the free-list array). The free list is only the sequence that `ClearUnused` and `ReleaseItem` produce.
- A PathUnit is modelled only by its simulation flags. Zeroing a unit zeroes its flags.
- Instruction labels and exception-block markers are not modelled; an `Il.Instruction` is only an opcode and an operand. The splice emits its call with no labels and drops the labels and exception-block markers of the removed range, from the `ldloc.1` up to the `stloc.2`; a branch to that `ldloc.1` would be left without a target. The constant transpiler keeps them, since it changes only the operand of the same instruction.
- Integer widths are not modelled. The operands and counts involved (262144, 524288, buffer indices) all fit in the mod's 32-bit types.
- PathDeserialize.Transpiler: when no `stloc.2` follows the first `ldloc.1`, the mod's enumerator runs past the end. It then throws, or loops for ever, depending on the enumerator. The model reports this as `Failure(EndAnchorMissing)` instead.
- MetaData.SetMetaData: requires the simulation manager and its metadata to exist. The mod dereferences them without a null check.
- OnLevelLoaded.Postfix: requires the simulation manager and its metadata to exist when the buffer is enlarged. The mod's success branch dereferences them.
