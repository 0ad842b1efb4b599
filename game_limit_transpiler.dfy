/**
 * The transpiler applied to the game's (and allow-listed extensions') methods
 * that hard-code the PathUnit limit: every `ldc.i4 262144` gets the enlarged
 * unit count as its operand, and every other instruction passes through.
 */
module GameLimitTranspiler {

  import opened Il
  import PathDeserialize

  /** The hard-coded vanilla PathUnit limit the transpiler looks for. */
  const VanillaLimit: int := 262144

  /** `ldc.i4` whose operand is the boxed int 262144. */
  predicate IsTarget(ins: Instruction)
  {
    ins.opcode == Ldc_I4 && ins.operand.IntOp? && ins.operand.value == VanillaLimit
  }

  ghost predicate HasTarget(s: seq<Instruction>)
  {
    exists k :: 0 <= k < |s| && IsTarget(s[k])
  }

  function PatchInstruction(ins: Instruction): Instruction
  {
    if IsTarget(ins) then ins.(operand := IntOp(PathDeserialize.NewUnitCount)) else ins
  }

  /** The patched instruction stream: `PatchInstruction` applied to each instruction in turn. */
  function Patched(s: seq<Instruction>): seq<Instruction>
  {
    if s == [] then [] else [PatchInstruction(s[0])] + Patched(s[1..])
  }

  lemma {:induction false} PatchedAt(s: seq<Instruction>, k: nat)
    requires k < |s|
    ensures |Patched(s)| == |s| && Patched(s)[k] == PatchInstruction(s[k])
    decreases |s|
  {
    PatchedLength(s);
    if k > 0 {
      PatchedAt(s[1..], k - 1);
    }
  }

  lemma {:induction false} PatchedLength(s: seq<Instruction>)
    ensures |Patched(s)| == |s|
    decreases |s|
  {
    if s != [] {
      PatchedLength(s[1..]);
    }
  }

  /**
   * The patch keeps the length and every opcode; every `ldc.i4 262144` now
   * loads the enlarged unit count, and every other instruction (including an
   * `ldc.i4` of another value or of a non-int operand) is unchanged.
   */
  lemma {:induction false} PatchedPointwise(s: seq<Instruction>)
    ensures |Patched(s)| == |s|
    ensures forall k :: 0 <= k < |s| ==> Patched(s)[k].opcode == s[k].opcode
    ensures forall k :: 0 <= k < |s| && IsTarget(s[k]) ==>
              Patched(s)[k] == Instruction(Ldc_I4, IntOp(PathDeserialize.NewUnitCount))
    ensures forall k :: 0 <= k < |s| && !IsTarget(s[k]) ==> Patched(s)[k] == s[k]
  {
    PatchedLength(s);
    forall k | 0 <= k < |s| ensures Patched(s)[k] == PatchInstruction(s[k]) {
      PatchedAt(s, k);
    }
  }

  /** Without a target the stream comes out exactly as it went in. */
  lemma {:induction false} PatchedWithoutTarget(s: seq<Instruction>)
    requires !HasTarget(s)
    ensures Patched(s) == s
    decreases |s|
  {
    if s != [] {
      assert !IsTarget(s[0]);
      assert !HasTarget(s[1..]) by {
        forall k | 0 <= k < |s[1..]| ensures !IsTarget(s[1..][k]) {
          assert s[1..][k] == s[k + 1];
        }
      }
      PatchedWithoutTarget(s[1..]);
    }
  }

  /** A patched stream holds no target any more, since the enlarged count differs from 262144. */
  lemma {:induction false} PatchedLeavesNoTarget(s: seq<Instruction>)
    ensures !HasTarget(Patched(s))
  {
    PatchedPointwise(s);
  }

  /** Patching a patched stream again changes nothing. */
  lemma {:induction false} PatchedIdempotent(s: seq<Instruction>)
    ensures Patched(Patched(s)) == Patched(s)
  {
    PatchedLeavesNoTarget(s);
    PatchedWithoutTarget(Patched(s));
  }

  /**
   * The transpiler: rewrites each matching instruction's operand in place and
   * reports whether any matched; when none did (an error is logged) the
   * instructions are left exactly as they were.
   */
  method Transpiler(instructions: array<Instruction>) returns (foundTarget: bool)
    modifies instructions
    ensures instructions[..] == Patched(old(instructions[..]))
    ensures foundTarget <==> HasTarget(old(instructions[..]))
    ensures !foundTarget ==> instructions[..] == old(instructions[..])
  {
    foundTarget := false;
    for i := 0 to instructions.Length
      invariant forall k :: 0 <= k < i ==> instructions[k] == PatchInstruction(old(instructions[k]))
      invariant forall k :: i <= k < instructions.Length ==> instructions[k] == old(instructions[k])
      invariant foundTarget <==> exists k :: 0 <= k < i && IsTarget(old(instructions[k]))
    {
      var instruction := instructions[i];
      if instruction.opcode == Ldc_I4 && instruction.operand.IntOp? && instruction.operand.value == VanillaLimit {
        instructions[i] := instruction.(operand := IntOp(PathDeserialize.NewUnitCount));
        foundTarget := true;
      }
    }
    ghost var original := old(instructions[..]);
    PatchedPointwise(original);
    assert instructions[..] == Patched(original);
    if !foundTarget {
      PatchedWithoutTarget(original);
    }
  }
}
