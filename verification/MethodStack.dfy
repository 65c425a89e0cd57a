/** The per-thread call stack of the agent: five parallel arrays and a depth. */
module MethodStacks {
  import opened Sequences

  const SUBTRACT_CHILDREN: bv8 := 1
  const ALLOCATION_BOUNDARY: bv8 := 2
  const SAMPLED: bv8 := 4
  const TRANSPARENT_TO_PARENT: bv8 := 8

  /** One column of the five arrays, its flag bits spelled out. */
  datatype Frame = Frame(
    methodId: int, startNano: int, childNano: int, overrideNano: int,
    subtractsChildren: bool, allocationBoundary: bool, sampled: bool, transparentToParent: bool)

  /** What an allocation walk sees of a frame. */
  datatype StackFrame = StackFrame(methodId: int, allocationBoundary: bool)

  function NewFrame(methodId: int, startNano: int,
                    subtractChildren: bool, allocationBoundary: bool, sampled: bool): Frame
  {
    Frame(methodId, startNano, 0, 0, subtractChildren, allocationBoundary, sampled, false)
  }

  /** The flag byte of a frame. */
  function FlagByte(f: Frame): (flags: bv8)
    ensures (flags & SUBTRACT_CHILDREN != 0) == f.subtractsChildren
    ensures (flags & ALLOCATION_BOUNDARY != 0) == f.allocationBoundary
    ensures (flags & SAMPLED != 0) == f.sampled
    ensures (flags & TRANSPARENT_TO_PARENT != 0) == f.transparentToParent
  {
    (if f.subtractsChildren then SUBTRACT_CHILDREN else 0)
    | (if f.allocationBoundary then ALLOCATION_BOUNDARY else 0)
    | (if f.sampled then SAMPLED else 0)
    | (if f.transparentToParent then TRANSPARENT_TO_PARENT else 0)
  }

  /** Index of the topmost frame of a method, -1 when it has none. */
  function TopmostOf(frames: seq<Frame>, methodId: int): (r: int)
    ensures -1 <= r < |frames|
    ensures r >= 0 ==> frames[r].methodId == methodId
    ensures forall k :: r < k < |frames| ==> frames[k].methodId != methodId
  {
    if frames == [] then -1
    else if frames[|frames| - 1].methodId == methodId then |frames| - 1
    else TopmostOf(frames[..|frames| - 1], methodId)
  }

  /** The allocation walk's view: innermost frame first. */
  function FromTop(frames: seq<Frame>): (r: seq<StackFrame>)
    ensures |r| == |frames|
    ensures forall i :: 0 <= i < |r| ==>
      r[i] == StackFrame(frames[|frames| - 1 - i].methodId, frames[|frames| - 1 - i].allocationBoundary)
  {
    seq(|frames|, i requires 0 <= i < |frames| =>
      StackFrame(frames[|frames| - 1 - i].methodId, frames[|frames| - 1 - i].allocationBoundary))
  }

  lemma AlreadyLong(length: nat, required: nat)
    requires length > 0
    ensures required <= length ==> GrownLength(length, required) == length
  {
  }

  class MethodStack {
    var methodIds: array<int>
    var startNanos: array<int>
    var childDurationNanos: array<int>
    var overrideDurationNanos: array<int>
    var flags: array<bv8>
    var depth: nat

    ghost var frames: seq<Frame>
    ghost var Repr: set<object>

    /** Column i of the arrays shows frame f. */
    ghost predicate Shows(i: int, f: Frame)
      reads this, methodIds, startNanos, childDurationNanos, overrideDurationNanos, flags
      requires 0 <= i < methodIds.Length == startNanos.Length == childDurationNanos.Length
      requires i < overrideDurationNanos.Length == flags.Length
    {
      && methodIds[i] == f.methodId && startNanos[i] == f.startNano
      && childDurationNanos[i] == f.childNano && overrideDurationNanos[i] == f.overrideNano
      && flags[i] == FlagByte(f)
    }

    ghost predicate Valid()
      reads this, Repr
      ensures Valid() ==> this in Repr
    {
      && this in Repr && methodIds in Repr && startNanos in Repr && childDurationNanos in Repr
      && overrideDurationNanos in Repr && flags in Repr
      && methodIds != startNanos && methodIds != childDurationNanos && methodIds != overrideDurationNanos
      && startNanos != childDurationNanos && startNanos != overrideDurationNanos
      && childDurationNanos != overrideDurationNanos
      && flags as object !in {methodIds, startNanos, childDurationNanos, overrideDurationNanos}
      && 0 < methodIds.Length
      && methodIds.Length == startNanos.Length == childDurationNanos.Length
      && methodIds.Length == overrideDurationNanos.Length == flags.Length
      && depth == |frames| <= methodIds.Length
      && forall i :: 0 <= i < depth ==> Shows(i, frames[i])
    }

    constructor ()
      ensures Valid() && fresh(Repr)
      ensures frames == []
    {
      methodIds := new int[128](_ => 0);
      startNanos := new int[128](_ => 0);
      childDurationNanos := new int[128](_ => 0);
      overrideDurationNanos := new int[128](_ => 0);
      flags := new bv8[128](_ => 0);
      depth := 0;
      frames := [];
      new;
      Repr := {this, methodIds, startNanos, childDurationNanos, overrideDurationNanos, flags};
    }

    method Push(methodId: int, startNano: int, subtractChildren: bool, allocationBoundary: bool, sampled: bool)
      requires Valid()
      modifies Repr
      ensures Valid() && fresh(Repr - old(Repr))
      ensures frames ==
        old(frames) + [NewFrame(methodId, startNano, subtractChildren, allocationBoundary, sampled)]
    {
      EnsureDepth(depth + 1);
      methodIds[depth] := methodId;
      startNanos[depth] := startNano;
      childDurationNanos[depth] := 0;
      overrideDurationNanos[depth] := 0;
      var frameFlags: bv8 := 0;
      if subtractChildren {
        frameFlags := frameFlags | SUBTRACT_CHILDREN;
      }
      if allocationBoundary {
        frameFlags := frameFlags | ALLOCATION_BOUNDARY;
      }
      if sampled {
        frameFlags := frameFlags | SAMPLED;
      }
      flags[depth] := frameFlags;
      depth := depth + 1;
      frames := frames + [NewFrame(methodId, startNano, subtractChildren, allocationBoundary, sampled)];
    }

    predicate SubtractChildrenAt(index: nat)
      reads this, Repr
      requires Valid() && index < |frames|
      ensures SubtractChildrenAt(index) == frames[index].subtractsChildren
    {
      flags[index] & SUBTRACT_CHILDREN != 0
    }

    predicate SampledAt(index: nat)
      reads this, Repr
      requires Valid() && index < |frames|
      ensures SampledAt(index) == frames[index].sampled
    {
      flags[index] & SAMPLED != 0
    }

    predicate TransparentToParentAt(index: nat)
      reads this, Repr
      requires Valid() && index < |frames|
      ensures TransparentToParentAt(index) == frames[index].transparentToParent
    {
      flags[index] & TRANSPARENT_TO_PARENT != 0
    }

    /** Not popped is where the source returns Integer.MIN_VALUE. */
    method PopMethodId() returns (popped: bool, methodId: int)
      requires Valid()
      modifies this`depth, this`frames
      ensures Valid()
      ensures popped == (old(frames) != [])
      ensures popped ==> methodId == old(frames)[|old(frames)| - 1].methodId
      ensures frames == if popped then old(frames)[..|old(frames)| - 1] else []
    {
      if depth == 0 {
        return false, 0;
      }
      depth := depth - 1;
      frames := frames[..depth];
      return true, methodIds[depth];
    }

    method FindFromTop(methodId: int) returns (r: int)
      requires Valid()
      ensures r == TopmostOf(frames, methodId)
    {
      var i := depth - 1;
      while i >= 0
        invariant -1 <= i < depth
        invariant TopmostOf(frames, methodId) == TopmostOf(frames[..i + 1], methodId)
      {
        assert frames[..i + 1][..i] == frames[..i];
        if methodIds[i] == methodId {
          return i;
        }
        i := i - 1;
      }
      return -1;
    }

    method Truncate(newDepth: int)
      requires Valid()
      modifies this`depth, this`frames
      ensures Valid()
      ensures frames == if 0 <= newDepth <= |old(frames)| then old(frames)[..newDepth] else old(frames)
    {
      if newDepth >= 0 && newDepth <= depth {
        depth := newDepth;
        frames := frames[..newDepth];
      }
    }

    method AddChildDuration(index: nat, duration: int)
      requires Valid() && index < |frames|
      modifies childDurationNanos, this`frames
      ensures Valid() && Repr == old(Repr)
      ensures frames == old(frames)[index := old(frames)[index].(childNano := old(frames)[index].childNano + duration)]
    {
      childDurationNanos[index] := childDurationNanos[index] + duration;
      frames := frames[index := frames[index].(childNano := frames[index].childNano + duration)];
    }

    method AddOverrideDurationToAll(duration: int)
      requires Valid()
      modifies overrideDurationNanos, this`frames
      ensures Valid() && Repr == old(Repr)
      ensures |frames| == |old(frames)|
      ensures forall i :: 0 <= i < |frames| ==>
        frames[i] == old(frames)[i].(overrideNano := old(frames)[i].overrideNano + duration)
    {
      for i := 0 to depth
        invariant |frames| == depth
        invariant forall k :: 0 <= k < i ==>
          overrideDurationNanos[k] == old(overrideDurationNanos[k]) + duration
        invariant forall k :: i <= k < overrideDurationNanos.Length ==>
          overrideDurationNanos[k] == old(overrideDurationNanos[k])
        invariant forall k :: 0 <= k < i ==>
          frames[k] == old(frames)[k].(overrideNano := old(frames)[k].overrideNano + duration)
        invariant forall k :: i <= k < depth ==> frames[k] == old(frames)[k]
      {
        overrideDurationNanos[i] := overrideDurationNanos[i] + duration;
        frames := frames[i := frames[i].(overrideNano := overrideDurationNanos[i])];
      }
    }

    method MarkTopTransparentToParent()
      requires Valid()
      modifies flags, this`frames
      ensures Valid() && Repr == old(Repr)
      ensures old(frames) == [] ==> frames == []
      ensures old(frames) != [] ==>
        var top := |old(frames)| - 1;
        frames == old(frames)[top := old(frames)[top].(transparentToParent := true)]
    {
      if depth > 0 {
        flags[depth - 1] := flags[depth - 1] | TRANSPARENT_TO_PARENT;
        frames := frames[depth - 1 := frames[depth - 1].(transparentToParent := true)];
      }
    }

    method FramesFromTop() returns (r: array<StackFrame>)
      requires Valid()
      ensures fresh(r) && r[..] == FromTop(frames)
    {
      r := new StackFrame[depth](_ => StackFrame(0, false));
      for i := 0 to depth
        invariant forall k :: 0 <= k < i ==> r[k] == FromTop(frames)[k]
      {
        var source := depth - 1 - i;
        r[i] := StackFrame(methodIds[source], flags[source] & ALLOCATION_BOUNDARY != 0);
      }
    }

    /** Longer copies of the five arrays, where frame i still shows in column i. */
    method CopiedColumns(newLength: nat)
      returns (ids: array<int>, starts: array<int>, children: array<int>, overrides: array<int>, bytes: array<bv8>)
      requires Valid() && methodIds.Length <= newLength
      ensures fresh({ids, starts, children, overrides}) && fresh(bytes)
      ensures ids != starts && ids != children && ids != overrides
      ensures starts != children && starts != overrides && children != overrides
      ensures bytes as object !in {ids, starts, children, overrides}
      ensures ids.Length == starts.Length == children.Length == overrides.Length == bytes.Length == newLength
      ensures forall i :: 0 <= i < depth ==>
        && ids[i] == frames[i].methodId && starts[i] == frames[i].startNano && children[i] == frames[i].childNano
        && overrides[i] == frames[i].overrideNano && bytes[i] == FlagByte(frames[i])
    {
      hide FlagByte;
      ids := Copied(methodIds, newLength, 0);
      starts := Copied(startNanos, newLength, 0);
      children := Copied(childDurationNanos, newLength, 0);
      overrides := Copied(overrideDurationNanos, newLength, 0);
      bytes := Copied(flags, newLength, 0);
    }

    method EnsureDepth(required: nat)
      requires Valid()
      modifies this
      ensures Valid() && fresh(Repr - old(Repr))
      ensures frames == old(frames) && depth == old(depth)
      ensures methodIds.Length == GrownLength(old(methodIds.Length), required)
    {
      hide GrownLength, FlagByte;
      AlreadyLong(methodIds.Length, required);
      if required <= methodIds.Length {
        return;
      }
      var newLength := NewLength(methodIds.Length, required);
      methodIds, startNanos, childDurationNanos, overrideDurationNanos, flags := CopiedColumns(newLength);
      Repr := Repr + {methodIds, startNanos, childDurationNanos, overrideDurationNanos, flags};
    }
  }
}
