/** The native agent's allocation map: every object is counted on each prefix of its call path. */
module NativeAllocations {
  import opened Options
  import PathKeys

  const U64_MAX: nat := 0xFFFF_FFFF_FFFF_FFFF
  const MAX_FRAMES: nat := 12

  datatype Meta = Meta(className: string, methodName: string, methodDescriptor: string)

  /** A stack frame: its method, and the method's names when they can be looked up. */
  datatype Frame = Frame(methodKey: nat, meta: Option<Meta>)

  /** One step of a recorded path. */
  datatype Step = Step(methodKey: nat, meta: Meta)

  datatype Event = Event(path: seq<Step>, allocatedType: string, size: nat)

  /** The text a map entry is found by. */
  datatype Key = Key(text: string)

  datatype Stats = Stats(path: seq<nat>, methodMeta: Meta, allocatedType: string, allocatedSize: nat, instanceCount: nat)

  function Methods(path: seq<Step>): (r: seq<nat>)
    ensures |r| == |path| && forall k :: 0 <= k < |path| ==> r[k] == path[k].methodKey
  {
    seq(|path|, k requires 0 <= k < |path| => path[k].methodKey)
  }

  function KeyOf(path: seq<nat>): Key {
    Key(PathKeys.PathKey(path))
  }

  lemma KeysDiffer(p: seq<nat>, q: seq<nat>)
    requires p != q
    ensures KeyOf(p) != KeyOf(q)
  {
    if KeyOf(p) == KeyOf(q) {
      PathKeys.PathKeyIsInjective(p, q);
    }
  }

  function SaturatingAdd(a: nat, b: nat): nat {
    Capped(a + b)
  }

  function Capped(n: nat): nat {
    if n > U64_MAX then U64_MAX else n
  }

  // ---- what the map should hold

  predicate IsOn(e: Event, p: seq<nat>) {
    p != [] && p <= Methods(e.path)
  }

  /** Bytes of all the events whose path begins with p. */
  function BytesOn(events: seq<Event>, p: seq<nat>): nat {
    if events == [] then 0
    else
      var last := events[|events| - 1];
      BytesOn(events[..|events| - 1], p) + (if IsOn(last, p) then last.size else 0)
  }

  function EventsOn(events: seq<Event>, p: seq<nat>): nat {
    if events == [] then 0
    else EventsOn(events[..|events| - 1], p) + (if IsOn(events[|events| - 1], p) then 1 else 0)
  }

  /** The event that was first recorded on p. */
  function FirstOn(events: seq<Event>, p: seq<nat>): (e: Event)
    requires EventsOn(events, p) > 0
    ensures IsOn(e, p)
  {
    var before := events[..|events| - 1];
    if EventsOn(before, p) > 0 then FirstOn(before, p) else events[|events| - 1]
  }

  function StatsOn(events: seq<Event>, p: seq<nat>): Stats
    requires EventsOn(events, p) > 0
  {
    var first := FirstOn(events, p);
    Stats(p, first.path[|p| - 1].meta, first.allocatedType, Capped(BytesOn(events, p)), Capped(EventsOn(events, p)))
  }

  predicate EntryIsRight(m: map<Key, Stats>, events: seq<Event>, p: seq<nat>) {
    if EventsOn(events, p) > 0 then KeyOf(p) in m && m[KeyOf(p)] == StatsOn(events, p) else KeyOf(p) !in m
  }

  /** Entry by entry, the map is what the history says, and it holds nothing but paths. */
  ghost predicate Represents(m: map<Key, Stats>, events: seq<Event>) {
    && (forall p: seq<nat> :: EntryIsRight(m, events, p))
    && (forall key :: key in m ==> key == KeyOf(m[key].path))
  }

  // ---- one prefix more

  function Counted(s: Stats, size: nat): Stats {
    s.(allocatedSize := SaturatingAdd(s.allocatedSize, size), instanceCount := SaturatingAdd(s.instanceCount, 1))
  }

  function WithPrefix(m: map<Key, Stats>, path: seq<Step>, allocatedType: string, size: nat): map<Key, Stats>
    requires path != []
  {
    var p := Methods(path);
    var s := if KeyOf(p) in m then m[KeyOf(p)] else Stats(p, path[|path| - 1].meta, allocatedType, 0, 0);
    m[KeyOf(p) := Counted(s, size)]
  }

  lemma LastEventOn(events: seq<Event>, e: Event, p: seq<nat>)
    ensures BytesOn(events + [e], p) == BytesOn(events, p) + (if IsOn(e, p) then e.size else 0)
    ensures EventsOn(events + [e], p) == EventsOn(events, p) + (if IsOn(e, p) then 1 else 0)
    ensures EventsOn(events, p) > 0 ==> FirstOn(events + [e], p) == FirstOn(events, p)
    ensures EventsOn(events, p) == 0 && IsOn(e, p) ==> FirstOn(events + [e], p) == e
  {
    assert (events + [e])[..|events|] == events;
  }

  lemma {:induction false} NothingOn(events: seq<Event>, p: seq<nat>)
    requires EventsOn(events, p) == 0
    ensures BytesOn(events, p) == 0
  {
    if events != [] {
      NothingOn(events[..|events| - 1], p);
    }
  }

  /** The path of one step more is on the same prefixes, and on itself. */
  lemma OnOneStepFurther(a: Event, b: Event, p: seq<nat>)
    requires b.path != [] && a.path == b.path[..|b.path| - 1] && a.size == b.size
    ensures p != Methods(b.path) ==> (IsOn(a, p) <==> IsOn(b, p))
    ensures p == Methods(b.path) ==> !IsOn(a, p) && IsOn(b, p)
  {
    var q, r := Methods(a.path), Methods(b.path);
    assert r[..|q|] == q;
    if p != r && IsOn(b, p) {
      assert |p| == |r| ==> p == r;
      assert q[..|p|] == p;
    }
    if IsOn(a, p) {
      assert r[..|p|] == p;
    }
  }

  predicate OneStepFurther(a: Event, b: Event) {
    b.path != [] && a == Event(b.path[..|b.path| - 1], b.allocatedType, b.size)
  }

  lemma OtherPathIsUnchanged(events: seq<Event>, a: Event, b: Event, p: seq<nat>)
    requires OneStepFurther(a, b) && p != Methods(b.path)
    ensures EventsOn(events + [a], p) == EventsOn(events + [b], p)
    ensures EventsOn(events + [a], p) > 0 ==> StatsOn(events + [a], p) == StatsOn(events + [b], p)
  {
    hide Methods, BytesOn, EventsOn, FirstOn;
    LastEventOn(events, a, p);
    LastEventOn(events, b, p);
    OnOneStepFurther(a, b, p);
    if IsOn(a, p) && EventsOn(events, p) == 0 {
      SameMetaAt(a, b, p);
    }
  }

  lemma SameMetaAt(a: Event, b: Event, p: seq<nat>)
    requires OneStepFurther(a, b) && IsOn(a, p)
    ensures |p| <= |a.path| < |b.path| && a.path[|p| - 1] == b.path[|p| - 1]
  {
  }

  lemma OwnPathIsCounted(events: seq<Event>, a: Event, b: Event)
    requires OneStepFurther(a, b)
    ensures
      var p := Methods(b.path);
      var s := if EventsOn(events + [a], p) > 0 then StatsOn(events + [a], p)
               else Stats(p, b.path[|b.path| - 1].meta, b.allocatedType, 0, 0);
      EventsOn(events + [b], p) > 0 && StatsOn(events + [b], p) == Counted(s, b.size)
  {
    hide BytesOn, EventsOn, FirstOn;
    var p := Methods(b.path);
    LastEventOn(events, a, p);
    LastEventOn(events, b, p);
    OnOneStepFurther(a, b, p);
    if EventsOn(events, p) == 0 {
      NothingOn(events, p);
    }
  }

  lemma PrefixKeepsRepresentation(m: map<Key, Stats>, events: seq<Event>, a: Event, b: Event)
    requires OneStepFurther(a, b) && Represents(m, events + [a])
    ensures Represents(WithPrefix(m, b.path, b.allocatedType, b.size), events + [b])
  {
    var m' := WithPrefix(m, b.path, b.allocatedType, b.size);
    var own := Methods(b.path);
    assert EntryIsRight(m, events + [a], own);
    OwnPathIsCounted(events, a, b);
    assert m'[KeyOf(own)].path == own;
    forall p: seq<nat>
      ensures EntryIsRight(m', events + [b], p)
    {
      if p != own {
        assert EntryIsRight(m, events + [a], p);
        KeysDiffer(p, own);
        OtherPathIsUnchanged(events, a, b, p);
      }
    }
    hide EntryIsRight, KeyOf, StatsOn;
  }

  lemma EmptyPathIsOnNothing(m: map<Key, Stats>, events: seq<Event>, e: Event)
    requires Represents(m, events) && e.path == []
    ensures Represents(m, events + [e])
  {
    forall p: seq<nat>
      ensures EntryIsRight(m, events + [e], p)
    {
      assert EntryIsRight(m, events, p);
      LastEventOn(events, e, p);
    }
  }

  // ---- what is recorded

  predicate IsAgentClass(className: string) {
    || "com.openprofiler.agent." <= className
    || "com.openprofiler.protocol." <= className
    || "com.google.protobuf." <= className
    || "org.objectweb.asm." <= className
  }

  /** The frames whose methods can be looked up; None if the innermost of them is the agent's own. */
  function KnownSteps(frames: seq<Frame>): Option<seq<Step>> {
    if frames == [] then Some([])
    else
      var before := KnownSteps(frames[..|frames| - 1]);
      var last := frames[|frames| - 1];
      if before.None? || last.meta.None? then before
      else if before.value == [] && IsAgentClass(last.meta.value.className) then None
      else Some(before.value + [Step(last.methodKey, last.meta.value)])
  }

  lemma {:induction false} AgentFrameEndsIt(frames: seq<Frame>, n: nat)
    requires n <= |frames| && KnownSteps(frames[..n]).None?
    ensures KnownSteps(frames).None?
  {
    if n < |frames| {
      var most := frames[..|frames| - 1];
      assert most[..n] == frames[..n];
      AgentFrameEndsIt(most, n);
    } else {
      assert frames[..n] == frames;
    }
  }

  function Topmost(frames: seq<Frame>): seq<Frame> {
    if |frames| > MAX_FRAMES then frames[..MAX_FRAMES] else frames
  }

  function RecordedPath(frames: Option<seq<Frame>>): seq<Step> {
    if frames.None? then []
    else
      var steps := KnownSteps(Topmost(frames.value));
      if steps.None? then [] else steps.value
  }

  lemma {:induction false} KnownStepsAreFew(frames: seq<Frame>)
    ensures KnownSteps(frames).Some? ==> |KnownSteps(frames).value| <= |frames|
  {
    hide IsAgentClass;
    if frames != [] {
      KnownStepsAreFew(frames[..|frames| - 1]);
    }
  }

  lemma RecordedPathIsShort(frames: Option<seq<Frame>>)
    ensures |RecordedPath(frames)| <= MAX_FRAMES
  {
    if frames.Some? {
      KnownStepsAreFew(Topmost(frames.value));
    }
  }

  /** No recorded path is longer than the frames looked at. */
  predicate ShortPaths(events: seq<Event>) {
    forall k :: 0 <= k < |events| ==> |events[k].path| <= MAX_FRAMES
  }

  class AllocationMap {
    var allocations: map<Key, Stats>
    ghost var history: seq<Event>

    ghost predicate Valid()
      reads this
    {
      Represents(allocations, history) && ShortPaths(history)
    }

    constructor ()
      ensures Valid() && history == []
    {
      allocations, history := map[], [];
    }

    /** One allocation callback; a history entry on the empty path stands for a callback that records nothing. */
    method OnVmObjectAlloc(enabled: bool, frames: Option<seq<Frame>>, allocatedType: string, size: int)
      requires Valid()
      modifies this
      ensures Valid()
      ensures !enabled || size <= 0 ==> history == old(history) && allocations == old(allocations)
      ensures enabled && size > 0 ==> history == old(history) + [Event(RecordedPath(frames), allocatedType, size)]
    {
      hide Represents, IsAgentClass;
      if !enabled || size <= 0 {
        return;
      }
      EmptyPathIsOnNothing(allocations, history, Event([], allocatedType, size));
      var path := KnownPath(frames);
      RecordedPathIsShort(frames);
      ghost var events := history;
      history := events + [Event(path, allocatedType, size)];
      for depth := 0 to |path|
        invariant Represents(allocations, events + [Event(path[..depth], allocatedType, size)])
        invariant history == events + [Event(path, allocatedType, size)]
      {
        var subPath := path[..depth + 1];
        assert subPath[..depth] == path[..depth];
        PrefixKeepsRepresentation(allocations, events, Event(path[..depth], allocatedType, size),
                                  Event(subPath, allocatedType, size));
        allocations := WithPrefix(allocations, subPath, allocatedType, size);
      }
      assert path[..|path|] == path;
    }

    method KnownPath(frames: Option<seq<Frame>>) returns (path: seq<Step>)
      ensures path == RecordedPath(frames)
    {
      hide IsAgentClass;
      path := [];
      if frames.None? {
        return;
      }
      var top := Topmost(frames.value);
      for i := 0 to |top|
        invariant KnownSteps(top[..i]) == Some(path)
      {
        assert top[..i + 1][..i] == top[..i];
        var frame := top[i];
        if frame.meta.None? {
          continue;
        }
        if path == [] && IsAgentClass(frame.meta.value.className) {
          AgentFrameEndsIt(top, i + 1);
          return [];
        }
        path := path + [Step(frame.methodKey, frame.meta.value)];
      }
      assert top[..|top|] == top;
    }
  }
}
