/** The publication protocol against power loss, on file systems with synchronized directories.

A name that was created, renamed or removed is durable only once its directory has been synchronized; until
then a power loss may leave any of its earlier values. File contents are synchronized before they are renamed.
The directory `data` is itself a name in the output directory: losing it loses every segment. */
module Publication {
  import opened Basics

  type Id = nat

  /** What `game.haku` holds: its sequence and the segments that it names. */
  datatype Rel = Rel(sequence: nat, segments: set<Id>)

  /** The name of a directory: not there, created but not yet synchronized, or durable. */
  datatype DirectoryName = Absent | Unsynced | Durable

  /** `reverts` are the values that `game.haku` may have after a power loss, `unsynced` the segment names whose
  last change may be lost, `dataName` is the state of the name `data`. */
  datatype Disk = Disk(current: Option<Rel>, reverts: set<Option<Rel>>, segs: set<Id>, unsynced: set<Id>,
                       part: Option<Rel>, dataName: DirectoryName)

  datatype Phase =
    | Idle
    | RecoveringOutput
    | RecoveringData
    | Creating
    | Packing(news: set<Id>)
    | Packed(news: set<Id>)
    | Staging(rel: Rel)
    | Staged(rel: Rel)
    | Renamed(rel: Rel)
    | Cleaning(active: set<Id>, removed: bool)

  /** `base` is what `game.haku` could have reverted to when the build began. */
  datatype State = State(disk: Disk, phase: Phase, base: set<Option<Rel>>)

  datatype Event =
    | Start
    | RecoverOutput
    | RecoverData(removed: bool)
    | CreateData
    | Install(id: Id)
    | SyncData
    | Keep
    | WritePart(rel: Rel, floor: nat)
    | SyncPart
    | Rename
    | SyncOutput
    | Remove(id: Id)
    | Finish
    | Stop(dropPart: bool)
    | PowerLoss(current: Option<Rel>, segs: set<Id>, dataName: DirectoryName, part: Option<Rel>)

  function NextSequence(current: Option<Rel>, floor: nat): nat {
    Max(if current.None? then 1 else current.value.sequence + 1, floor)
  }

  function SegmentsOf(r: Option<Rel>): set<Id> {
    if r.None? then {} else r.value.segments
  }

  function NameAfterSync(name: DirectoryName): DirectoryName {
    if name.Absent? then Absent else Durable
  }

  /** Synchronizing the output directory settles both names in it. */
  function OutputSynced(d: Disk): Disk {
    d.(reverts := {d.current}, dataName := NameAfterSync(d.dataName))
  }

  /** One operation of the build, in program order, or its end by an error, a kill or a power loss. */
  function Step(s: State, e: Event): Option<State> {
    var d := s.disk;
    match e
    case Start => if s.phase.Idle? then Some(State(d, RecoveringOutput, d.reverts)) else None
    case RecoverOutput =>
      if !s.phase.RecoveringOutput? then None
      else Some(s.(disk := if d.part.Some? then OutputSynced(d).(part := None) else d, phase := RecoveringData))
    case RecoverData(removed) =>
      if !s.phase.RecoveringData? then None
      else Some(s.(disk := if removed then d.(unsynced := {}) else d, phase := Creating))
    case CreateData =>
      if !s.phase.Creating? then None
      else Some(s.(disk := if d.dataName.Absent? then d.(dataName := Unsynced) else d, phase := Packing({})))
    case Install(id) =>
      if !s.phase.Packing? then None
      else Some(s.(disk := if id in d.segs then d else d.(segs := d.segs + {id}, unsynced := d.unsynced + {id}),
                   phase := Packing(s.phase.news + {id})))
    case SyncData =>
      if !s.phase.Packing? then None
      else Some(s.(disk := if s.phase.news == {} then d else d.(unsynced := {}), phase := Packed(s.phase.news)))
    case Keep =>
      if !s.phase.Packed? || d.current.None? then None
      else Some(s.(phase := Cleaning(d.current.value.segments, false)))
    case WritePart(rel, floor) =>
      if !s.phase.Packed? || !(rel.segments <= SegmentsOf(d.current) + s.phase.news)
         || rel.sequence != NextSequence(d.current, floor)
      then None
      else Some(s.(disk := d.(part := Some(rel)), phase := Staging(rel)))
    case SyncPart => if !s.phase.Staging? then None else Some(s.(phase := Staged(s.phase.rel)))
    case Rename =>
      if !s.phase.Staged? then None
      else Some(s.(disk := d.(current := Some(s.phase.rel), reverts := d.reverts + {Some(s.phase.rel)}, part := None),
                   phase := Renamed(s.phase.rel)))
    case SyncOutput =>
      if !s.phase.Renamed? then None
      else Some(s.(disk := OutputSynced(d), phase := Cleaning(s.phase.rel.segments, false)))
    case Remove(id) =>
      if !s.phase.Cleaning? || id !in d.segs || id in s.phase.active then None
      else Some(s.(disk := d.(segs := d.segs - {id}, unsynced := d.unsynced + {id}),
                   phase := Cleaning(s.phase.active, true)))
    case Finish =>
      if !s.phase.Cleaning? || !(d.segs <= s.phase.active) then None
      else Some(s.(disk := if s.phase.removed then d.(unsynced := {}) else d, phase := Idle))
    case Stop(dropPart) => Some(s.(disk := if dropPart then d.(part := None) else d, phase := Idle))
    case PowerLoss(current, segs, dataName, part) =>
      if CrashOutcome(d, current, segs, dataName) && PartOutcome(d, part) then
        Some(State(Disk(current, {current}, segs, {}, part, dataName), Idle, {current}))
      else None
  }

  /** What a power loss may leave: any value that `game.haku` may revert to, each unsynced segment name present or
  not, and nothing of a data directory whose own name is lost. */
  predicate CrashOutcome(d: Disk, current: Option<Rel>, segs: set<Id>, dataName: DirectoryName) {
    && current in d.reverts
    && (if dataName.Durable? then !d.dataName.Absent? && segs - d.unsynced == d.segs - d.unsynced
        else dataName.Absent? && !d.dataName.Durable? && segs == {})
  }

  /** The staged copy may be there or not; one that has been renamed may come back under its old name. */
  predicate PartOutcome(d: Disk, part: Option<Rel>) {
    part == None || part == d.part || (part == d.current && d.reverts != {d.current})
  }

  // ------------------------------------------------------------------------ safety

  /** Every power loss now leaves a release with all its segments. */
  ghost predicate AllComplete(d: Disk) {
    forall current, segs, dataName :: CrashOutcome(d, current, segs, dataName) ==> SegmentsOf(current) <= segs
  }

  /** The segment names are there, whatever a power loss does to unsynced names in the data directory. */
  predicate KeptIn(d: Disk, segments: set<Id>) {
    segments <= d.segs && segments !! d.unsynced
  }

  /** Whatever `game.haku` may revert to has its segments in the data directory, and is no newer than what it
  holds now. */
  ghost predicate Consistent(d: Disk) {
    && d.current in d.reverts
    && (forall r :: r in d.reverts ==> KeptIn(d, SegmentsOf(r)))
    && (forall r :: r in d.reverts && r.Some? ==> d.current.Some? && r.value.sequence <= d.current.value.sequence)
    && (d.dataName.Absent? ==> d.segs == {})
  }

  /** The name `data` is durable, or nothing that `game.haku` may revert to needs it. */
  ghost predicate NameSettled(d: Disk) {
    d.dataName.Durable? || forall r :: r in d.reverts ==> SegmentsOf(r) == {}
  }

  /** On a consistent disk a power loss is harmless exactly when the name of the data directory is settled. */
  lemma CompleteExactlyWhen(d: Disk)
    requires Consistent(d)
    ensures AllComplete(d) <==> NameSettled(d)
  {
    if NameSettled(d) {
      forall current, segs, dataName | CrashOutcome(d, current, segs, dataName)
        ensures SegmentsOf(current) <= segs
      {
        NothingLost(d, current, segs, dataName);
      }
    } else {
      var r :| r in d.reverts && SegmentsOf(r) != {};
      assert KeptIn(d, SegmentsOf(r));
      assert CrashOutcome(d, r, {}, Absent);
    }
  }

  lemma NothingLost(d: Disk, current: Option<Rel>, segs: set<Id>, dataName: DirectoryName)
    requires Consistent(d) && NameSettled(d) && CrashOutcome(d, current, segs, dataName)
    ensures SegmentsOf(current) <= segs
  {
    assert KeptIn(d, SegmentsOf(current));
    forall id | id in SegmentsOf(current)
      ensures id in segs
    {
      assert id in d.segs - d.unsynced;
    }
  }

  /** A release that `game.haku` may revert to names no segment outside the ones to be kept. */
  ghost predicate Harmless(d: Disk, active: set<Id>) {
    forall r :: r in d.reverts ==> SegmentsOf(r) <= active
  }

  /** What each phase of a build has achieved. */
  ghost predicate PhaseOk(s: State) {
    match s.phase
    case Packing(news) => news <= s.disk.segs && !s.disk.dataName.Absent?
    case Packed(news) => KeptIn(s.disk, news)
    case Staging(rel) => KeptIn(s.disk, rel.segments) && Newer(s.disk, rel)
    case Staged(rel) => KeptIn(s.disk, rel.segments) && Newer(s.disk, rel)
    case Renamed(rel) => s.disk.current == Some(rel)
    case Cleaning(active, _) =>
      Harmless(s.disk, active) && s.disk.current.Some? && active == s.disk.current.value.segments
    case _ => true
  }

  ghost predicate Newer(d: Disk, rel: Rel) {
    forall r :: r in d.reverts && r.Some? ==> r.value.sequence < rel.sequence
  }

  /** The release in place, or that of the running build. */
  ghost predicate OldOrNew(s: State) {
    && (forall r :: r in s.disk.reverts ==> r in s.base || r == s.disk.current)
    && (!s.phase.Renamed? && !s.phase.Cleaning? ==> s.disk.current in s.base)
  }

  ghost predicate Safe(s: State) {
    Consistent(s.disk) && PhaseOk(s) && (s.phase.Idle? || OldOrNew(s))
  }

  /** The two events that need care: keeping the release and cleaning up for it, and a power loss that takes
  segments along. */
  ghost predicate Careful(s: State, e: Event) {
    && (e.Keep? && s.disk.current.Some? ==> Harmless(s.disk, s.disk.current.value.segments))
    && (e.PowerLoss? ==> SegmentsOf(e.current) <= e.segs)
  }

  lemma StepKeepsSafe(s: State, e: Event)
    requires Safe(s) && Step(s, e).Some? && Careful(s, e)
    ensures Safe(Step(s, e).value)
  {
    var t := Step(s, e).value;
    match e
    case Remove(id) =>
      forall r | r in t.disk.reverts
        ensures KeptIn(t.disk, SegmentsOf(r))
      {
        assert KeptIn(s.disk, SegmentsOf(r));
        assert id !in SegmentsOf(r);
      }
    case PowerLoss(current, segs, dataName, part) =>
      assert KeptIn(s.disk, SegmentsOf(current));
    case _ =>
  }

  /** Runs: every event possible in its turn, every `Keep` harmless, and no power loss before the end that took
  segments of the release it left. */
  ghost predicate CarefulRun(s: State, events: seq<Event>)
    decreases |events|
  {
    events != [] ==>
      Careful(s, events[0]) && Step(s, events[0]).Some? && CarefulRun(Step(s, events[0]).value, events[1..])
  }

  function After(s: State, events: seq<Event>): Option<State>
    decreases |events|
  {
    if events == [] then Some(s)
    else match Step(s, events[0]) case None => None case Some(t) => After(t, events[1..])
  }

  /** In any number of builds, interrupted at any points in any way: a power loss leaves `game.haku` as it was when
  the running build began or as that build made it, and it leaves that release complete exactly when the name of
  the data directory is settled. */
  lemma {:induction false} EveryRunIsRecoverable(s: State, events: seq<Event>)
    requires Safe(s) && CarefulRun(s, events)
    ensures After(s, events).Some? && Safe(After(s, events).value)
    ensures AllComplete(After(s, events).value.disk) <==> NameSettled(After(s, events).value.disk)
    ensures var t := After(s, events).value;
            !t.phase.Idle? ==>
              forall current, segs, dataName ::
                CrashOutcome(t.disk, current, segs, dataName) ==> current in t.base || current == t.disk.current
    decreases |events|
  {
    if events != [] {
      StepKeepsSafe(s, events[0]);
      EveryRunIsRecoverable(Step(s, events[0]).value, events[1..]);
    } else {
      CompleteExactlyWhen(s.disk);
    }
  }

  /** A committed release has a greater sequence than every release that `game.haku` could still revert to,
  and not less than the floor it was built for. */
  lemma CommitIncreases(s: State)
    requires Safe(s) && s.phase.Staged?
    ensures Step(s, Rename).Some?
    ensures forall r :: r in s.disk.reverts && r.Some? ==>
              r.value.sequence < Step(s, Rename).value.disk.current.value.sequence
  {
  }

  lemma StagedRespectsFloor(s: State, rel: Rel, floor: nat)
    requires Step(s, WritePart(rel, floor)).Some?
    ensures rel.sequence >= floor && rel.sequence >= 1
    ensures s.disk.current.Some? ==> rel.sequence > s.disk.current.value.sequence
  {
  }

  /** Renaming opens a window exactly when the name of the data directory is not durable yet and the new release
  needs it; synchronizing the output directory closes it. */
  lemma RenameIsSafeExactlyWhen(s: State)
    requires Safe(s) && s.phase.Staged? && NameSettled(s.disk)
    ensures Step(s, Rename).Some? && Step(Step(s, Rename).value, SyncOutput).Some?
    ensures AllComplete(Step(s, Rename).value.disk) <==> s.disk.dataName.Durable? || s.phase.rel.segments == {}
    ensures AllComplete(Step(Step(s, Rename).value, SyncOutput).value.disk)
  {
    var renamed := Step(s, Rename).value;
    StepKeepsSafe(s, Rename);
    StepKeepsSafe(renamed, SyncOutput);
    CompleteExactlyWhen(renamed.disk);
    CompleteExactlyWhen(Step(renamed, SyncOutput).value.disk);
    assert Some(s.phase.rel) in renamed.disk.reverts;
  }

  // -------------------------------------------------------- keeping an unchanged release

  /** The disk once an unchanged build has removed everything it may. */
  function Kept(d: Disk): Disk
    requires d.current.Some?
  {
    var gone := d.segs - d.current.value.segments;
    d.(segs := d.segs - gone, unsynced := if gone == {} then d.unsynced else {})
  }

  lemma {:induction false} RemovingAll(s: State, gone: set<Id>) returns (events: seq<Event>)
    requires s.phase.Cleaning? && gone == s.disk.segs - s.phase.active && s.phase.active <= s.disk.segs
    ensures var t := s.disk.(segs := s.disk.segs - gone,
                             unsynced := if gone == {} && !s.phase.removed then s.disk.unsynced else {});
            After(s, events) == Some(State(t, Idle, s.base))
    decreases gone
  {
    if gone == {} {
      events := [Finish];
      assert s.disk.segs - gone == s.disk.segs;
      assert events[1..] == [];
      assert After(Step(s, Finish).value, []) == Some(Step(s, Finish).value);
    } else {
      var id :| id in gone;
      var t := Step(s, Remove(id)).value;
      assert t.disk.segs - t.phase.active == gone - {id};
      var rest := RemovingAll(t, gone - {id});
      assert t.disk.segs - (gone - {id}) == s.disk.segs - gone;
      events := [Remove(id)] + rest;
      assert events[1..] == rest;
    }
  }

  /** An unchanged build cleans up without first synchronizing the output directory. That is safe exactly when
  nothing `game.haku` may revert to needs a segment that the release in place does not, and the name of the data
  directory is durable if any segment is needed. */
  lemma KeepIsSafeExactlyWhen(s: State) returns (events: seq<Event>)
    requires Safe(s) && s.phase.Packed? && s.disk.current.Some?
    ensures After(s, [Keep] + events) == Some(State(Kept(s.disk), Idle, s.base))
    ensures AllComplete(Kept(s.disk)) <==>
              Harmless(s.disk, s.disk.current.value.segments) && NameSettled(s.disk)
  {
    var d, active := s.disk, s.disk.current.value.segments;
    assert KeptIn(d, active);
    events := RemovingAll(Step(s, Keep).value, d.segs - active);
    assert ([Keep] + events)[1..] == events;
    if Harmless(d, active) {
      KeptIsConsistent(d);
      CompleteExactlyWhen(Kept(d));
    } else {
      var r :| r in d.reverts && !(SegmentsOf(r) <= active);
      assert KeptIn(d, SegmentsOf(r));
      var id :| id in SegmentsOf(r) && id !in active;
      assert id !in Kept(d).segs;
      assert CrashOutcome(Kept(d), r, Kept(d).segs, Durable);
    }
  }

  lemma KeptIsConsistent(d: Disk)
    requires Consistent(d) && d.current.Some? && Harmless(d, d.current.value.segments)
    ensures Consistent(Kept(d))
  {
    forall r | r in d.reverts
      ensures KeptIn(Kept(d), SegmentsOf(r))
    {
      assert KeptIn(d, SegmentsOf(r));
    }
  }

  /** The guard that makes an unchanged build safe is a synchronized output directory: a `game.haku` that cannot
  revert, next to a `data` that cannot vanish. */
  lemma SyncedOutputIsHarmless(d: Disk)
    requires d.current.Some? && d.reverts == {d.current} && d.dataName.Durable?
    ensures Harmless(d, d.current.value.segments) && NameSettled(d)
  {
  }

  /** Between builds, and up to its renaming, a build that was never cut off has nothing but the release in place to
  revert to, and needs no name that could vanish. */
  ghost predicate Settled(s: State) {
    if s.phase.Renamed? then
      forall r :: r in s.disk.reverts ==> r == s.disk.current || s.disk.dataName.Durable? || SegmentsOf(r) == {}
    else s.disk.reverts == {s.disk.current} && NameSettled(s.disk)
  }

  /** A build that ends between renaming and synchronizing, or a power loss that takes the data directory there. */
  ghost predicate CutOff(s: State, e: Event) {
    s.phase.Renamed? && (e.Stop? || (e.PowerLoss? && !NameSettled(s.disk)))
  }

  ghost predicate UncutRun(s: State, events: seq<Event>)
    decreases |events|
  {
    events != [] ==>
      !CutOff(s, events[0]) && Step(s, events[0]).Some? && UncutRun(Step(s, events[0]).value, events[1..])
  }

  /** Runs in which no build is cut off there need no further care, however else they are interrupted. At every
  moment a power loss leaves a complete release, but for the one window between the first renaming in a fresh
  output directory and the synchronization that follows it. */
  lemma {:induction false} UncutRunsAreCareful(s: State, events: seq<Event>)
    requires Safe(s) && Settled(s) && UncutRun(s, events)
    ensures CarefulRun(s, events) && After(s, events).Some?
    ensures var t := After(s, events).value;
            AllComplete(t.disk) || (t.phase.Renamed? && t.disk.dataName.Unsynced? && t.phase.rel.segments != {})
    decreases |events|
  {
    if events != [] {
      var e := events[0];
      if e.PowerLoss? {
        NothingLost(s.disk, e.current, e.segs, e.dataName);
      }
      StepKeepsSafe(s, e);
      SettledStays(s, e);
      UncutRunsAreCareful(Step(s, e).value, events[1..]);
    } else {
      CompleteExactlyWhen(s.disk);
      if !NameSettled(s.disk) {
        OnlyTheWindow(s);
      }
    }
  }

  lemma SettledStays(s: State, e: Event)
    requires Safe(s) && Settled(s) && !CutOff(s, e) && Step(s, e).Some? && Careful(s, e)
    ensures Settled(Step(s, e).value)
  {
    if e.CreateData? && s.disk.dataName.Absent? {
      assert forall r :: r in s.disk.reverts ==> KeptIn(s.disk, SegmentsOf(r));
    }
  }

  lemma OnlyTheWindow(s: State)
    requires Safe(s) && Settled(s) && !NameSettled(s.disk)
    ensures s.phase.Renamed? && s.disk.dataName.Unsynced? && s.phase.rel.segments != {}
  {
    var r :| r in s.disk.reverts && SegmentsOf(r) != {};
    assert KeptIn(s.disk, SegmentsOf(r));
  }

  // ------------------------------------------------------------------- lost releases

  /** The first build in a fresh output directory: a power loss right after the renaming may keep `game.haku` and
  lose `data` with every segment. */
  lemma FirstReleaseLost() returns (s: State, events: seq<Event>)
    ensures Safe(s) && Settled(s) && s.disk == Disk(None, {None}, {}, {}, None, Absent)
    ensures UncutRun(s, events) && After(s, events).Some?
    ensures CrashOutcome(After(s, events).value.disk, Some(Rel(1, {1})), {}, Absent)
    ensures !(SegmentsOf(Some(Rel(1, {1}))) <= {})
  {
    var rel := Rel(1, {1});
    s := State(Disk(None, {None}, {}, {}, None, Absent), Idle, {None});
    events := [Start, RecoverOutput, RecoverData(false), CreateData, Install(1), SyncData, WritePart(rel, 1), SyncPart,
               Rename];
    FirstBuild(s, rel, events);
  }

  lemma FirstBuild(s: State, rel: Rel, events: seq<Event>)
    requires rel == Rel(1, {1}) && s == State(Disk(None, {None}, {}, {}, None, Absent), Idle, {None})
    requires events
          == [Start, RecoverOutput, RecoverData(false), CreateData, Install(1), SyncData, WritePart(rel, 1), SyncPart,
              Rename]
    ensures UncutRun(s, events)
    ensures After(s, events)
         == Some(State(Disk(Some(rel), {None, Some(rel)}, {1}, {}, None, Unsynced), Renamed(rel), {None}))
  {
    var s1 := Step(s, events[0]).value;
    var s2 := Step(s1, events[1]).value;
    var s3 := Step(s2, events[2]).value;
    var s4 := Step(s3, events[3]).value;
    var s5 := Step(s4, events[4]).value;
    var s6 := Step(s5, events[5]).value;
    assert s6.phase == Packed({1}) && s6.disk == Disk(None, {None}, {1}, {}, None, Unsynced);
    var s7 := Step(s6, events[6]).value;
    var s8 := Step(s7, events[7]).value;
    var s9 := Step(s8, events[8]).value;
    assert s9.disk.reverts == {None, Some(rel)};
    var states := [s, s1, s2, s3, s4, s5, s6, s7, s8, s9];
    assert FollowOn(events, states);
    StatesReach(s, events, states);
  }

  /** States that follow one another without a cut are what an uncut run reaches. */
  lemma StatesReach(s: State, events: seq<Event>, states: seq<State>)
    requires FollowOn(events, states) && states[0] == s
    requires forall i :: 0 <= i < |events| ==> !CutOff(states[i], events[i])
    ensures After(s, events) == Some(states[|events|]) && UncutRun(s, events)
  {
    hide Step, CutOff, FollowOn;
    Chain(s, events, states, 0);
    UncutChain(s, events, states, 0);
    assert events[0..] == events;
  }

  /** A run that ends in a lost release: a build is cut off right after the renaming, the next one finds nothing
  changed and removes the old segments, and then the power fails. */
  lemma RevertedReleaseLost() returns (s: State, events: seq<Event>, segs: set<Id>)
    ensures Safe(s) && Settled(s) && s.disk.dataName.Durable?
    ensures After(s, events).Some? && After(s, events).value.phase.Idle?
    ensures CrashOutcome(After(s, events).value.disk, s.disk.current, segs, Durable)
    ensures !(SegmentsOf(s.disk.current) <= segs)
  {
    var past, next := Rel(1, {1}), Rel(2, {2});
    s := State(Disk(Some(past), {Some(past)}, {1}, {}, None, Durable), Idle, {Some(past)});
    var first := [Start, RecoverOutput, RecoverData(false), CreateData, Install(2), SyncData, WritePart(next, 1),
                  SyncPart, Rename, Stop(false)];
    var second := [Start, RecoverOutput, RecoverData(false), CreateData, SyncData, Keep, Remove(1), Finish];
    events := first + second;
    segs := {2};
    FirstHalf(s, past, next, first);
    AfterConcat(s, first, second);
    SecondHalf(After(s, first).value, past, next, second);
  }

  lemma {:induction false} AfterConcat(s: State, a: seq<Event>, b: seq<Event>)
    requires After(s, a).Some?
    ensures After(s, a + b) == After(After(s, a).value, b)
    decreases |a|
  {
    if a == [] {
      assert a + b == b;
    } else {
      assert (a + b)[1..] == a[1..] + b;
      AfterConcat(Step(s, a[0]).value, a[1..], b);
    }
  }

  lemma FirstHalf(s: State, past: Rel, next: Rel, events: seq<Event>)
    requires past == Rel(1, {1}) && next == Rel(2, {2})
    requires s == State(Disk(Some(past), {Some(past)}, {1}, {}, None, Durable), Idle, {Some(past)})
    requires events == [Start, RecoverOutput, RecoverData(false), CreateData, Install(2), SyncData, WritePart(next, 1),
                        SyncPart, Rename, Stop(false)]
    ensures After(s, events)
         == Some(State(Disk(Some(next), {Some(past), Some(next)}, {1, 2}, {}, None, Durable), Idle, {Some(past)}))
  {
    var s1 := Step(s, events[0]).value;
    var s2 := Step(s1, events[1]).value;
    var s3 := Step(s2, events[2]).value;
    var s4 := Step(s3, events[3]).value;
    var s5 := Step(s4, events[4]).value;
    var s6 := Step(s5, events[5]).value;
    assert s6.phase == Packed({2}) && s6.disk == s.disk.(segs := {1, 2});
    var s7 := Step(s6, events[6]).value;
    var s8 := Step(s7, events[7]).value;
    var s9 := Step(s8, events[8]).value;
    var s10 := Step(s9, events[9]).value;
    assert s10.disk.reverts == {Some(past), Some(next)};
    Chain(s, events, [s, s1, s2, s3, s4, s5, s6, s7, s8, s9, s10], 0);
  }

  lemma SecondHalf(s: State, past: Rel, next: Rel, events: seq<Event>)
    requires past == Rel(1, {1}) && next == Rel(2, {2})
    requires s == State(Disk(Some(next), {Some(past), Some(next)}, {1, 2}, {}, None, Durable), Idle, {Some(past)})
    requires events == [Start, RecoverOutput, RecoverData(false), CreateData, SyncData, Keep, Remove(1), Finish]
    ensures After(s, events).Some? && After(s, events).value.phase.Idle?
    ensures CrashOutcome(After(s, events).value.disk, Some(past), {2}, Durable)
  {
    var s1 := Step(s, events[0]).value;
    var s2 := Step(s1, events[1]).value;
    var s3 := Step(s2, events[2]).value;
    var s4 := Step(s3, events[3]).value;
    var s5 := Step(s4, events[4]).value;
    var s6 := Step(s5, events[5]).value;
    var s7 := Step(s6, events[6]).value;
    assert s7.disk.segs == {2};
    var s8 := Step(s7, events[7]).value;
    Chain(s, events, [s, s1, s2, s3, s4, s5, s6, s7, s8], 0);
  }

  ghost predicate FollowOn(events: seq<Event>, states: seq<State>) {
    |states| == |events| + 1 && forall i :: 0 <= i < |events| ==> Step(states[i], events[i]) == Some(states[i + 1])
  }

  /** A list of states that follow one another is what the events lead to. */
  lemma {:induction false} Chain(s: State, events: seq<Event>, states: seq<State>, k: nat)
    requires FollowOn(events, states) && k <= |events| && states[0] == s
    ensures After(states[k], events[k..]) == Some(states[|events|])
    decreases |events| - k
  {
    if k < |events| {
      assert events[k..][0] == events[k] && events[k..][1..] == events[k + 1..];
      Chain(s, events, states, k + 1);
    }
  }

  lemma {:induction false} UncutChain(s: State, events: seq<Event>, states: seq<State>, k: nat)
    requires FollowOn(events, states) && k <= |events| && states[0] == s
    requires forall i :: 0 <= i < |events| ==> !CutOff(states[i], events[i])
    ensures UncutRun(states[k], events[k..])
    decreases |events| - k
  {
    if k < |events| {
      assert events[k..][0] == events[k] && events[k..][1..] == events[k + 1..];
      UncutChain(s, events, states, k + 1);
    }
  }
}
