/** Readers, prefetchers and trimmers of one package running at the same time.

Each step is what a thread does under one lock, or one access to the prefetch hint. The prefetch lock, the
only one that is held across steps, has an owner. A schedule interleaves the steps of any number of threads. */
module SharedCaches {
  import opened Basics
  import opened Records
  import opened BlockStore
  import ClockCaches

  datatype Task = Load(reference: BlockRef, access: Access) | Prefetch(reference: BlockRef, access: Access) | Trim

  datatype Pc =
    | Idle
    | LookBlock | LookHint | LookPrefetch | ReadStored | Probe | Admit | Returned
    | PreBlock | PreHint | PrePrefetch | Recheck | PreLock | PreInsert | PreStore
    | TrimBlock | TrimPrefetch | TrimHint | TrimProbation

  /** `value` is the plaintext that the current load has found, `answers` what finished loads returned. */
  datatype Thread = Thread(todo: seq<Task>, task: Task, pc: Pc, value: Option<Bytes>,
                           answers: seq<(BlockRef, Option<Bytes>)>)

  datatype Caches = Caches(block: ClockCaches.State<BlockKey>, prefetch: ClockCaches.State<BlockKey>, populated: bool,
                           probation: seq<BlockKey>, prefetchOwner: Option<nat>)

  datatype System = System(caches: Caches, threads: seq<Thread>)

  datatype Context = Context(release: Release, prefetchBytes: nat, probationEntries: nat)

  // ------------------------------------------------------------------------ steps

  /** What a load makes of the bytes that storage delivers: digest, opening, decoding. */
  function Verified(r: Release, reference: BlockRef, bytes: Bytes): Option<Bytes>
    requires reference.segmentOrdinal < |r.segments|
  {
    if |bytes| != reference.storedLen || r.crypto.digest(bytes) != reference.cipherDigest then None
    else
      match r.crypto.open(AadOf(r.segments, reference), bytes)
      case None => None
      case Some(encoded) => Decoded(r.crypto, reference.codec, encoded, reference.plainLen)
  }

  function FirstOfLoad(access: Access): Pc {
    if access.Hot? || access.Normal? then LookBlock else LookHint
  }

  function FirstStep(x: Context, task: Task): Pc {
    match task
    case Load(_, access) => FirstOfLoad(access)
    case Prefetch(reference, _) =>
      if x.prefetchBytes == 0 || reference.plainLen > x.prefetchBytes then Idle else PreBlock
    case Trim => TrimBlock
  }

  /** A cached value of the wrong length is an error, which ends the load. */
  ghost function Found(s: ClockCaches.State<BlockKey>, reference: BlockRef): Option<Option<Bytes>>
    requires ClockCaches.Valid(s)
  {
    var contents := ClockCaches.Contents(s);
    if KeyOf(reference) !in contents then None
    else Some(if |contents[KeyOf(reference)]| == reference.plainLen then Some(contents[KeyOf(reference)]) else None)
  }

  ghost predicate CachesSound(x: Context, c: Caches) {
    && BlocksSound(c.block, x.release.truth) && BlocksSound(c.prefetch, x.release.truth)
    && (c.prefetchOwner.None? && !CacheEmpty(c.prefetch) ==> c.populated)
    && |c.probation| <= x.probationEntries
  }

  ghost predicate Handled(x: Context, task: Task) {
    !task.Trim? ==> x.release.Authentic(task.reference)
  }

  predicate LoadStep(pc: Pc) {
    pc.LookBlock? || pc.LookHint? || pc.LookPrefetch? || pc.ReadStored? || pc.Probe? || pc.Admit? || pc.Returned?
  }

  predicate PrefetchStep(pc: Pc) {
    pc.PreBlock? || pc.PreHint? || pc.PrePrefetch? || pc.Recheck? || pc.PreLock? || pc.PreInsert? || pc.PreStore?
  }

  predicate HoldsPrefetchLock(pc: Pc) {
    pc.PreInsert? || pc.PreStore? || pc.TrimHint?
  }

  ghost predicate TrueValue(x: Context, reference: BlockRef, value: Option<Bytes>) {
    value.Some? ==> KeyOf(reference) in x.release.truth && value.value == x.release.truth[KeyOf(reference)]
  }

  ghost predicate ThreadSound(x: Context, c: Caches, t: Thread, me: nat) {
    && (forall i :: 0 <= i < |t.todo| ==> Handled(x, t.todo[i]))
    && Handled(x, t.task)
    && (forall i :: 0 <= i < |t.answers| ==> TrueValue(x, t.answers[i].0, t.answers[i].1))
    && (LoadStep(t.pc) ==> !t.task.Trim?) && (PrefetchStep(t.pc) ==> t.task.Prefetch?)
    && (!t.task.Trim? ==> TrueValue(x, t.task.reference, t.value))
    && (t.pc.Admit? || t.pc.Recheck? || t.pc.PreLock? || t.pc.PreInsert? ==> t.value.Some?)
    && (HoldsPrefetchLock(t.pc) <==> c.prefetchOwner == Some(me))
    && (t.pc.TrimHint? ==> CacheEmpty(c.prefetch))
  }

  ghost predicate Sound(x: Context, s: System) {
    && CachesSound(x, s.caches)
    && (forall i :: 0 <= i < |s.threads| ==> ThreadSound(x, s.caches, s.threads[i], i))
    && (s.caches.prefetchOwner.Some? ==> s.caches.prefetchOwner.value < |s.threads|)
  }

  function Without(keys: seq<BlockKey>, key: BlockKey): seq<BlockKey> {
    if keys == [] then [] else if keys[0] == key then keys[1..] else [keys[0]] + Without(keys[1..], key)
  }

  function Tracked(keys: seq<BlockKey>, key: BlockKey, capacity: nat): seq<BlockKey>
    requires capacity > 0
  {
    keys[Max(0, |keys| + 1 - capacity)..] + [key]
  }

  /** One step of thread `me`; `None` when it waits for a lock or has nothing left to do. `stored` is what
  storage delivers if this is the step that reads it. */
  ghost function Step(x: Context, c: Caches, t: Thread, me: nat, stored: Option<Bytes>): Option<(Caches, Thread)>
    requires CachesSound(x, c) && ThreadSound(x, c, t, me)
  {
    match t.pc
    case Idle =>
      if t.todo == [] then None
      else Some((c, t.(todo := t.todo[1..], task := t.todo[0], pc := FirstStep(x, t.todo[0]), value := None)))
    case LookBlock => Some(StepLookBlock(x, c, t))
    case LookHint => Some((c, t.(pc := if c.populated then LookPrefetch else ReadStored)))
    case LookPrefetch => if c.prefetchOwner.Some? then None else Some(StepLookPrefetch(x, c, t))
    case ReadStored => Some((c, StepReadStored(x, t, stored)))
    case Probe => Some(StepProbe(x, c, t))
    case Admit => Some(StepAdmit(x, c, t))
    case Returned => Some((c, StepReturned(t)))
    case PreBlock => Some(StepPreBlock(x, c, t))
    case PreHint => Some((c, t.(pc := if c.populated then PrePrefetch else FirstOfLoad(t.task.access))))
    case PrePrefetch => if c.prefetchOwner.Some? then None else Some(StepPrePrefetch(x, c, t))
    case Recheck => Some(StepRecheck(x, c, t))
    case PreLock => if c.prefetchOwner.Some? then None else Some((c.(prefetchOwner := Some(me)), t.(pc := PreInsert)))
    case PreInsert => Some(StepPreInsert(x, c, t))
    case PreStore => Some((c.(populated := true, prefetchOwner := None), t.(pc := Idle)))
    case TrimBlock => Some((c.(block := ClockCaches.Empty(c.block.budget)), t.(pc := TrimPrefetch)))
    case TrimPrefetch =>
      if c.prefetchOwner.Some? then None
      else Some((c.(prefetch := ClockCaches.Empty(c.prefetch.budget), prefetchOwner := Some(me)), t.(pc := TrimHint)))
    case TrimHint => Some((c.(populated := false, prefetchOwner := None), t.(pc := TrimProbation)))
    case TrimProbation => Some((c.(probation := []), t.(pc := Idle)))
  }

  ghost function StepLookBlock(x: Context, c: Caches, t: Thread): (Caches, Thread)
    requires CachesSound(x, c) && !t.task.Trim?
  {
    TouchKeepsBlocks(c.block, KeyOf(t.task.reference), x.release.truth);
    var found := Found(c.block, t.task.reference);
    (c.(block := ClockCaches.Touch(c.block, KeyOf(t.task.reference))),
     if found.Some? then t.(value := found.value, pc := Returned) else t.(pc := LookHint))
  }

  ghost function StepLookPrefetch(x: Context, c: Caches, t: Thread): (Caches, Thread)
    requires CachesSound(x, c) && !t.task.Trim?
  {
    TouchKeepsBlocks(c.prefetch, KeyOf(t.task.reference), x.release.truth);
    var found := Found(c.prefetch, t.task.reference);
    (c.(prefetch := ClockCaches.Touch(c.prefetch, KeyOf(t.task.reference))),
     if found.Some? then t.(value := found.value, pc := Returned) else t.(pc := ReadStored))
  }

  ghost function StepReadStored(x: Context, t: Thread, stored: Option<Bytes>): Thread
    requires !t.task.Trim? && Handled(x, t.task)
  {
    var value := if stored.None? then None else Verified(x.release, t.task.reference, stored.value);
    t.(value := value,
       pc := if value.None? then Returned
             else match t.task.access { case Hot => Admit case Normal => Probe case _ => Returned })
  }

  /** A second access among the tracked ones admits the block; a first one is tracked. */
  ghost function StepProbe(x: Context, c: Caches, t: Thread): (Caches, Thread)
    requires !t.task.Trim?
  {
    var key := KeyOf(t.task.reference);
    if x.probationEntries == 0 || t.value.None? then (c, t.(pc := Returned))
    else if key in c.probation then (c.(probation := Without(c.probation, key)), t.(pc := Admit))
    else (c.(probation := Tracked(c.probation, key, x.probationEntries)), t.(pc := Returned))
  }

  ghost function StepAdmit(x: Context, c: Caches, t: Thread): (Caches, Thread)
    requires CachesSound(x, c) && !t.task.Trim? && t.value.Some? && TrueValue(x, t.task.reference, t.value)
  {
    InsertKeepsBlocks(c.block, KeyOf(t.task.reference), t.value.value, x.release.truth);
    (c.(block := ClockCaches.Inserted(c.block, KeyOf(t.task.reference), t.value.value)), t.(pc := Returned))
  }

  ghost function StepReturned(t: Thread): Thread
    requires !t.task.Trim?
  {
    if t.task.Load? then t.(answers := t.answers + [(t.task.reference, t.value)], pc := Idle)
    else t.(pc := if t.value.Some? then Recheck else Idle)
  }

  ghost function StepPreBlock(x: Context, c: Caches, t: Thread): (Caches, Thread)
    requires CachesSound(x, c) && !t.task.Trim?
  {
    TouchKeepsBlocks(c.block, KeyOf(t.task.reference), x.release.truth);
    (c.(block := ClockCaches.Touch(c.block, KeyOf(t.task.reference))),
     t.(pc := if Found(c.block, t.task.reference).Some? then Idle else PreHint))
  }

  ghost function StepPrePrefetch(x: Context, c: Caches, t: Thread): (Caches, Thread)
    requires CachesSound(x, c) && !t.task.Trim?
  {
    TouchKeepsBlocks(c.prefetch, KeyOf(t.task.reference), x.release.truth);
    (c.(prefetch := ClockCaches.Touch(c.prefetch, KeyOf(t.task.reference))),
     t.(pc := if Found(c.prefetch, t.task.reference).Some? then Idle else FirstOfLoad(t.task.access)))
  }

  ghost function StepRecheck(x: Context, c: Caches, t: Thread): (Caches, Thread)
    requires CachesSound(x, c) && !t.task.Trim?
  {
    TouchKeepsBlocks(c.block, KeyOf(t.task.reference), x.release.truth);
    (c.(block := ClockCaches.Touch(c.block, KeyOf(t.task.reference))),
     t.(pc := if Found(c.block, t.task.reference).Some? then Idle else PreLock))
  }

  ghost function StepPreInsert(x: Context, c: Caches, t: Thread): (Caches, Thread)
    requires CachesSound(x, c) && !t.task.Trim? && t.value.Some? && TrueValue(x, t.task.reference, t.value)
  {
    InsertKeepsBlocks(c.prefetch, KeyOf(t.task.reference), t.value.value, x.release.truth);
    (c.(prefetch := ClockCaches.Inserted(c.prefetch, KeyOf(t.task.reference), t.value.value)), t.(pc := PreStore))
  }

  // ----------------------------------------------------------------- one step is safe

  /** What a step of `me` may do to the locks and to the prefetch cache of others. */
  ghost predicate Interferes(c: Caches, d: Caches, me: nat) {
    && (forall j: nat :: j != me ==> (c.prefetchOwner == Some(j) <==> d.prefetchOwner == Some(j)))
    && (forall j: nat :: j != me && c.prefetchOwner == Some(j) ==> d.prefetch == c.prefetch)
  }

  ghost predicate SafeStep(x: Context, c: Caches, me: nat, next: (Caches, Thread)) {
    CachesSound(x, next.0) && ThreadSound(x, next.0, next.1, me) && Interferes(c, next.0, me)
  }

  /** A load that reads storage ends with the true plaintext or without any. */
  lemma VerifiedIsTrue(r: Release, reference: BlockRef, bytes: Bytes)
    requires r.Authentic(reference)
    ensures Verified(r, reference, bytes).Some? ==> Verified(r, reference, bytes) == Some(r.truth[KeyOf(reference)])
  {
  }

  lemma FoundIsTrue(x: Context, s: ClockCaches.State<BlockKey>, reference: BlockRef)
    requires BlocksSound(s, x.release.truth) && x.release.Authentic(reference)
    ensures Found(s, reference).Some? ==>
              Found(s, reference).value == Some(x.release.truth[KeyOf(reference)])
              && TrueValue(x, reference, Found(s, reference).value)
    ensures !Found(s, reference).Some? <==> KeyOf(reference) !in ClockCaches.Contents(s)
    ensures BlocksSound(ClockCaches.Touch(s, KeyOf(reference)), x.release.truth)
    ensures CacheEmpty(s) <==> CacheEmpty(ClockCaches.Touch(s, KeyOf(reference)))
  {
    hide ClockCaches.VacantSound, ClockCaches.Total, ClockCaches.Contents, ClockCaches.Touch;
    AuthenticLength(x.release, reference);
    TouchKeepsBlocks(s, KeyOf(reference), x.release.truth);
    EmptyMeansNothing(s);
    EmptyMeansNothing(ClockCaches.Touch(s, KeyOf(reference)));
  }

  lemma EmptyMeansNothing(s: ClockCaches.State<BlockKey>)
    requires ClockCaches.Valid(s)
    ensures CacheEmpty(s) <==> ClockCaches.Contents(s) == map[]
  {
  }

  lemma LookingInBlocksIsSafe(x: Context, c: Caches, t: Thread, me: nat, stored: Option<Bytes>)
    requires CachesSound(x, c) && ThreadSound(x, c, t, me) && (t.pc.LookBlock? || t.pc.PreBlock? || t.pc.Recheck?)
    ensures var next := Step(x, c, t, me, stored); next.Some? ==> SafeStep(x, c, me, next.value)
  {
    hide BlocksSound, CacheEmpty, ClockCaches.ValidBooks, ClockCaches.Contents, ClockCaches.Touch, Release.Authentic,
         Found;
    FoundIsTrue(x, c.block, t.task.reference);
  }

  lemma LookingInPrefetchedIsSafe(x: Context, c: Caches, t: Thread, me: nat, stored: Option<Bytes>)
    requires CachesSound(x, c) && ThreadSound(x, c, t, me) && (t.pc.LookPrefetch? || t.pc.PrePrefetch?)
    ensures var next := Step(x, c, t, me, stored); next.Some? ==> SafeStep(x, c, me, next.value)
  {
    hide BlocksSound, CacheEmpty, ClockCaches.ValidBooks, ClockCaches.Contents, ClockCaches.Touch, Release.Authentic,
         Found;
    FoundIsTrue(x, c.prefetch, t.task.reference);
  }

  lemma InsertingIsSafe(x: Context, c: Caches, t: Thread, me: nat, stored: Option<Bytes>)
    requires CachesSound(x, c) && ThreadSound(x, c, t, me) && (t.pc.Admit? || t.pc.PreInsert?)
    ensures var next := Step(x, c, t, me, stored); next.Some? ==> SafeStep(x, c, me, next.value)
  {
    hide BlocksSound, CacheEmpty, ClockCaches.ValidBooks, ClockCaches.Contents, ClockCaches.Inserted, Release.Authentic;
    InsertKeepsBlocks(if t.pc.Admit? then c.block else c.prefetch, KeyOf(t.task.reference), t.value.value,
                      x.release.truth);
  }

  lemma TrimmingIsSafe(x: Context, c: Caches, t: Thread, me: nat, stored: Option<Bytes>)
    requires CachesSound(x, c) && ThreadSound(x, c, t, me)
    requires t.pc.TrimBlock? || t.pc.TrimPrefetch? || t.pc.TrimHint? || t.pc.TrimProbation?
    ensures var next := Step(x, c, t, me, stored); next.Some? ==> SafeStep(x, c, me, next.value)
  {
    hide BlocksSound, CacheEmpty, Release.Authentic;
    EmptyIsSound(x, c.block);
    EmptyIsSound(x, c.prefetch);
  }

  lemma EmptyIsSound(x: Context, s: ClockCaches.State<BlockKey>)
    requires BlocksSound(s, x.release.truth)
    ensures BlocksSound(ClockCaches.Empty<BlockKey>(s.budget), x.release.truth)
    ensures CacheEmpty(ClockCaches.Empty<BlockKey>(s.budget))
  {
    EmptyCachesSound(0, s.budget, x.release);
  }

  lemma ReadingIsSafe(x: Context, c: Caches, t: Thread, me: nat, stored: Option<Bytes>)
    requires CachesSound(x, c) && ThreadSound(x, c, t, me) && t.pc.ReadStored?
    ensures var next := Step(x, c, t, me, stored); next.Some? ==> SafeStep(x, c, me, next.value)
  {
    hide BlocksSound, CacheEmpty, Verified, Release.Authentic;
    AuthenticLength(x.release, t.task.reference);
    if stored.Some? {
      VerifiedIsTrue(x.release, t.task.reference, stored.value);
    }
  }

  lemma ProbingIsSafe(x: Context, c: Caches, t: Thread, me: nat, stored: Option<Bytes>)
    requires CachesSound(x, c) && ThreadSound(x, c, t, me) && t.pc.Probe?
    ensures var next := Step(x, c, t, me, stored); next.Some? ==> SafeStep(x, c, me, next.value)
  {
    hide BlocksSound, CacheEmpty, Release.Authentic, Handled, TrueValue;
    WithoutShorter(c.probation, KeyOf(t.task.reference));
  }

  lemma {:induction false} WithoutShorter(keys: seq<BlockKey>, key: BlockKey)
    ensures |Without(keys, key)| <= |keys|
  {
    if keys != [] {
      WithoutShorter(keys[1..], key);
    }
  }

  lemma MovingIsSafe(x: Context, c: Caches, t: Thread, me: nat, stored: Option<Bytes>)
    requires CachesSound(x, c) && ThreadSound(x, c, t, me) && (t.pc.Idle? || t.pc.LookHint? || t.pc.Returned?)
    ensures var next := Step(x, c, t, me, stored); next.Some? ==> SafeStep(x, c, me, next.value)
  {
    hide BlocksSound, CacheEmpty, Release.Authentic, Handled;
  }

  lemma LockingIsSafe(x: Context, c: Caches, t: Thread, me: nat, stored: Option<Bytes>)
    requires CachesSound(x, c) && ThreadSound(x, c, t, me) && (t.pc.PreHint? || t.pc.PreLock? || t.pc.PreStore?)
    ensures var next := Step(x, c, t, me, stored); next.Some? ==> SafeStep(x, c, me, next.value)
  {
    hide BlocksSound, CacheEmpty, Release.Authentic, Handled, TrueValue;
  }

  /** Every step keeps the caches, the thread and the locks sound, and leaves other threads' locks alone. */
  lemma StepIsSafe(x: Context, c: Caches, t: Thread, me: nat, stored: Option<Bytes>)
    requires CachesSound(x, c) && ThreadSound(x, c, t, me)
    ensures var next := Step(x, c, t, me, stored); next.Some? ==> SafeStep(x, c, me, next.value)
  {
    hide CachesSound, ThreadSound, Step, SafeStep;
    match t.pc
    case LookBlock | PreBlock | Recheck => LookingInBlocksIsSafe(x, c, t, me, stored);
    case LookPrefetch | PrePrefetch => LookingInPrefetchedIsSafe(x, c, t, me, stored);
    case Admit | PreInsert => InsertingIsSafe(x, c, t, me, stored);
    case TrimBlock | TrimPrefetch | TrimHint | TrimProbation => TrimmingIsSafe(x, c, t, me, stored);
    case ReadStored => ReadingIsSafe(x, c, t, me, stored);
    case Probe => ProbingIsSafe(x, c, t, me, stored);
    case PreHint | PreLock | PreStore => LockingIsSafe(x, c, t, me, stored);
    case _ => MovingIsSafe(x, c, t, me, stored);
  }

  lemma OthersUndisturbed(x: Context, c: Caches, d: Caches, me: nat, t: Thread, other: nat)
    requires ThreadSound(x, c, t, other) && Interferes(c, d, me) && other != me
    ensures ThreadSound(x, d, t, other)
  {
    hide CacheEmpty, Release.Authentic;
  }

  /** Whether a Normal block that has been read is kept: on its second access among the tracked ones it is in the block
  cache two steps later, if it fits; on a first access the block cache stays and the block is tracked as the latest. */
  lemma SecondAccessAdmits(x: Context, c: Caches, t: Thread, me: nat)
    requires CachesSound(x, c) && ThreadSound(x, c, t, me) && t.pc.Probe? && t.value.Some? && x.probationEntries > 0
    ensures var key := KeyOf(t.task.reference);
            var (d, u) := Step(x, c, t, me, None).value;
            if key in c.probation then
              && CachesSound(x, d) && ThreadSound(x, d, u, me) && Step(x, d, u, me, None).Some?
              && var (e, v) := Step(x, d, u, me, None).value;
                 (t.task.reference.plainLen <= c.block.budget ==> CacheHas(e.block, key))
                 && v.pc.Returned? && v.value == t.value
            else
              && d.block == c.block && u.pc.Returned? && u.value == t.value
              && d.probation == c.probation[Max(0, |c.probation| + 1 - x.probationEntries)..] + [key]
  {
    hide BlocksSound, CacheEmpty, ClockCaches.ValidBooks, ClockCaches.Contents, ClockCaches.Inserted, Release.Authentic,
         Held;
    var key := KeyOf(t.task.reference);
    StepIsSafe(x, c, t, me, None);
    if key in c.probation {
      AuthenticLength(x.release, t.task.reference);
      NotEmptyBlock(x.release, t.task.reference);
      InsertMakesPresent(c.block, key, t.value.value, x.release.truth);
    }
  }

  /** A Normal block that storage has delivered is probed; no other is. */
  lemma NormalIsProbed(x: Context, c: Caches, t: Thread, me: nat, stored: Option<Bytes>)
    requires CachesSound(x, c) && ThreadSound(x, c, t, me) && t.pc.ReadStored?
    ensures var (d, u) := Step(x, c, t, me, stored).value;
            d == c && (u.pc.Probe? <==> t.task.access.Normal? && u.value.Some?)
  {
    hide BlocksSound, CacheEmpty;
  }

  /** A load that finds its block in the block cache ends with it and never comes to read storage. */
  lemma FoundIsNotRead(x: Context, c: Caches, t: Thread, me: nat)
    requires CachesSound(x, c) && ThreadSound(x, c, t, me) && t.pc.LookBlock?
    requires CacheHas(c.block, KeyOf(t.task.reference))
    ensures var (d, u) := Step(x, c, t, me, None).value;
            u.pc.Returned? && u.value == Some(x.release.truth[KeyOf(t.task.reference)])
            && Held(d.block) == Held(c.block)
  {
    hide CacheEmpty, ClockCaches.Contents, ClockCaches.Touch, Release.Authentic, Found, ClockCaches.ValidBooks;
    AuthenticLength(x.release, t.task.reference);
    FoundIsTrue(x, c.block, t.task.reference);
    LookupExact(c.block, KeyOf(t.task.reference), x.release.truth);
  }

  // ------------------------------------------------------------------ whole schedules

  /** Which thread moves, and what storage delivers to it. */
  datatype Turn = Turn(thread: nat, stored: Option<Bytes>)

  ghost function Moved(x: Context, s: System, turn: Turn): Option<System>
    requires Sound(x, s)
  {
    if turn.thread >= |s.threads| then None
    else
      match Step(x, s.caches, s.threads[turn.thread], turn.thread, turn.stored)
      case None => None
      case Some((caches, thread)) => Some(System(caches, s.threads[turn.thread := thread]))
  }

  lemma MovedIsSound(x: Context, s: System, turn: Turn)
    requires Sound(x, s)
    ensures Moved(x, s, turn).Some? ==> Sound(x, Moved(x, s, turn).value)
  {
    hide CachesSound, ThreadSound, Step;
    if Moved(x, s, turn).Some? {
      var me, t := turn.thread, s.threads[turn.thread];
      StepIsSafe(x, s.caches, t, me, turn.stored);
      var (d, u) := Step(x, s.caches, t, me, turn.stored).value;
      forall i | 0 <= i < |s.threads| && i != me
        ensures ThreadSound(x, d, s.threads[i], i)
      {
        OthersUndisturbed(x, s.caches, d, me, s.threads[i], i);
      }
    }
  }

  /** The system after a schedule; a turn of a thread that must wait changes nothing. */
  ghost function After(x: Context, s: System, schedule: seq<Turn>): (r: System)
    requires Sound(x, s)
    ensures Sound(x, r) && |r.threads| == |s.threads|
  {
    hide CachesSound, ThreadSound, Step;
    if schedule == [] then s
    else
      var before := After(x, s, schedule[..|schedule| - 1]);
      MovedIsSound(x, before, schedule[|schedule| - 1]);
      var moved := Moved(x, before, schedule[|schedule| - 1]);
      if moved.Some? then moved.value else before
  }

  /** Threads that have not begun, over empty caches. */
  ghost predicate Initial(x: Context, s: System) {
    && x.release.Sound()
    && (exists blockBytes: nat, prefetchBytes: nat :: blockBytes < USIZE_MAX && prefetchBytes < USIZE_MAX
          && s.caches == Caches(ClockCaches.Empty(blockBytes), ClockCaches.Empty(prefetchBytes), false, [], None))
    && (forall i :: 0 <= i < |s.threads| ==> Fresh(x, s.threads[i]))
  }

  ghost predicate Fresh(x: Context, t: Thread) {
    && t.task == Trim && t.pc == Idle && t.value == None && t.answers == []
    && (forall i :: 0 <= i < |t.todo| ==> Handled(x, t.todo[i]))
  }

  lemma InitialIsSound(x: Context, s: System)
    requires Initial(x, s)
    ensures Sound(x, s)
  {
    hide Release.Sound, BlocksSound, CacheEmpty;
    var blockBytes: nat, prefetchBytes: nat :| blockBytes < USIZE_MAX && prefetchBytes < USIZE_MAX
      && s.caches == Caches(ClockCaches.Empty(blockBytes), ClockCaches.Empty(prefetchBytes), false, [], None);
    EmptyCachesSound(0, blockBytes, x.release);
    EmptyCachesSound(0, prefetchBytes, x.release);
  }

  /** In every interleaving, every cached block and every answer is the true plaintext, and the hint is
  set whenever the prefetch cache has something and nobody holds its lock. */
  lemma EveryScheduleIsSafe(x: Context, s: System, schedule: seq<Turn>)
    requires Initial(x, s)
    ensures Sound(x, s)
    ensures var r := After(x, s, schedule);
            && (forall k :: k in ClockCaches.Contents(r.caches.block) ==>
                  k in x.release.truth && ClockCaches.Contents(r.caches.block)[k] == x.release.truth[k])
            && (forall k :: k in ClockCaches.Contents(r.caches.prefetch) ==>
                  k in x.release.truth && ClockCaches.Contents(r.caches.prefetch)[k] == x.release.truth[k])
            && (r.caches.prefetchOwner.None? && ClockCaches.Contents(r.caches.prefetch) != map[] ==> r.caches.populated)
            && (forall i, a :: 0 <= i < |r.threads| && a in r.threads[i].answers && a.1.Some? ==>
                  KeyOf(a.0) in x.release.truth && a.1.value == x.release.truth[KeyOf(a.0)])
  {
    hide ClockCaches.Contents, ClockCaches.ValidBooks, After, Initial, Release.Authentic;
    InitialIsSound(x, s);
    var r := After(x, s, schedule);
    forall i, a | 0 <= i < |r.threads| && a in r.threads[i].answers && a.1.Some?
      ensures KeyOf(a.0) in x.release.truth && a.1.value == x.release.truth[KeyOf(a.0)]
    {
      assert ThreadSound(x, r.caches, r.threads[i], i);
      var k :| 0 <= k < |r.threads[i].answers| && r.threads[i].answers[k] == a;
      assert TrueValue(x, r.threads[i].answers[k].0, r.threads[i].answers[k].1);
    }
  }

  // -------------------------------------------------------------- progress and termination

  predicate Finished(t: Thread) {
    t.pc.Idle? && t.todo == []
  }

  ghost predicate CanMove(x: Context, s: System, i: nat)
    requires Sound(x, s)
  {
    Moved(x, s, Turn(i, None)).Some?
  }

  /** No deadlock: while some thread has work left, some thread can move. Only the prefetch lock is held
  across steps, and none of the steps taken under it waits for anything. */
  lemma NoDeadlock(x: Context, s: System, i: nat) returns (j: nat)
    requires Sound(x, s) && i < |s.threads| && !Finished(s.threads[i])
    ensures j < |s.threads| && CanMove(x, s, j)
  {
    hide CachesSound, BlocksSound, CacheEmpty, Handled, TrueValue;
    var c := s.caches;
    j := if c.prefetchOwner.Some? then c.prefetchOwner.value else i;
    assert ThreadSound(x, c, s.threads[j], j);
  }

  /** How many steps of its current task a thread may still take. */
  function Rank(pc: Pc): nat {
    match pc
    case PreBlock => 16 case PreHint => 15 case PrePrefetch => 14
    case LookBlock => 13 case LookHint => 12 case LookPrefetch => 11 case ReadStored => 10
    case Probe => 9 case Admit => 8 case Returned => 7
    case Recheck => 6 case PreLock => 5 case PreInsert => 4 case PreStore => 3
    case TrimBlock => 4 case TrimPrefetch => 3 case TrimHint => 2 case TrimProbation => 1
    case Idle => 0
  }

  function StepsLeft(t: Thread): nat {
    17 * |t.todo| + Rank(t.pc)
  }

  function AllStepsLeft(threads: seq<Thread>): nat {
    if threads == [] then 0 else StepsLeft(threads[0]) + AllStepsLeft(threads[1..])
  }

  lemma StepUsesOne(x: Context, c: Caches, t: Thread, me: nat, stored: Option<Bytes>)
    requires CachesSound(x, c) && ThreadSound(x, c, t, me)
    ensures var next := Step(x, c, t, me, stored); next.Some? ==> StepsLeft(next.value.1) < StepsLeft(t)
  {
    hide CachesSound, BlocksSound, CacheEmpty, Handled, TrueValue, Verified, Found;
    if LoadStep(t.pc) {
      LoadStepUsesOne(x, c, t, me, stored);
    }
  }

  lemma LoadStepUsesOne(x: Context, c: Caches, t: Thread, me: nat, stored: Option<Bytes>)
    requires CachesSound(x, c) && ThreadSound(x, c, t, me) && LoadStep(t.pc)
    ensures var next := Step(x, c, t, me, stored); next.Some? ==> StepsLeft(next.value.1) < StepsLeft(t)
  {
    hide CachesSound, BlocksSound, CacheEmpty, Handled, TrueValue, Verified, Found;
  }

  lemma {:induction false} FewerStepsLeft(threads: seq<Thread>, i: nat, t: Thread)
    requires i < |threads| && StepsLeft(t) < StepsLeft(threads[i])
    ensures AllStepsLeft(threads[i := t]) < AllStepsLeft(threads)
  {
    if i > 0 {
      FewerStepsLeft(threads[1..], i - 1, t);
      assert threads[i := t][1..] == threads[1..][i - 1 := t];
    } else {
      assert threads[0 := t][1..] == threads[1..];
    }
  }

  /** Every turn of the schedule moves its thread. */
  ghost predicate EveryTurnMoves(x: Context, s: System, schedule: seq<Turn>)
    requires Sound(x, s)
  {
    schedule == []
    || (var n := |schedule| - 1;
        EveryTurnMoves(x, s, schedule[..n]) && Moved(x, After(x, s, schedule[..n]), schedule[n]).Some?)
  }

  /** Every schedule of real moves is finite: its length is bounded by the work given to the threads. With
  `NoDeadlock`, every interleaving can be and has to be continued until all threads have finished. */
  lemma {:induction false} SchedulesTerminate(x: Context, s: System, schedule: seq<Turn>)
    requires Sound(x, s) && EveryTurnMoves(x, s, schedule)
    ensures |schedule| + AllStepsLeft(After(x, s, schedule).threads) <= AllStepsLeft(s.threads)
    decreases |schedule|
  {
    hide CachesSound, ThreadSound, Step, StepsLeft, Sound;
    if schedule != [] {
      var n := |schedule| - 1;
      var before := After(x, s, schedule[..n]);
      SchedulesTerminate(x, s, schedule[..n]);
      MovedUsesOne(x, before, schedule[n]);
    }
  }

  lemma MovedUsesOne(x: Context, s: System, turn: Turn)
    requires Sound(x, s)
    ensures Moved(x, s, turn).Some? ==> AllStepsLeft(Moved(x, s, turn).value.threads) < AllStepsLeft(s.threads)
  {
    hide CachesSound, ThreadSound, Step, StepsLeft;
    if Moved(x, s, turn).Some? {
      StepUsesOne(x, s.caches, s.threads[turn.thread], turn.thread, turn.stored);
      FewerStepsLeft(s.threads, turn.thread,
                     Step(x, s.caches, s.threads[turn.thread], turn.thread, turn.stored).value.1);
    }
  }
}
