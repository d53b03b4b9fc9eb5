/** The second-chance cache behind the page, block and prefetch caches.

`State` is the value of a cache; the functions on it are what each operation computes, and the
class `Cache` updates the same fields in place and is proved equal to them. */
module ClockCaches {
  import opened Basics

  datatype Entry<K> = Entry(key: K, value: Bytes, referenced: bool)

  type Slot<K> = Option<Entry<K>>

  datatype State<K> = State(budget: nat, used: nat, hand: nat, entries: seq<Slot<K>>, index: map<K, nat>,
                            vacant: seq<nat>)

  function SlotSize<K>(slot: Slot<K>): nat {
    if slot.Some? then |slot.value.value| else 0
  }

  function Total<K>(entries: seq<Slot<K>>): nat {
    if entries == [] then 0 else SlotSize(entries[0]) + Total(entries[1..])
  }

  function LiveCount<K>(entries: seq<Slot<K>>): nat {
    if entries == [] then 0 else (if entries[0].Some? then 1 else 0) + LiveCount(entries[1..])
  }

  function Empty<K>(budget: nat): State<K> {
    State(budget, 0, 0, [], map[], [])
  }

  /** What holds between operations. */
  ghost predicate Valid<K(!new)>(s: State<K>) {
    && ValidBooks(s)
    && |s.entries| == |s.index| + |s.vacant|
    && (forall i :: 0 <= i < |s.entries| && s.entries[i].None? ==> i in s.vacant)
  }

  /** `Valid` without the demand that every empty slot is listed as vacant, which is not so
  between an eviction and the push of the freed slot. */
  ghost predicate ValidBooks<K(!new)>(s: State<K>) {
    && s.used == Total(s.entries) <= s.budget <= USIZE_MAX
    && (s.hand < |s.entries| || s.hand == 0)
    && IndexExact(s.index, s.entries)
    && VacantSound(s.vacant, s.entries)
  }

  /** The index names exactly the live slots. */
  ghost predicate IndexExact<K(!new)>(index: map<K, nat>, entries: seq<Slot<K>>) {
    && (forall k :: k in index ==>
          index[k] < |entries| && entries[index[k]].Some? && entries[index[k]].value.key == k)
    && (forall i :: 0 <= i < |entries| && entries[i].Some? ==>
          entries[i].value.key in index && index[entries[i].value.key] == i)
  }

  ghost predicate VacantSound<K(!new)>(vacant: seq<nat>, entries: seq<Slot<K>>) {
    && (forall i :: 0 <= i < |vacant| ==> vacant[i] < |entries| && entries[vacant[i]].None?)
    && (forall i, j :: 0 <= i < j < |vacant| ==> vacant[i] != vacant[j])
  }

  /** The cached values by key: the finite map that the cache refines. */
  ghost function Contents<K(!new)>(s: State<K>): map<K, Bytes>
    requires ValidBooks(s)
  {
    map k | k in s.index :: s.entries[s.index[k]].value.value
  }

  // ---------------------------------------------------------------- eviction

  function Evicted<K>(s: State<K>, slot: nat): State<K>
    requires slot < |s.entries| && s.entries[slot].Some?
  {
    var entry := s.entries[slot].value;
    s.(used := if |entry.value| <= s.used then s.used - |entry.value| else 0,
       entries := s.entries[slot := None],
       index := s.index - {entry.key},
       hand := (slot + 1) % |s.entries|)
  }

  /** At most `fuel` steps of the hand: clears reference bits until it meets a live entry whose bit is clear. */
  function Scan<K>(s: State<K>, fuel: nat): (r: (State<K>, Option<nat>))
    requires s.entries != []
    ensures |r.0.entries| == |s.entries| && r.0.budget == s.budget && r.0.vacant == s.vacant
    decreases fuel
  {
    if fuel == 0 then (s, None)
    else
      var hand := s.hand % |s.entries|;
      var next := (hand + 1) % |s.entries|;
      match s.entries[hand]
      case None => Scan(s.(hand := next), fuel - 1)
      case Some(entry) =>
        if entry.referenced then
          Scan(s.(hand := next, entries := s.entries[hand := Some(entry.(referenced := false))]), fuel - 1)
        else
          (Evicted(s, hand), Some(hand))
  }

  function Eviction<K>(s: State<K>): (State<K>, Option<nat>) {
    if s.index == map[] || s.entries == [] then (s, None) else Scan(s, 2 * |s.entries|)
  }

  /** Steps the hand takes from `hand` to reach slot `i` of `n`. */
  function Distance(hand: nat, i: nat, n: nat): nat
    requires hand < n && i < n
  {
    if hand <= i then i - hand else i + n - hand
  }

  function Wrap(x: nat, n: nat): nat
    requires x < 2 * n
    ensures Wrap(x, n) < n
  {
    if x < n then x else x - n
  }

  function Unreferenced<K>(slot: Slot<K>): Slot<K> {
    if slot.Some? then Some(slot.value.(referenced := false)) else None
  }

  /** The hand has passed `d` slots, clearing their reference bits. */
  function Advanced<K>(s: State<K>, d: nat): (r: State<K>)
    requires s.hand < |s.entries| && d <= |s.entries|
    ensures |r.entries| == |s.entries| && r.hand < |r.entries|
  {
    var n := |s.entries|;
    s.(hand := Wrap(s.hand + d, n),
       entries := seq(n, i requires 0 <= i < n =>
         if Distance(s.hand, i, n) < d then Unreferenced(s.entries[i]) else s.entries[i]))
  }

  predicate Evictable<K>(slot: Slot<K>) {
    slot.Some? && !slot.value.referenced
  }

  lemma StepModulo(hand: nat, n: nat)
    requires hand < n
    ensures hand % n == hand
    ensures (hand + 1) % n == Wrap(hand + 1, n)
  {
    if hand + 1 == n {
      assert (hand + 1) % n == 0;
    }
  }

  lemma AdvancedEntry<K>(s: State<K>, d: nat, i: nat)
    requires s.hand < |s.entries| && d <= |s.entries| && i < |s.entries|
    ensures Advanced(s, d).entries[i]
            == if Distance(s.hand, i, |s.entries|) < d then Unreferenced(s.entries[i]) else s.entries[i]
  {
  }

  lemma AdvancedNowhere<K>(s: State<K>)
    requires s.hand < |s.entries|
    ensures Advanced(s, 0) == s
  {
    assert Advanced(s, 0).entries == s.entries;
  }

  lemma AdvancedOnce<K>(s: State<K>)
    requires s.hand < |s.entries|
    ensures Advanced(s, 1)
            == s.(hand := Wrap(s.hand + 1, |s.entries|),
                  entries := s.entries[s.hand := Unreferenced(s.entries[s.hand])])
  {
    var n := |s.entries|;
    forall i | 0 <= i < n
      ensures Advanced(s, 1).entries[i] == s.entries[s.hand := Unreferenced(s.entries[s.hand])][i]
    {
      AdvancedEntry(s, 1, i);
    }
    assert Advanced(s, 1).entries == s.entries[s.hand := Unreferenced(s.entries[s.hand])];
  }

  lemma AdvancedFurther<K>(s: State<K>, d: nat)
    requires s.hand < |s.entries| && 1 <= d <= |s.entries|
    ensures Advanced(s, d) == Advanced(Advanced(s, 1), d - 1)
  {
    var n := |s.entries|;
    var s' := Advanced(s, 1);
    forall i | 0 <= i < n
      ensures Advanced(s, d).entries[i] == Advanced(s', d - 1).entries[i]
    {
      AdvancedEntry(s, d, i);
      AdvancedEntry(s, 1, i);
      AdvancedEntry(s', d - 1, i);
    }
    assert Advanced(s, d).entries == Advanced(s', d - 1).entries;
  }

  lemma ScanStep<K>(s: State<K>, fuel: nat)
    requires s.hand < |s.entries| && 1 <= fuel
    requires !Evictable(s.entries[s.hand])
    ensures Scan(s, fuel) == Scan(Advanced(s, 1), fuel - 1)
  {
    StepModulo(s.hand, |s.entries|);
    AdvancedOnce(s);
    if s.entries[s.hand].None? {
      assert s.entries[s.hand := None] == s.entries;
    }
  }

  /** None of the first `d` slots from the hand can be evicted. */
  ghost predicate NoneEvictable<K(!new)>(s: State<K>, d: nat)
    requires s.hand < |s.entries|
  {
    forall i :: 0 <= i < |s.entries| && Distance(s.hand, i, |s.entries|) < d ==> !Evictable(s.entries[i])
  }

  lemma NoneEvictableAfterStep<K(!new)>(s: State<K>, d: nat)
    requires s.hand < |s.entries| && 1 <= d <= |s.entries| && NoneEvictable(s, d)
    ensures !Evictable(s.entries[s.hand]) && NoneEvictable(Advanced(s, 1), d - 1)
  {
    assert Distance(s.hand, s.hand, |s.entries|) == 0;
    var s' := Advanced(s, 1);
    forall i | 0 <= i < |s.entries| && Distance(s'.hand, i, |s.entries|) < d - 1
      ensures !Evictable(s'.entries[i])
    {
      AdvancedEntry(s, 1, i);
    }
  }

  lemma {:induction false} ScanAdvances<K(!new)>(s: State<K>, d: nat, fuel: nat)
    requires s.hand < |s.entries| && d <= |s.entries| && d <= fuel && NoneEvictable(s, d)
    ensures Scan(s, fuel) == Scan(Advanced(s, d), fuel - d)
    decreases d
  {
    hide Scan, Advanced, NoneEvictable, Evictable;
    if d == 0 {
      AdvancedNowhere(s);
    } else {
      NoneEvictableAfterStep(s, d);
      ScanStep(s, fuel);
      ScanAdvances(Advanced(s, 1), d - 1, fuel - 1);
      AdvancedFurther(s, d);
    }
  }

  // ------------------------------------------------- which entry is evicted

  /** `i` is the first slot at or after the hand that is live and, if so asked, unreferenced. */
  ghost predicate Nearest<K(!new)>(s: State<K>, i: nat, unreferenced: bool)
    requires s.hand < |s.entries|
  {
    && i < |s.entries| && s.entries[i].Some? && (unreferenced ==> Evictable(s.entries[i]))
    && (forall j :: 0 <= j < |s.entries| && Distance(s.hand, j, |s.entries|) < Distance(s.hand, i, |s.entries|) ==>
          s.entries[j].None? || (unreferenced && !Evictable(s.entries[j])))
  }

  lemma {:induction false} NearestExists<K(!new)>(s: State<K>, i: nat, unreferenced: bool) returns (j: nat)
    requires s.hand < |s.entries| && i < |s.entries|
    requires s.entries[i].Some? && (unreferenced ==> Evictable(s.entries[i]))
    ensures Nearest(s, j, unreferenced)
    decreases Distance(s.hand, i, |s.entries|)
  {
    if closer: nat :| closer < |s.entries| && s.entries[closer].Some? && (unreferenced ==> Evictable(s.entries[closer]))
                      && Distance(s.hand, closer, |s.entries|) < Distance(s.hand, i, |s.entries|)
    {
      j := NearestExists(s, closer, unreferenced);
    } else {
      j := i;
    }
  }

  lemma {:induction false} TotalSameSizes<K>(a: seq<Slot<K>>, b: seq<Slot<K>>)
    requires |a| == |b| && forall i :: 0 <= i < |a| ==> SlotSize(a[i]) == SlotSize(b[i])
    ensures Total(a) == Total(b)
  {
    if a != [] {
      TotalSameSizes(a[1..], b[1..]);
    }
  }

  lemma {:induction false} TotalUpdate<K>(a: seq<Slot<K>>, i: nat, slot: Slot<K>)
    requires i < |a|
    ensures Total(a[i := slot]) == Total(a) - SlotSize(a[i]) + SlotSize(slot)
    ensures SlotSize(a[i]) <= Total(a)
  {
    if i == 0 {
      assert a[0 := slot][1..] == a[1..];
    } else {
      TotalUpdate(a[1..], i - 1, slot);
      assert a[i := slot][1..] == a[1..][i - 1 := slot];
    }
  }

  lemma {:induction false} TotalAppend<K>(a: seq<Slot<K>>, slot: Slot<K>)
    ensures Total(a + [slot]) == Total(a) + SlotSize(slot)
  {
    if a == [] {
      assert a + [slot] == [slot] && [slot][1..] == [];
    } else {
      assert (a + [slot])[1..] == a[1..] + [slot];
      TotalAppend(a[1..], slot);
    }
  }

  /** Two slot tables that differ in reference bits only. */
  ghost predicate SameValues<K>(a: seq<Slot<K>>, b: seq<Slot<K>>) {
    |a| == |b| && forall i :: 0 <= i < |a| ==> Unreferenced(a[i]) == Unreferenced(b[i])
  }

  lemma SameIndex<K(!new)>(index: map<K, nat>, a: seq<Slot<K>>, b: seq<Slot<K>>)
    requires SameValues(a, b) && IndexExact(index, a)
    ensures IndexExact(index, b)
    ensures forall k :: k in index ==> a[index[k]].value.value == b[index[k]].value.value
  {
    forall k | k in index
      ensures index[k] < |b| && b[index[k]].Some? && b[index[k]].value.key == k
      ensures a[index[k]].value.value == b[index[k]].value.value
    {
      assert Unreferenced(a[index[k]]) == Unreferenced(b[index[k]]);
    }
    forall i | 0 <= i < |b| && b[i].Some?
      ensures b[i].value.key in index && index[b[i].value.key] == i
    {
      assert Unreferenced(a[i]) == Unreferenced(b[i]);
    }
  }

  lemma SameVacant<K(!new)>(vacant: seq<nat>, a: seq<Slot<K>>, b: seq<Slot<K>>)
    requires SameValues(a, b) && VacantSound(vacant, a)
    ensures VacantSound(vacant, b)
  {
    forall i | 0 <= i < |vacant|
      ensures vacant[i] < |b| && b[vacant[i]].None?
    {
      assert Unreferenced(a[vacant[i]]) == Unreferenced(b[vacant[i]]);
    }
  }

  lemma SameTotal<K>(a: seq<Slot<K>>, b: seq<Slot<K>>)
    requires SameValues(a, b)
    ensures Total(a) == Total(b)
  {
    forall i | 0 <= i < |a|
      ensures SlotSize(a[i]) == SlotSize(b[i])
    {
      assert Unreferenced(a[i]) == Unreferenced(b[i]);
    }
    TotalSameSizes(a, b);
  }

  lemma SameValuesKeepBooks<K(!new)>(s: State<K>, t: State<K>)
    requires SameValues(s.entries, t.entries) && ValidBooks(s)
    requires t == s.(entries := t.entries, hand := t.hand) && t.hand < |t.entries|
    ensures ValidBooks(t) && Contents(t) == Contents(s)
  {
    hide SameValues, IndexExact, VacantSound, Total;
    SameIndex(s.index, s.entries, t.entries);
    SameVacant(s.vacant, s.entries, t.entries);
    SameTotal(s.entries, t.entries);
    SameLength(s.entries, t.entries);
    IndexInRange(s.index, s.entries);
    IndexInRange(t.index, t.entries);
  }

  lemma SameLength<K>(a: seq<Slot<K>>, b: seq<Slot<K>>)
    requires SameValues(a, b)
    ensures |a| == |b|
  {
  }

  lemma IndexInRange<K(!new)>(index: map<K, nat>, entries: seq<Slot<K>>)
    requires IndexExact(index, entries)
    ensures forall k :: k in index ==> index[k] < |entries| && entries[index[k]].Some?
  {
  }

  lemma AdvancedKeepsBooks<K(!new)>(s: State<K>, d: nat)
    requires ValidBooks(s) && s.hand < |s.entries| && d <= |s.entries|
    ensures ValidBooks(Advanced(s, d)) && Contents(Advanced(s, d)) == Contents(s)
    ensures SameValues(s.entries, Advanced(s, d).entries)
  {
    AdvancedSameValues(s, d);
    SameValuesKeepBooks(s, Advanced(s, d));
  }

  lemma AdvancedSameValues<K(!new)>(s: State<K>, d: nat)
    requires s.hand < |s.entries| && d <= |s.entries|
    ensures SameValues(s.entries, Advanced(s, d).entries)
  {
    forall i | 0 <= i < |s.entries|
      ensures Unreferenced(s.entries[i]) == Unreferenced(Advanced(s, d).entries[i])
    {
      AdvancedEntry(s, d, i);
    }
  }

  lemma EvictedIndex<K(!new)>(s: State<K>, slot: nat)
    requires IndexExact(s.index, s.entries) && VacantSound(s.vacant, s.entries)
    requires slot < |s.entries| && s.entries[slot].Some?
    ensures IndexExact(Evicted(s, slot).index, Evicted(s, slot).entries)
    ensures VacantSound(s.vacant, Evicted(s, slot).entries)
    ensures |Evicted(s, slot).index| == |s.index| - 1
  {
    var key := s.entries[slot].value.key;
    assert Evicted(s, slot).index.Keys == s.index.Keys - {key};
    assert |s.index.Keys| == |s.index|;
    assert |Evicted(s, slot).index.Keys| == |Evicted(s, slot).index|;
  }

  lemma EvictedKeepsBooks<K(!new)>(s: State<K>, slot: nat) returns (victim: K)
    requires ValidBooks(s) && slot < |s.entries| && s.entries[slot].Some?
    ensures ValidBooks(Evicted(s, slot)) && slot !in s.vacant
    ensures victim in Contents(s) && Contents(Evicted(s, slot)) == Contents(s) - {victim}
    ensures Evicted(s, slot).used == s.used - |Contents(s)[victim]|
    ensures |Evicted(s, slot).index| == |s.index| - 1
    ensures victim in s.index && s.index[victim] == slot
  {
    hide Total;
    victim := s.entries[slot].value.key;
    TotalUpdate(s.entries, slot, None);
    EvictedIndex(s, slot);
    if slot + 1 == |s.entries| {
      StepModulo(slot, |s.entries|);
    }
  }

  /** Some live entry has a clear reference bit. */
  ghost predicate AnyEvictable<K(!new)>(s: State<K>) {
    exists i :: 0 <= i < |s.entries| && Evictable(s.entries[i])
  }

  lemma EvictNearestClear<K(!new)>(s: State<K>) returns (slot: nat)
    requires s.hand < |s.entries| && s.index != map[] && AnyEvictable(s)
    ensures Nearest(s, slot, true)
    ensures Eviction(s) == (Evicted(Advanced(s, Distance(s.hand, slot, |s.entries|)), slot), Some(slot))
  {
    var n := |s.entries|;
    var i: nat :| i < n && Evictable(s.entries[i]);
    slot := NearestExists(s, i, true);
    var d := Distance(s.hand, slot, n);
    ScanAdvances(s, d, 2 * n);
    ScanStops(s, slot, d, 2 * n - d);
  }

  lemma EvictNearestLive<K(!new)>(s: State<K>, live: nat) returns (slot: nat)
    requires s.hand < |s.entries| && s.index != map[] && !AnyEvictable(s)
    requires live < |s.entries| && s.entries[live].Some?
    ensures Nearest(s, slot, false)
    ensures Eviction(s) == (Evicted(Advanced(s, |s.entries|), slot), Some(slot))
  {
    var n := |s.entries|;
    slot := NearestExists(s, live, false);
    ScanAdvances(s, n, 2 * n);
    ScanSecondTurn(s, slot);
  }

  lemma ScanSecondTurn<K(!new)>(s: State<K>, slot: nat)
    requires s.hand < |s.entries| && Nearest(s, slot, false)
    ensures Advanced(s, |s.entries|).entries[slot].Some?
    ensures Scan(Advanced(s, |s.entries|), |s.entries|) == (Evicted(Advanced(s, |s.entries|), slot), Some(slot))
  {
    var n := |s.entries|;
    var s1 := Advanced(s, n);
    var d := Distance(s.hand, slot, n);
    AdvancedTwice(s, d);
    forall i | 0 <= i < n && Distance(s1.hand, i, n) < d
      ensures !Evictable(s1.entries[i])
    {
      AdvancedEntry(s, n, i);
    }
    ScanAdvances(s1, d, n);
    AdvancedEntry(s, n, slot);
    ScanStops(s1, slot, d, n - d);
  }

  /** The second chance: the victim is the first live slot at or after the hand with a clear bit, and
  the bits before it are cleared; when every live bit is set, all bits are cleared and the victim is
  the first live slot. Either way 2 * slots steps suffice. */
  lemma EvictOneExact<K(!new)>(s: State<K>) returns (slot: nat, cleared: nat)
    requires ValidBooks(s) && s.index != map[]
    ensures s.hand < |s.entries| && cleared <= |s.entries|
    ensures Nearest(s, slot, AnyEvictable(s))
    ensures cleared == if AnyEvictable(s) then Distance(s.hand, slot, |s.entries|) else |s.entries|
    ensures Eviction(s) == (Evicted(Advanced(s, cleared), slot), Some(slot))
  {
    var key :| key in s.index;
    if AnyEvictable(s) {
      slot := EvictNearestClear(s);
      cleared := Distance(s.hand, slot, |s.entries|);
    } else {
      slot := EvictNearestLive(s, s.index[key]);
      cleared := |s.entries|;
    }
  }

  lemma ScanStops<K>(s: State<K>, slot: nat, d: nat, fuel: nat)
    requires s.hand < |s.entries| && slot < |s.entries| && d == Distance(s.hand, slot, |s.entries|) && 1 <= fuel
    requires Evictable(s.entries[slot])
    ensures Evictable(Advanced(s, d).entries[slot])
    ensures Scan(Advanced(s, d), fuel) == (Evicted(Advanced(s, d), slot), Some(slot))
  {
    AdvancedEntry(s, d, slot);
    StepModulo(slot, |s.entries|);
    assert Advanced(s, d).hand == slot;
  }

  lemma AdvancedTwice<K>(s: State<K>, d: nat)
    requires s.hand < |s.entries| && d < |s.entries|
    ensures Advanced(Advanced(s, |s.entries|), d).entries == Advanced(s, |s.entries|).entries
    ensures Advanced(s, |s.entries|).hand == s.hand
  {
    var n := |s.entries|;
    var s1 := Advanced(s, n);
    forall i | 0 <= i < n
      ensures Advanced(s1, d).entries[i] == s1.entries[i]
    {
      AdvancedEntry(s, n, i);
      AdvancedEntry(s1, d, i);
    }
  }

  // --------------------------------------------------------------- insertion

  function SaturatingAdd(a: nat, b: nat): nat {
    Min(a + b, USIZE_MAX)
  }

  /** The byte counter cannot wrap: either the budget is below the largest word, so that the saturating
  comparison is exact, or the bytes to be held fit one word. */
  predicate NoWrap<K>(s: State<K>, size: nat) {
    s.budget < USIZE_MAX || s.used + size <= USIZE_MAX
  }

  /** An eviction whose freed slot has been pushed on the vacancy list. */
  function EvictAndFree<K>(s: State<K>): State<K> {
    match Eviction(s)
    case (s', None) => s'
    case (s', Some(slot)) => s'.(vacant := s'.vacant + [slot])
  }

  lemma FreedSlotListed<K(!new)>(s: State<K>, t: State<K>, slot: nat)
    requires Valid(s) && ValidBooks(t) && SameValues(s.entries, t.entries) && t.vacant == s.vacant
    requires slot < |t.entries| && t.entries[slot].Some? && slot !in t.vacant && ValidBooks(Evicted(t, slot))
    requires |Evicted(t, slot).index| == |s.index| - 1
    ensures Valid(Evicted(t, slot).(vacant := s.vacant + [slot]))
  {
    hide IndexExact, VacantSound, Total;
    VacantPushed(s.vacant, Evicted(t, slot).entries, slot);
    AllListed(s, t, slot);
  }

  lemma VacantPushed<K(!new)>(vacant: seq<nat>, entries: seq<Slot<K>>, slot: nat)
    requires VacantSound(vacant, entries) && slot < |entries| && entries[slot].None? && slot !in vacant
    ensures VacantSound(vacant + [slot], entries)
  {
  }

  lemma AllListed<K(!new)>(s: State<K>, t: State<K>, slot: nat)
    requires Valid(s) && SameValues(s.entries, t.entries) && slot < |t.entries| && t.entries[slot].Some?
    ensures |s.entries| == |t.entries|
    ensures forall i :: 0 <= i < |t.entries| && Evicted(t, slot).entries[i].None? ==> i in s.vacant + [slot]
  {
    hide ValidBooks;
    var vacant := s.vacant + [slot];
    forall i | 0 <= i < |t.entries| && Evicted(t, slot).entries[i].None?
      ensures i in vacant
    {
      assert Unreferenced(s.entries[i]) == Unreferenced(t.entries[i]);
      if i == slot {
        assert vacant[|s.vacant|] == slot;
      }
    }
  }

  lemma EvictAndFreeValid<K(!new)>(s: State<K>) returns (victim: K)
    requires Valid(s) && s.index != map[]
    ensures Eviction(s).1.Some? && Valid(EvictAndFree(s))
    ensures victim in Contents(s) && Contents(EvictAndFree(s)) == Contents(s) - {victim}
    ensures EvictAndFree(s).used == s.used - |Contents(s)[victim]|
    ensures |EvictAndFree(s).index| == |s.index| - 1
    ensures |EvictAndFree(s).entries| == |s.entries| && EvictAndFree(s).budget == s.budget
    ensures AnyEvictable(s) ==> Evictable(s.entries[s.index[victim]])
  {
    var slot, cleared := EvictOneExact(s);
    var s1 := Advanced(s, cleared);
    AdvancedKeepsBooks(s, cleared);
    assert Unreferenced(s.entries[slot]) == Unreferenced(s1.entries[slot]);
    victim := EvictedKeepsBooks(s1, slot);
    FreedSlotListed(s, s1, slot);
    assert EvictAndFree(s) == Evicted(s1, slot).(vacant := s.vacant + [slot]);
    SameContents(Evicted(s1, slot), EvictAndFree(s));
  }

  lemma SameContents<K(!new)>(s: State<K>, t: State<K>)
    requires ValidBooks(s) && ValidBooks(t) && s.index == t.index && s.entries == t.entries
    ensures Contents(s) == Contents(t)
  {
  }

  lemma EvictAndFreeKeepsValid<K(!new)>(s: State<K>)
    requires Valid(s) && s.index != map[]
    ensures Eviction(s).1.Some? && Valid(EvictAndFree(s))
    ensures EvictAndFree(s).used <= s.used && EvictAndFree(s).index.Keys <= s.index.Keys
    ensures |EvictAndFree(s).index| == |s.index| - 1
    ensures |EvictAndFree(s).entries| == |s.entries| && EvictAndFree(s).budget == s.budget
  {
    var victim := EvictAndFreeValid(s);
    assert Contents(s).Keys == s.index.Keys && Contents(EvictAndFree(s)).Keys == EvictAndFree(s).index.Keys;
  }

  lemma NonemptyWhenUsed<K(!new)>(s: State<K>)
    requires ValidBooks(s) && s.used > 0
    ensures s.index != map[]
  {
    var i := SomeLive(s.entries);
  }

  lemma {:induction false} SomeLive<K>(entries: seq<Slot<K>>) returns (i: nat)
    requires Total(entries) > 0
    ensures i < |entries| && entries[i].Some?
  {
    if entries[0].Some? {
      i := 0;
    } else {
      i := SomeLive(entries[1..]);
      i := i + 1;
    }
  }

  /** Evicts until `size` more bytes fit. */
  function MakeRoom<K(!new)>(s: State<K>, size: nat): (room: State<K>)
    requires Valid(s) && size <= s.budget && NoWrap(s, size)
    ensures Valid(room) && room.used + size <= room.budget == s.budget && room.index.Keys <= s.index.Keys
    ensures |room.entries| == |s.entries|
    decreases |s.index|
  {
    if SaturatingAdd(s.used, size) <= s.budget then s
    else
      NonemptyWhenUsed(s);
      EvictAndFreeKeepsValid(s);
      MakeRoom(EvictAndFree(s), size)
  }

  predicate Admissible<K(==)>(s: State<K>, key: K, value: Bytes) {
    s.budget > 0 && |value| <= s.budget && key !in s.index
  }

  function Place<K>(s: State<K>, key: K, value: Bytes): State<K>
    requires s.vacant != [] ==> s.vacant[|s.vacant| - 1] < |s.entries|
  {
    var live := Some(Entry(key, value, true));
    var n := |s.vacant|;
    if n == 0 then
      s.(used := s.used + |value|, index := s.index[key := |s.entries|], entries := s.entries + [live])
    else
      var slot := s.vacant[n - 1];
      s.(used := s.used + |value|, index := s.index[key := slot], entries := s.entries[slot := live],
         vacant := s.vacant[..n - 1])
  }

  function Inserted<K(!new, ==)>(s: State<K>, key: K, value: Bytes): State<K>
    requires Valid(s) && NoWrap(s, |value|)
  {
    if !Admissible(s, key, value) then s
    else
      Place(MakeRoom(s, |value|), key, value)
  }

  function Touch<K>(s: State<K>, key: K): State<K>
    requires key in s.index ==> s.index[key] < |s.entries| && s.entries[s.index[key]].Some?
  {
    if key !in s.index then s
    else
      var slot := s.index[key];
      s.(entries := s.entries[slot := Some(s.entries[slot].value.(referenced := true))])
  }

  lemma MakeRoomStops<K(!new)>(s: State<K>, size: nat)
    requires Valid(s) && size <= s.budget && NoWrap(s, size) && s.used + size <= s.budget
    ensures MakeRoom(s, size) == s
  {
  }

  lemma MakeRoomContinues<K(!new)>(s: State<K>, size: nat)
    requires Valid(s) && size <= s.budget && NoWrap(s, size) && s.used + size > s.budget
    ensures s.index != map[] && Valid(EvictAndFree(s)) && |EvictAndFree(s).index| < |s.index|
    ensures size <= EvictAndFree(s).budget && NoWrap(EvictAndFree(s), size)
    ensures EvictAndFree(s).budget == s.budget
  {
    NonemptyWhenUsed(s);
    EvictAndFreeKeepsValid(s);
  }

  /** `kept` holds some of the values of `values`, unchanged. */
  ghost predicate Submap<K(!new)>(kept: map<K, Bytes>, values: map<K, Bytes>) {
    forall k :: k in kept ==> k in values && kept[k] == values[k]
  }

  /** Some value that was not kept would leave too little room next to `filled` bytes. */
  ghost predicate LastWasNeeded<K(!new)>(kept: map<K, Bytes>, values: map<K, Bytes>, filled: nat, budget: nat) {
    exists k :: k in values && k !in kept && filled + |values[k]| > budget
  }

  /** `room` came from `s` by dropping entries, the last of which had to go for `size` more bytes to fit. */
  ghost predicate Dropped<K(!new)>(room: State<K>, s: State<K>, size: nat) {
    && ValidBooks(room) && ValidBooks(s)
    && Submap(Contents(room), Contents(s))
    && LastWasNeeded(Contents(room), Contents(s), room.used + size, s.budget)
  }

  lemma DropOne<K(!new)>(fewer: State<K>, s: State<K>, victim: K, size: nat)
    requires ValidBooks(fewer) && ValidBooks(s) && victim in Contents(s) && Contents(fewer) == Contents(s) - {victim}
    requires fewer.used + |Contents(s)[victim]| == s.used && s.used + size > s.budget
    ensures Dropped(fewer, s, size)
  {
    assert victim !in Contents(fewer);
  }

  lemma DropOneMore<K(!new)>(room: State<K>, fewer: State<K>, s: State<K>, victim: K, size: nat)
    requires Dropped(room, fewer, size) && ValidBooks(s) && fewer.budget == s.budget
    requires victim in Contents(s) && Contents(fewer) == Contents(s) - {victim}
    ensures Dropped(room, s, size)
  {
    hide ValidBooks;
    var last :| last in Contents(fewer) && last !in Contents(room)
                && room.used + size + |Contents(fewer)[last]| > fewer.budget;
    assert last in Contents(s) && Contents(s)[last] == Contents(fewer)[last];
  }

  lemma SameRoom<K(!new)>(room: State<K>, other: State<K>, s: State<K>, size: nat)
    requires room == other && Dropped(room, s, size)
    ensures Dropped(other, s, size)
  {
  }

  /** Room is made by dropping entries only, and none too many: before the last one went, the bytes did not fit. */
  lemma {:induction false} MakeRoomExact<K(!new)>(s: State<K>, size: nat)
    requires Valid(s) && size <= s.budget && NoWrap(s, size)
    ensures s.used + size <= s.budget ==> MakeRoom(s, size) == s
    ensures s.used + size > s.budget ==> Dropped(MakeRoom(s, size), s, size)
    decreases |s.index|
  {
    hide Contents, EvictAndFree, IndexExact, VacantSound, Total, Dropped;
    if s.used + size > s.budget {
      MakeRoomContinues(s, size);
      var victim := EvictAndFreeValid(s);
      var s' := EvictAndFree(s);
      MakeRoomExact(s', size);
      if s'.used + size <= s'.budget {
        DropOne(s', s, victim, size);
        SameRoom(s', MakeRoom(s, size), s, size);
      } else {
        DropOneMore(MakeRoom(s', size), s', s, victim, size);
        SameRoom(MakeRoom(s', size), MakeRoom(s, size), s, size);
      }
    }
  }

  lemma PlaceIndex<K(!new)>(s: State<K>, key: K, value: Bytes)
    requires Valid(s) && key !in s.index
    ensures IndexExact(Place(s, key, value).index, Place(s, key, value).entries)
    ensures VacantSound(Place(s, key, value).vacant, Place(s, key, value).entries)
  {
    hide Total;
    PlaceInIndex(s, key, value);
    PlaceOffList(s, key, value);
  }

  lemma PlaceInIndex<K(!new)>(s: State<K>, key: K, value: Bytes)
    requires Valid(s) && key !in s.index
    ensures IndexExact(Place(s, key, value).index, Place(s, key, value).entries)
  {
    hide Total;
  }

  lemma PlaceOffList<K(!new)>(s: State<K>, key: K, value: Bytes)
    requires Valid(s) && key !in s.index
    ensures VacantSound(Place(s, key, value).vacant, Place(s, key, value).entries)
  {
    hide Total, IndexExact;
  }

  lemma PlaceTotal<K(!new)>(s: State<K>, key: K, value: Bytes)
    requires Valid(s)
    ensures Total(Place(s, key, value).entries) == Total(s.entries) + |value|
  {
    var live := Some(Entry(key, value, true));
    var n := |s.vacant|;
    if n == 0 {
      TotalAppend(s.entries, live);
    } else {
      TotalUpdate(s.entries, s.vacant[n - 1], live);
    }
  }

  lemma PlaceVacant<K(!new)>(s: State<K>, key: K, value: Bytes, i: nat)
    requires Valid(s) && i < |Place(s, key, value).entries| && Place(s, key, value).entries[i].None?
    ensures i in Place(s, key, value).vacant
  {
    hide IndexExact, Total;
    var n := |s.vacant|;
    var j :| 0 <= j < n && s.vacant[j] == i;
    assert s.vacant[..n - 1][j] == i;
  }

  lemma PlaceValid<K(!new)>(s: State<K>, key: K, value: Bytes)
    requires Valid(s) && key !in s.index && s.used + |value| <= s.budget
    ensures Valid(Place(s, key, value))
    ensures |Place(s, key, value).index| == |s.index| + 1
  {
    PlaceIndex(s, key, value);
    PlaceTotal(s, key, value);
    forall i | 0 <= i < |Place(s, key, value).entries| && Place(s, key, value).entries[i].None?
      ensures i in Place(s, key, value).vacant
    {
      PlaceVacant(s, key, value, i);
    }
  }

  lemma PlaceContents<K(!new)>(s: State<K>, key: K, value: Bytes)
    requires Valid(s) && key !in s.index && s.used + |value| <= s.budget
    requires ValidBooks(Place(s, key, value))
    ensures Contents(Place(s, key, value)) == Contents(s)[key := value]
  {
    hide Total;
  }

  /** Insertion refines a map update: the key becomes present with its value, other keys keep theirs or
  are evicted, and nothing is evicted that fits. */
  lemma InsertExact<K(!new)>(s: State<K>, key: K, value: Bytes) returns (kept: map<K, Bytes>)
    requires Valid(s) && NoWrap(s, |value|)
    ensures Valid(Inserted(s, key, value)) && Inserted(s, key, value).budget == s.budget
    ensures !Admissible(s, key, value) ==> Inserted(s, key, value) == s
    ensures Admissible(s, key, value) ==>
              && Submap(kept, Contents(s)) && Contents(Inserted(s, key, value)) == kept[key := value]
              && (s.used + |value| <= s.budget ==> kept == Contents(s))
              && (s.used + |value| > s.budget ==>
                    LastWasNeeded(kept, Contents(s), Inserted(s, key, value).used, s.budget))
  {
    hide MakeRoom, Contents, IndexExact, VacantSound, Total, LastWasNeeded;
    if Admissible(s, key, value) {
      MakeRoomExact(s, |value|);
      var room := MakeRoom(s, |value|);
      kept := Contents(room);
      PlaceValid(room, key, value);
      PlaceContents(room, key, value);
    } else {
      kept := map[];
    }
  }

  /** The part of `InsertExact` that every user of a shared cache relies on. */
  lemma InsertKeepsValues<K(!new)>(s: State<K>, key: K, value: Bytes)
    requires Valid(s) && NoWrap(s, |value|)
    ensures Valid(Inserted(s, key, value)) && Inserted(s, key, value).budget == s.budget
    ensures forall k :: k in Contents(Inserted(s, key, value)) ==>
              (k in Contents(s) && Contents(Inserted(s, key, value))[k] == Contents(s)[k])
              || (k == key && Contents(Inserted(s, key, value))[k] == value)
  {
    hide MakeRoom, Contents, IndexExact, VacantSound, Total;
    var kept := InsertExact(s, key, value);
  }

  lemma TouchExact<K(!new)>(s: State<K>, key: K)
    requires Valid(s)
    ensures Valid(Touch(s, key)) && Contents(Touch(s, key)) == Contents(s)
    ensures |Touch(s, key).entries| == |s.entries| && Touch(s, key).index == s.index
    ensures Touch(s, key).budget == s.budget && Touch(s, key).used == s.used
  {
    hide Contents, IndexExact, VacantSound, Total, SameValues;
    if key in s.index {
      IndexInRange(s.index, s.entries);
      var slot := s.index[key];
      MarkedSameValues(s.entries, slot);
      SameValuesKeepBooks(s, Touch(s, key));
    }
  }

  /** The second chance: a value that has just been looked up outlives the next eviction whenever some other cached
  value has not been looked up since the hand last passed it. */
  lemma TouchedSurvives<K(!new)>(s: State<K>, key: K, other: K)
    requires Valid(s) && key in Contents(s) && other in Contents(s) && other != key
    requires !s.entries[s.index[other]].value.referenced
    ensures ValidBooks(Touch(s, key)) && ValidBooks(EvictAndFree(Touch(s, key)))
    ensures var left := Contents(EvictAndFree(Touch(s, key)));
            key in left && left[key] == Contents(s)[key] && |left| == |Contents(s)| - 1
  {
    hide Total, VacantSound, Scan, Eviction, EvictAndFree;
    var t := Touch(s, key);
    TouchExact(s, key);
    assert Evictable(t.entries[t.index[other]]);
    var victim := EvictAndFreeValid(t);
    assert victim != key;
    assert |Contents(s) - {victim}| == |Contents(s)| - 1 by {
      OneFewer(Contents(s), victim);
    }
  }

  lemma OneFewer<K>(m: map<K, Bytes>, k: K)
    requires k in m
    ensures |m - {k}| == |m| - 1
  {
    assert (m - {k}).Keys == m.Keys - {k};
    assert |m.Keys| == |m| && |(m - {k}).Keys| == |m - {k}|;
  }

  lemma MarkedSameValues<K>(entries: seq<Slot<K>>, slot: nat)
    requires slot < |entries| && entries[slot].Some?
    ensures SameValues(entries, entries[slot := Some(entries[slot].value.(referenced := true))])
  {
  }

  // -------------------------------------------------------------------- runs

  datatype Op<K> = Get(key: K) | Put(key: K, value: Bytes) | Clear

  function Apply<K(!new, ==)>(s: State<K>, op: Op<K>): State<K>
    requires Valid(s) && s.budget < USIZE_MAX
  {
    match op
    case Get(key) => Touch(s, key)
    case Put(key, value) => Inserted(s, key, value)
    case Clear => Empty(s.budget)
  }

  /** The state after `ops` and the greatest number of live entries seen since the last `Clear`. */
  ghost function Run<K(!new)>(budget: nat, ops: seq<Op<K>>): (r: (State<K>, nat))
    requires budget < USIZE_MAX
    ensures Valid(r.0) && r.0.budget == budget
  {
    if ops == [] then (Empty(budget), 0)
    else
      var (s, peak) := Run(budget, ops[..|ops| - 1]);
      var op := ops[|ops| - 1];
      ApplyValid(s, op);
      var s' := Apply(s, op);
      (s', if op.Clear? then 0 else Max(peak, |s'.index|))
  }

  lemma ApplyValid<K(!new)>(s: State<K>, op: Op<K>)
    requires Valid(s) && s.budget < USIZE_MAX
    ensures Valid(Apply(s, op)) && Apply(s, op).budget == s.budget
  {
    hide MakeRoom, Contents, IndexExact, VacantSound;
    match op
    case Get(key) => TouchExact(s, key);
    case Put(key, value) => InsertKeepsValues(s, key, value);
    case Clear =>
      assert Total(Empty<K>(s.budget).entries) == 0;
      EmptyValid<K>(s.budget);
  }

  lemma EmptyValid<K(!new)>(budget: nat)
    requires budget <= USIZE_MAX
    ensures Valid(Empty<K>(budget)) && Contents(Empty<K>(budget)) == map[]
  {
  }

  /** The value most recently stored under `key` by a `Put` that found the key absent, since the last `Clear`. */
  ghost predicate StoredUnder<K(!new)>(ops: seq<Op<K>>, key: K, value: Bytes) {
    ops != [] && !ops[|ops| - 1].Clear?
    && (ops[|ops| - 1] == Put(key, value) || StoredUnder(ops[..|ops| - 1], key, value))
  }

  /** Whatever is done to a cache: it holds only values put there since the last `Clear`, its byte count
  is within budget, and it never has more slots than it once had live entries since that `Clear`. */
  lemma {:induction false} EveryRun<K(!new)>(budget: nat, ops: seq<Op<K>>)
    requires budget < USIZE_MAX
    ensures var (s, peak) := Run(budget, ops);
            && s.used == Total(s.entries) <= budget
            && |s.entries| == peak
            && (forall k :: k in Contents(s) ==> StoredUnder(ops, k, Contents(s)[k]))
    decreases |ops|
  {
    if ops == [] {
      EmptyValid<K>(budget);
    } else {
      var before, op := ops[..|ops| - 1], ops[|ops| - 1];
      EveryRun(budget, before);
      var (s, peak) := Run(budget, before);
      StepKeepsPeak(s, op, peak);
      match op
      case Get(key) => TouchExact(s, key);
      case Put(key, value) => InsertKeepsValues(s, key, value);
      case Clear => EmptyValid<K>(budget);
    }
  }

  lemma StepKeepsPeak<K(!new)>(s: State<K>, op: Op<K>, peak: nat)
    requires Valid(s) && s.budget < USIZE_MAX && |s.entries| == peak
    ensures |Apply(s, op).entries| == if op.Clear? then 0 else Max(peak, |Apply(s, op).index|)
  {
    match op
    case Get(key) => TouchExact(s, key);
    case Put(key, value) =>
      if Admissible(s, key, value) {
        PlaceValid(MakeRoom(s, |value|), key, value);
      }
    case Clear =>
  }

  // ------------------------------------------------------------ in-place form

  lemma MakeRoomNext<K(!new)>(s: State<K>, next: State<K>, size: nat)
    requires Valid(s) && size <= s.budget && NoWrap(s, size) && s.used + size > s.budget
    requires next == EvictAndFree(s)
    ensures Valid(next) && size <= next.budget && NoWrap(next, size) && |next.index| < |s.index|
    ensures MakeRoom(next, size) == MakeRoom(s, size)
  {
    MakeRoomContinues(s, size);
  }

  lemma VacancyInRange<K(!new)>(s: State<K>)
    requires Valid(s)
    ensures s.vacant != [] ==> s.vacant[|s.vacant| - 1] < |s.entries|
  {
  }

  /** The cache object: the fields of `State`, changed in place. */
  class Cache<K(!new, ==)> {
    const budget: nat
    var used: nat
    var hand: nat
    var entries: seq<Slot<K>>
    var index: map<K, nat>
    var vacant: seq<nat>

    ghost function Model(): State<K>
      reads this
    {
      State(budget, used, hand, entries, index, vacant)
    }

    constructor (budget: nat)
      requires budget <= USIZE_MAX
      ensures this.budget == budget && Model() == Empty(budget) && Valid(Model())
    {
      this.budget := budget;
      used, hand, entries, index, vacant := 0, 0, [], map[], [];
      new;
      EmptyValid<K>(budget);
    }

    method Get(key: K) returns (value: Option<Bytes>)
      requires Valid(Model())
      modifies this
      ensures Model() == Touch(old(Model()), key)
      ensures value == if key in Contents(old(Model())) then Some(Contents(old(Model()))[key]) else None
      ensures Valid(Model()) && Contents(Model()) == Contents(old(Model()))
    {
      TouchExact(Model(), key);
      if key !in index {
        return None;
      }
      var slot := index[key];
      var entry := entries[slot].value;
      entries := entries[slot := Some(entry.(referenced := true))];
      value := Some(entry.value);
    }

    method Insert(key: K, value: Bytes)
      requires Valid(Model()) && NoWrap(Model(), |value|)
      modifies this
      ensures Model() == Inserted(old(Model()), key, value) && Valid(Model())
    {
      hide IndexExact, VacantSound, Total, MakeRoom, Contents, Eviction, Place, Submap, LastWasNeeded;
      ghost var s := Model();
      ghost var kept := InsertExact(s, key, value);
      if budget == 0 || |value| > budget || key in index {
        return;
      }
      while SaturatingAdd(used, |value|) > budget
        invariant Valid(Model()) && NoWrap(Model(), |value|)
        invariant MakeRoom(Model(), |value|) == MakeRoom(s, |value|)
        decreases |index|
      {
        ghost var before := Model();
        MakeRoomContinues(before, |value|);
        EvictAndFreeKeepsValid(before);
        var freed := EvictOne();
        if freed.None? {
          return;
        }
        vacant := vacant + [freed.value];
        MakeRoomNext(before, Model(), |value|);
      }
      MakeRoomStops(Model(), |value|);
      VacancyInRange(Model());
      FillSlot(key, value);
    }

    /** Takes a vacant slot or a new one for the entry. */
    method FillSlot(key: K, value: Bytes)
      requires vacant != [] ==> vacant[|vacant| - 1] < |entries|
      modifies this
      ensures Model() == Place(old(Model()), key, value)
    {
      var slot;
      if vacant == [] {
        entries := entries + [None];
        slot := |entries| - 1;
      } else {
        slot := vacant[|vacant| - 1];
        vacant := vacant[..|vacant| - 1];
      }
      used := used + |value|;
      index := index[key := slot];
      entries := entries[slot := Some(Entry(key, value, true))];
      assert old(vacant) == [] ==> entries == old(entries) + [Some(Entry(key, value, true))];
    }

    method Clear()
      modifies this
      ensures Model() == Empty(budget)
    {
      used, hand, entries, index, vacant := 0, 0, [], map[], [];
    }

    /** Needs no invariant: the bounded scan ends, and never divides by zero, whatever the bookkeeping says. */
    method EvictOne() returns (freed: Option<nat>)
      modifies this
      ensures (Model(), freed) == Eviction(old(Model()))
    {
      if index == map[] || entries == [] {
        return None;
      }
      var limit := 2 * |entries|;
      for step := 0 to limit
        invariant |entries| == |old(entries)|
        invariant Scan(Model(), limit - step) == Scan(old(Model()), limit)
      {
        hand := hand % |entries|;
        if entries[hand].Some? {
          var entry := entries[hand].value;
          if entry.referenced {
            entries := entries[hand := Some(entry.(referenced := false))];
          } else {
            entries := entries[hand := None];
            used := if |entry.value| <= used then used - |entry.value| else 0;
            index := index - {entry.key};
            var vacated := hand;
            hand := (hand + 1) % |entries|;
            return Some(vacated);
          }
        }
        hand := (hand + 1) % |entries|;
      }
      return None;
    }
  }
}
