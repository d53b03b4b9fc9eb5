/** The open-addressed path index: how the packer fills it and how the runtime searches it. */
module PathIndex {
  import opened Basics
  import opened Wire
  import opened Records
  import opened Catalogs
  import opened CatalogRoundTrip
  import opened Arithmetic

  /** A keyed 32-bit hash of a path. Nothing is assumed of it: all paths may collide. */
  type PathHash = Bytes -> Hash32
  type Hash32 = h: nat | h < U32_LIMIT

  /** `hash.wrapping_add(probe) & (count - 1)`, where `count` is a power of two. */
  function SlotIndex(hash: Hash32, probe: nat, count: nat): (s: nat)
    requires count > 0
    ensures s < count
  {
    ((hash + probe) % U32_LIMIT) % count
  }

  function NextPowerOfTwo(n: nat): (p: nat)
    ensures p >= n && PowerOfTwo(p) && (n > 1 ==> p < 2 * n)
  {
    if n <= 1 then 1
    else
      var half := NextPowerOfTwo((n + 1) / 2);
      TwicePower(half);
      2 * half
  }

  lemma TwicePower(p: nat)
    requires PowerOfTwo(p)
    ensures PowerOfTwo(2 * p)
  {
    assert 2 * p / 2 == p;
  }

  const EMPTY: PathSlot := PathSlot(0, EMPTY_PATH_SLOT)

  /** The first `n` paths are in the table: path `i` sits at its `probes[i]`-th probe, every earlier probe
  of it met a path inserted before it, and all other slots are empty. */
  ghost predicate Placed(slots: seq<PathSlot>, paths: seq<Bytes>, hash: PathHash, n: nat, probes: seq<nat>) {
    && 0 < |slots| && n <= |paths| && |probes| == n
    && (forall i :: 0 <= i < n ==>
          probes[i] < |slots| && slots[SlotIndex(hash(paths[i]), probes[i], |slots|)] == PathSlot(hash(paths[i]), i))
    && (forall s :: 0 <= s < |slots| && slots[s].fileIndex != EMPTY_PATH_SLOT ==>
          var i := slots[s].fileIndex; i < n && s == SlotIndex(hash(paths[i]), probes[i], |slots|))
    && (forall i, q :: 0 <= i < n && 0 <= q < probes[i] ==>
          slots[SlotIndex(hash(paths[i]), q, |slots|)].fileIndex < i)
  }

  // ------------------------------------------------------------ probe arithmetic

  lemma {:induction false} PowersDivide(small: nat, large: nat)
    requires PowerOfTwo(small) && PowerOfTwo(large) && small <= large
    ensures large % small == 0
  {
    if small > 1 {
      PowersDivide(small / 2, large / 2);
      var q := (large / 2) / (small / 2);
      assert large / 2 == q * (small / 2);
      assert large == 2 * (q * (small / 2)) == q * small;
      MultipleModulo(q, small);
    }
  }

  lemma WordIsPower()
    ensures PowerOfTwo(U32_LIMIT)
  {
    assert PowerOfTwo(1024);
    Doubles(1024, 8 * 1024);
    Doubles(2 * 8 * 1024, 16 * 8 * 1024);
    Doubles(2 * 16 * 8 * 1024, 16 * 16 * 8 * 1024);
    Doubles(2 * 16 * 16 * 8 * 1024, 16 * 16 * 16 * 8 * 1024);
    Doubles(2 * 16 * 16 * 16 * 8 * 1024, 16 * 16 * 16 * 16 * 8 * 1024);
    assert U32_LIMIT == 8 * 16 * 16 * 16 * 16 * 8 * 1024;
    Doubles(16 * 16 * 16 * 16 * 8 * 1024, 8 * 16 * 16 * 16 * 16 * 8 * 1024);
  }

  /** Wrapping the probe at 32 bits does not disturb the walk round a table whose size divides 2^32. */
  lemma SlotIndexModulo(hash: Hash32, probe: nat, count: nat)
    requires PowerOfTwo(count) && count <= U32_LIMIT
    ensures SlotIndex(hash, probe, count) == (hash + probe) % count
  {
    WordIsPower();
    PowersDivide(count, U32_LIMIT);
    var k := WholeQuotient(U32_LIMIT, count);
    NestedModulo(hash + probe, k, count);
  }

  lemma WalkEnds(r: nat, slot: nat, q: nat, count: nat)
    requires slot < count && r < count
    ensures (q * count + r + (if r <= slot then slot - r else slot + count - r)) % count == slot
  {
    if r <= slot {
      RemainderUnique(q * count + slot, q, slot, count);
    } else {
      assert (q + 1) * count == q * count + count;
      RemainderUnique(q * count + count + slot, q + 1, slot, count);
    }
  }

  /** Every slot is met by some probe. */
  lemma EverySlotProbed(hash: Hash32, slot: nat, count: nat) returns (probe: nat)
    requires PowerOfTwo(count) && count <= U32_LIMIT && slot < count
    ensures probe < count && SlotIndex(hash, probe, count) == slot
  {
    hide SlotIndex, PowerOfTwo;
    var q, r := hash / count, hash % count;
    Split(hash, count);
    probe := if r <= slot then slot - r else slot + count - r;
    WalkEnds(r, slot, q, count);
    SlotIndexModulo(hash, probe, count);
  }

  // ----------------------------------------------------------------- pigeonhole

  ghost function Elements(xs: seq<nat>): set<nat> {
    set x | x in xs
  }

  lemma {:induction false} IndicesSize(n: nat, s: set<nat>)
    requires forall i: nat :: i < n ==> i in s
    ensures |s| >= n
    decreases n
  {
    if n > 0 {
      IndicesSize(n - 1, s - {n - 1});
    }
  }

  lemma {:induction false} ElementsSize(xs: seq<nat>)
    ensures |Elements(xs)| <= |xs|
  {
    if xs != [] {
      var last := |xs| - 1;
      ElementsSize(xs[..last]);
      assert Elements(xs) == Elements(xs[..last]) + {xs[last]} by {
        assert xs == xs[..last] + [xs[last]];
      }
    } else {
      assert Elements(xs) == {};
    }
  }

  /** A table with more slots than paths has an empty slot. */
  lemma SomeSlotEmpty(slots: seq<PathSlot>, paths: seq<Bytes>, hash: PathHash, n: nat, probes: seq<nat>)
    requires Placed(slots, paths, hash, n, probes) && n < |slots|
    ensures exists s :: 0 <= s < |slots| && slots[s].fileIndex == EMPTY_PATH_SLOT
  {
    if forall s :: 0 <= s < |slots| ==> slots[s].fileIndex != EMPTY_PATH_SLOT {
      var homes := seq(n, i requires 0 <= i < n => SlotIndex(hash(paths[i]), probes[i], |slots|));
      forall s: nat | s < |slots|
        ensures s in Elements(homes)
      {
        assert slots[s].fileIndex != EMPTY_PATH_SLOT;
        assert homes[slots[s].fileIndex] == s;
      }
      ElementsSize(homes);
      IndicesSize(|slots|, Elements(homes));
      assert false;
    }
  }

  // ------------------------------------------------------------- building

  method BuildPathSlots(paths: seq<Bytes>, fileCount: nat, hash: PathHash) returns (r: Result<seq<PathSlot>>)
    ensures |paths| != fileCount ==> r == Err(InvalidInput)
    ensures |paths| == fileCount && |paths| <= MAX_FILES ==>
              && r.Ok? && PowerOfTwo(|r.value|) && |paths| < |r.value| <= U32_LIMIT
              && SlotsFit(r.value, fileCount) && |r.value| == NextPowerOfTwo(Max(2 * |paths|, 1))
              && exists probes :: Placed(r.value, paths, hash, |paths|, probes)
  {
    hide SlotIndex, Placed, SlotFits;
    if |paths| != fileCount {
      return Err(InvalidInput);
    }
    var desired := Max(Min(2 * |paths|, USIZE_MAX), 1);
    var count := NextPowerOfTwo(desired);
    if count > USIZE_MAX {
      return Err(InvalidInput);
    }
    var slots := seq(count, _ => EMPTY);
    ghost var probes: seq<nat> := [];
    NothingPlaced(slots, paths, hash);
    for file := 0 to |paths|
      invariant |slots| == count
      invariant |paths| <= MAX_FILES ==> SlotsFit(slots, |paths|)
      invariant |paths| <= MAX_FILES ==> Placed(slots, paths, hash, file, probes)
    {
      var h := hash(paths[file]);
      var inserted := false;
      var probe := 0;
      while probe < count && !inserted
        invariant probe <= count
        invariant |slots| == count
        invariant |paths| <= MAX_FILES ==> SlotsFit(slots, |paths|)
        invariant !inserted && |paths| <= MAX_FILES ==> Placed(slots, paths, hash, file, probes)
        invariant !inserted ==> forall q :: 0 <= q < probe ==>
                  slots[SlotIndex(h, q, count)].fileIndex != EMPTY_PATH_SLOT
        invariant inserted && |paths| <= MAX_FILES ==> Placed(slots, paths, hash, file + 1, probes)
        decreases count - probe, !inserted
      {
        var slot := SlotIndex(h, probe, count);
        if slots[slot].fileIndex == EMPTY_PATH_SLOT {
          if file >= U32_LIMIT {
            return Err(InvalidInput);
          }
          ghost var before := slots;
          slots := slots[slot := PathSlot(h, file)];
          if |paths| <= MAX_FILES {
            PlaceOne(before, paths, hash, file, probes, probe);
            FitOne(before, |paths|, slot, h, file);
          }
          probes := probes + [probe];
          inserted := true;
        } else {
          probe := probe + 1;
        }
      }
      if !inserted {
        if |paths| <= MAX_FILES {
          TableNotFull(slots, paths, hash, file, probes, h);
        }
        return Err(InvalidInput);
      }
    }
    return Ok(slots);
  }

  ghost predicate SlotsFit(slots: seq<PathSlot>, fileCount: nat) {
    forall s :: 0 <= s < |slots| ==> SlotFits(slots[s]) && SlotOk(slots[s], fileCount)
  }

  lemma NothingPlaced(slots: seq<PathSlot>, paths: seq<Bytes>, hash: PathHash)
    requires 0 < |slots| && forall s :: 0 <= s < |slots| ==> slots[s] == EMPTY
    ensures Placed(slots, paths, hash, 0, []) && SlotsFit(slots, |paths|)
  {
    WordSizes();
  }

  lemma FitOne(slots: seq<PathSlot>, fileCount: nat, slot: nat, h: Hash32, file: nat)
    requires SlotsFit(slots, fileCount) && slot < |slots| && file < fileCount <= MAX_FILES
    ensures SlotsFit(slots[slot := PathSlot(h, file)], fileCount)
  {
    WordSizes();
  }

  lemma PlaceOne(slots: seq<PathSlot>, paths: seq<Bytes>, hash: PathHash, file: nat, probes: seq<nat>, probe: nat)
    requires Placed(slots, paths, hash, file, probes) && file < |paths| <= MAX_FILES && probe < |slots|
    requires slots[SlotIndex(hash(paths[file]), probe, |slots|)].fileIndex == EMPTY_PATH_SLOT
    requires forall q :: 0 <= q < probe ==> slots[SlotIndex(hash(paths[file]), q, |slots|)].fileIndex != EMPTY_PATH_SLOT
    ensures Placed(slots[SlotIndex(hash(paths[file]), probe, |slots|) := PathSlot(hash(paths[file]), file)],
                   paths, hash, file + 1, probes + [probe])
  {
    hide SlotIndex;
  }

  lemma TableNotFull(slots: seq<PathSlot>, paths: seq<Bytes>, hash: PathHash, file: nat, probes: seq<nat>, h: Hash32)
    requires Placed(slots, paths, hash, file, probes) && file < |slots| && PowerOfTwo(|slots|) && |slots| <= U32_LIMIT
    ensures exists q :: 0 <= q < |slots| && slots[SlotIndex(h, q, |slots|)].fileIndex == EMPTY_PATH_SLOT
  {
    SomeSlotEmpty(slots, paths, hash, file, probes);
    var s :| 0 <= s < |slots| && slots[s].fileIndex == EMPTY_PATH_SLOT;
    var q := EverySlotProbed(h, s, |slots|);
  }

  // ------------------------------------------------------------- searching

  /** The probe loop of `find_file` over decoded slots: `None` is "no empty slot". */
  function Search(slots: seq<PathSlot>, paths: seq<Bytes>, path: Bytes, hash: Hash32, probe: nat): Option<Option<nat>>
    requires |slots| > 0
    decreases |slots| - probe
  {
    if probe >= |slots| then None
    else
      var slot := slots[SlotIndex(hash, probe, |slots|)];
      if slot.fileIndex == EMPTY_PATH_SLOT then Some(None)
      else if slot.hash == hash && slot.fileIndex < |paths| && paths[slot.fileIndex] == path then
        Some(Some(slot.fileIndex))
      else Search(slots, paths, path, hash, probe + 1)
  }

  /** The index of the first occurrence. */
  ghost predicate FirstAt(paths: seq<Bytes>, path: Bytes, r: Option<nat>) {
    match r
    case None => path !in paths
    case Some(i) => i < |paths| && paths[i] == path && path !in paths[..i]
  }

  lemma {:induction false} SearchSkips(slots: seq<PathSlot>, paths: seq<Bytes>, path: Bytes, hash: Hash32, probe: nat,
                                       end: nat)
    requires |slots| > 0 && probe <= end <= |slots|
    requires forall q :: probe <= q < end ==>
               var slot := slots[SlotIndex(hash, q, |slots|)];
               slot.fileIndex != EMPTY_PATH_SLOT && !(slot.fileIndex < |paths| && paths[slot.fileIndex] == path)
    ensures Search(slots, paths, path, hash, probe) == Search(slots, paths, path, hash, end)
    decreases end - probe
  {
    if probe < end {
      SearchSkips(slots, paths, path, hash, probe + 1, end);
    }
  }

  /** The first empty probe of a walk. */
  lemma {:induction false} FirstEmpty(slots: seq<PathSlot>, hash: Hash32, end: nat) returns (q: nat)
    requires end < |slots| && slots[SlotIndex(hash, end, |slots|)].fileIndex == EMPTY_PATH_SLOT
    ensures q <= end && slots[SlotIndex(hash, q, |slots|)].fileIndex == EMPTY_PATH_SLOT
    ensures forall p :: 0 <= p < q ==> slots[SlotIndex(hash, p, |slots|)].fileIndex != EMPTY_PATH_SLOT
    decreases end
  {
    if p: nat :| p < end && slots[SlotIndex(hash, p, |slots|)].fileIndex == EMPTY_PATH_SLOT {
      q := FirstEmpty(slots, hash, p);
    } else {
      q := end;
    }
  }

  /** The table is an exact finite map, whatever the hash function: searching finds the first listed
  occurrence of a path, finds nothing for any other path, and never runs out of slots. */
  lemma SearchExact(slots: seq<PathSlot>, paths: seq<Bytes>, hash: PathHash, probes: seq<nat>, path: Bytes)
    requires Placed(slots, paths, hash, |paths|, probes)
    requires PowerOfTwo(|slots|) && |paths| < |slots| <= U32_LIMIT
    ensures Search(slots, paths, path, hash(path), 0).Some?
    ensures FirstAt(paths, path, Search(slots, paths, path, hash(path), 0).value)
  {
    hide SlotIndex;
    if path in paths {
      var i := FirstOccurrence(paths, path);
      SearchSkips(slots, paths, path, hash(path), 0, probes[i]);
    } else {
      TableNotFull(slots, paths, hash, |paths|, probes, hash(path));
      var end: nat :| end < |slots| && slots[SlotIndex(hash(path), end, |slots|)].fileIndex == EMPTY_PATH_SLOT;
      var q := FirstEmpty(slots, hash(path), end);
      SearchSkips(slots, paths, path, hash(path), 0, q);
    }
  }

  lemma {:induction false} FirstOccurrence(paths: seq<Bytes>, path: Bytes) returns (i: nat)
    requires path in paths
    ensures FirstAt(paths, path, Some(i))
    decreases |paths|
  {
    var last := |paths| - 1;
    if path in paths[..last] {
      i := FirstOccurrence(paths[..last], path);
      assert paths[..last][..i] == paths[..i];
    } else {
      i := last;
    }
  }

  // --------------------------------------------- searching an encoded catalog

  /** The path pool and file records hold `paths`. */
  ghost predicate PoolHolds(d: CatalogData, paths: seq<Bytes>) {
    && |paths| == |d.files|
    && (forall i :: 0 <= i < |paths| ==>
          d.files[i].pathOffset + d.files[i].pathLen <= |d.pathPool| && PoolSlice(d.pathPool, d.files[i]) == paths[i])
  }

  /** The runtime lookup over catalog bytes. For a catalog printed from a packer-built index it is the
  exact finite map from the listed paths to their indices. */
  method FindFile(c: Catalog, ghost d: CatalogData, path: Bytes, hash: PathHash, canonical: Bytes -> bool,
                  ghost paths: seq<Bytes>, ghost probes: seq<nat>) returns (r: Result<Option<nat>>)
    requires Printable(d) && Addressable(d, c.wordMax) && c == ViewOf(d, c.wordMax) && DataValid(d, canonical)
    requires PoolHolds(d, paths) && |paths| <= MAX_FILES
    requires Placed(d.pathSlots, paths, hash, |paths|, probes) && |paths| < |d.pathSlots|
    ensures !canonical(path) ==> r == Err(InvalidPath)
    ensures canonical(path) ==> r.Ok? && FirstAt(paths, path, r.value)
  {
    hide Image, Placed, SlotIndex, PowerOfTwo, Typed;
    if !canonical(path) {
      return Err(InvalidPath);
    }
    var h := hash(path);
    SearchExact(d.pathSlots, paths, hash, probes, path);
    for probe := 0 to c.slotCount
      invariant Search(d.pathSlots, paths, path, h, probe) == Search(d.pathSlots, paths, path, h, 0)
    {
      var index := SlotIndex(h, probe, c.slotCount);
      ReadsSlot(d, c.wordMax, index);
      var slot := c.Slot(index);
      if slot.None? {
        return Err(InvalidFormat);
      }
      if slot.value.fileIndex == EMPTY_PATH_SLOT {
        return Ok(None);
      }
      assert SlotOk(d.pathSlots[index], |d.files|);
      ReadsPath(d, c.wordMax, slot.value.fileIndex);
      if slot.value.hash == h {
        var found := c.Path(slot.value.fileIndex);
        if found.None? {
          return Err(InvalidFormat);
        }
        if found.value == path {
          return Ok(Some(slot.value.fileIndex));
        }
      }
    }
    return Err(InvalidFormat);
  }
}
