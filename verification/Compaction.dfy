/** Which old segments an incremental build rewrites: the packer's consolidation choice. */
module Compaction {
  import opened Basics
  import opened Records
  import opened Pages
  import opened SetSums

  const SMALL: nat := 64 * 1024
  const MIN_FRAGMENTS: nat := 64
  const REWRITE_BUDGET: nat := 64 * 1024 * 1024
  const DEAD_THRESHOLD: nat := 1024 * 1024

  // ---------------------------------------------------- live bytes of a segment

  datatype Live = Live(segment: nat, block: nat, stored: nat, plain: nat)

  function LiveOf(r: ReuseRecord): Live {
    Live(r.block.segmentOrdinal, r.block.segmentBlockOrdinal, r.block.storedLen, r.block.plainLen)
  }

  ghost predicate HasKey(live: set<Live>, segment: nat, block: nat) {
    exists l :: l in live && l.segment == segment && l.block == block
  }

  /** The first record of each physical block. */
  ghost function Firsts(records: seq<ReuseRecord>): set<Live> {
    if records == [] then {}
    else
      var before, l := Firsts(records[..|records| - 1]), LiveOf(records[|records| - 1]);
      if HasKey(before, l.segment, l.block) then before else before + {l}
  }

  ghost function AllLive(records: seq<ReuseRecord>): set<Live> {
    set r | r in records :: LiveOf(r)
  }

  /** Records of one physical block agree on its lengths. */
  ghost predicate Consistent(live: set<Live>) {
    forall a, b :: a in live && b in live && a.segment == b.segment && a.block == b.block ==> a == b
  }

  datatype Field = Stored | Plain

  function Weight(l: Live, f: Field): nat {
    match f case Stored => l.stored case Plain => l.plain
  }

  ghost function LiveBytes(live: set<Live>, segment: nat, f: Field): nat {
    var mine := set l | l in live && l.segment == segment;
    SumLive(mine, f)
  }

  ghost function SumLive(live: set<Live>, f: Field): nat {
    if live == {} then 0
    else
      var l :| l in live;
      Weight(l, f) + SumLive(live - {l}, f)
  }

  lemma {:induction false} SumLiveRemove(live: set<Live>, f: Field, l: Live)
    requires l in live
    ensures SumLive(live, f) == Weight(l, f) + SumLive(live - {l}, f)
    decreases live
  {
    var k :| k in live && SumLive(live, f) == Weight(k, f) + SumLive(live - {k}, f);
    if l != k {
      SumLiveRemove(live - {k}, f, l);
      assert live - {k} - {l} == live - {l} - {k};
      SumLiveRemove(live - {l}, f, k);
    }
  }

  lemma LiveBytesAdd(live: set<Live>, l: Live, segment: nat, f: Field)
    requires l !in live
    ensures LiveBytes(live + {l}, segment, f)
         == LiveBytes(live, segment, f) + if l.segment == segment then Weight(l, f) else 0
  {
    var mine, mine' := (set k | k in live && k.segment == segment), (set k | k in live + {l} && k.segment == segment);
    if l.segment == segment {
      assert mine' - {l} == mine;
      SumLiveRemove(mine', f, l);
    } else {
      assert mine' == mine;
    }
  }

  lemma {:induction false} FirstsAreLive(records: seq<ReuseRecord>)
    ensures Firsts(records) <= AllLive(records)
    ensures forall l :: l in AllLive(records) ==> HasKey(Firsts(records), l.segment, l.block)
  {
    if records != [] {
      var n := |records| - 1;
      FirstsAreLive(records[..n]);
      assert records == records[..n] + [records[n]];
      assert AllLive(records) == AllLive(records[..n]) + {LiveOf(records[n])};
      var before, last := Firsts(records[..n]), LiveOf(records[n]);
      forall l | l in AllLive(records)
        ensures HasKey(Firsts(records), l.segment, l.block)
      {
        if l in AllLive(records[..n]) {
          var k :| k in before && k.segment == l.segment && k.block == l.block;
          assert k in Firsts(records);
        } else if !HasKey(before, last.segment, last.block) {
          assert last in Firsts(records);
        }
      }
    }
  }

  /** For consistent records, order and repetition do not matter: what counts is the set of live blocks. */
  lemma FirstsOfConsistent(records: seq<ReuseRecord>)
    requires Consistent(AllLive(records))
    ensures Firsts(records) == AllLive(records)
  {
    FirstsAreLive(records);
    forall l | l in AllLive(records)
      ensures l in Firsts(records)
    {
      assert HasKey(Firsts(records), l.segment, l.block);
    }
  }

  // ------------------------------------------------------------- the selection

  function SmallCount(segments: seq<SegmentRecord>): nat {
    if segments == [] then 0
    else SmallCount(segments[..|segments| - 1]) + if segments[|segments| - 1].fileLen <= SMALL then 1 else 0
  }

  predicate Fragmented(segments: seq<SegmentRecord>) {
    SmallCount(segments) >= MIN_FRAGMENTS
  }

  /** A tiny fragment among many, or a segment at least half dead with a mebibyte to reclaim. */
  predicate WorthRewriting(segment: SegmentRecord, stored: nat, fragmented: bool) {
    || (fragmented && segment.fileLen <= SMALL)
    || (stored + DEAD_THRESHOLD <= segment.payloadLen && stored <= segment.payloadLen / 2)
  }

  ghost function LivePlain(segments: seq<SegmentRecord>, live: set<Live>): seq<nat> {
    seq(|segments|, i requires 0 <= i < |segments| => LiveBytes(live, i, Plain))
  }

  ghost function Candidates(segments: seq<SegmentRecord>, live: set<Live>): set<nat> {
    set i: nat | i < |segments| && WorthRewriting(segments[i], LiveBytes(live, i, Stored), Fragmented(segments))
  }

  /** The packer's order: by unique live plaintext, then by ordinal. */
  predicate NotAfter(plain: seq<nat>, i: nat, j: nat)
    requires i < |plain| && j < |plain|
  {
    plain[i] < plain[j] || (plain[i] == plain[j] && i <= j)
  }

  ghost function UpTo(candidates: set<nat>, plain: seq<nat>, j: nat): set<nat>
    requires j < |plain| && Within(candidates, plain)
  {
    set i | i in candidates && NotAfter(plain, i, j)
  }

  /** A candidate is rewritten when it and every candidate before it fit the budget together. */
  ghost function Selection(candidates: set<nat>, plain: seq<nat>, budget: nat): set<nat>
    requires Within(candidates, plain)
  {
    set j | j in candidates && Sum(UpTo(candidates, plain, j), plain) <= budget
  }

  ghost predicate WellReferenced(segments: seq<SegmentRecord>, records: seq<ReuseRecord>) {
    && OrdinalsInRange(segments, records)
    && (forall i :: 0 <= i < |segments| ==> LiveBytes(Firsts(records), i, Stored) <= segments[i].payloadLen)
  }

  ghost function Chosen(segments: seq<SegmentRecord>, live: set<Live>): set<nat> {
    Selection(Candidates(segments, live), LivePlain(segments, live), REWRITE_BUDGET)
  }

  // ------------------------------------------------------- optimality of the choice

  lemma {:induction false} Greatest(s: set<nat>, plain: seq<nat>) returns (m: nat)
    requires s != {} && Within(s, plain)
    ensures m in s && forall i :: i in s ==> NotAfter(plain, i, m)
    decreases s
  {
    var x :| x in s;
    if s == {x} {
      m := x;
    } else {
      var rest := Greatest(s - {x}, plain);
      m := if NotAfter(plain, x, rest) then rest else x;
      forall i | i in s
        ensures NotAfter(plain, i, m)
      {
        assert i == x || i in s - {x};
      }
    }
  }

  lemma {:induction false} Least(s: set<nat>, plain: seq<nat>) returns (m: nat)
    requires s != {} && Within(s, plain)
    ensures m in s && forall i :: i in s ==> NotAfter(plain, m, i)
    decreases s
  {
    var x :| x in s;
    if s == {x} {
      m := x;
    } else {
      var rest := Least(s - {x}, plain);
      m := if NotAfter(plain, x, rest) then x else rest;
      forall i | i in s
        ensures NotAfter(plain, m, i)
      {
        assert i == x || i in s - {x};
      }
    }
  }

  /** The choice is closed downwards in the packer's order. */
  lemma SelectionClosed(candidates: set<nat>, plain: seq<nat>, budget: nat, i: nat, j: nat)
    requires Within(candidates, plain)
    requires j in Selection(candidates, plain, budget) && i in candidates && NotAfter(plain, i, j)
    ensures i in Selection(candidates, plain, budget)
  {
    assert UpTo(candidates, plain, i) <= UpTo(candidates, plain, j);
    SumSubset(UpTo(candidates, plain, i), UpTo(candidates, plain, j), plain);
  }

  lemma SelectionWithinBudget(candidates: set<nat>, plain: seq<nat>, budget: nat)
    requires Within(candidates, plain)
    ensures Sum(Selection(candidates, plain, budget), plain) <= budget
  {
    var chosen := Selection(candidates, plain, budget);
    if chosen != {} {
      var m := Greatest(chosen, plain);
      forall i | i in UpTo(candidates, plain, m)
        ensures i in chosen
      {
        SelectionClosed(candidates, plain, budget, i, m);
      }
      assert chosen == UpTo(candidates, plain, m);
    }
  }

  /** Exchange: no other set of at least as many members weighs less than a downward-closed one. */
  lemma {:induction false} PrefixIsLightest(prefix: set<nat>, other: set<nat>, plain: seq<nat>)
    requires Within(prefix, plain) && Within(other, plain)
    requires forall i, j :: i in prefix && j in other - prefix ==> plain[i] <= plain[j]
    requires |other| >= |prefix|
    ensures Sum(prefix, plain) <= Sum(other, plain)
    decreases prefix - other
  {
    if a: nat :| a in prefix && a !in other {
      assert |prefix| == |prefix - other| + |prefix * other| by {
        assert prefix == (prefix - other) + (prefix * other);
      }
      assert |other| == |other - prefix| + |prefix * other| by {
        assert other == (other - prefix) + (prefix * other);
      }
      assert a in prefix - other && |prefix - other| > 0;
      var b: nat :| b in other - prefix;
      var swapped := other - {b} + {a};
      SumRemove(other, plain, b);
      SumAdd(other - {b}, plain, a);
      assert prefix - swapped == prefix - other - {a};
      PrefixIsLightest(prefix, swapped, plain);
    } else {
      assert prefix <= other;
      SumSubset(prefix, other, plain);
    }
  }

  lemma ChosenAndNext(candidates: set<nat>, plain: seq<nat>, budget: nat, x: nat)
    requires Within(candidates, plain) && x in candidates && x !in Selection(candidates, plain, budget)
    requires forall i :: i in candidates - Selection(candidates, plain, budget) ==> NotAfter(plain, x, i)
    ensures UpTo(candidates, plain, x) == Selection(candidates, plain, budget) + {x}
  {
    var chosen := Selection(candidates, plain, budget);
    forall i | i in candidates
      ensures i in UpTo(candidates, plain, x) <==> i in chosen + {x}
    {
      if i in chosen && !NotAfter(plain, i, x) {
        SelectionClosed(candidates, plain, budget, x, i);
      } else if i !in chosen {
        assert i in candidates - chosen;
      }
    }
  }

  /** No set of candidates within the budget has more members than the choice. */
  lemma SelectionOptimal(candidates: set<nat>, plain: seq<nat>, budget: nat, other: set<nat>)
    requires Within(candidates, plain) && other <= candidates && Sum(other, plain) <= budget
    ensures |other| <= |Selection(candidates, plain, budget)|
  {
    var chosen := Selection(candidates, plain, budget);
    if candidates - chosen == {} {
      SubsetSize(other, chosen);
    } else if |other| > |chosen| {
      var x := Least(candidates - chosen, plain);
      ChosenAndNext(candidates, plain, budget, x);
      var prefix := chosen + {x};
      forall i, j | i in prefix && j in other - prefix
        ensures plain[i] <= plain[j]
      {
        assert i in UpTo(candidates, plain, x) && j in candidates - chosen;
      }
      PrefixIsLightest(prefix, other, plain);
    }
  }

  /** What the packer documents of its consolidation: it stays within 64 MiB of unique live plaintext, it
  takes as many segments as any choice within that budget could, and every choice is worth rewriting. */
  lemma ChosenIsBest(segments: seq<SegmentRecord>, live: set<Live>)
    ensures var candidates, plain := Candidates(segments, live), LivePlain(segments, live);
            && Chosen(segments, live) <= candidates && Sum(Chosen(segments, live), plain) <= REWRITE_BUDGET
            && (forall other :: other <= candidates && Sum(other, plain) <= REWRITE_BUDGET ==>
                  |other| <= |Chosen(segments, live)|)
            && (Sum(candidates, plain) <= REWRITE_BUDGET ==> Chosen(segments, live) == candidates)
  {
    var candidates, plain := Candidates(segments, live), LivePlain(segments, live);
    SelectionWithinBudget(candidates, plain, REWRITE_BUDGET);
    forall other | other <= candidates && Sum(other, plain) <= REWRITE_BUDGET
      ensures |other| <= |Chosen(segments, live)|
    {
      SelectionOptimal(candidates, plain, REWRITE_BUDGET, other);
    }
    if Sum(candidates, plain) <= REWRITE_BUDGET {
      forall j | j in candidates
        ensures j in Chosen(segments, live)
      {
        SumSubset(UpTo(candidates, plain, j), candidates, plain);
      }
      assert Chosen(segments, live) == candidates;
    }
  }

  ghost predicate OrdinalsInRange(segments: seq<SegmentRecord>, records: seq<ReuseRecord>) {
    forall r :: r in records ==> r.block.segmentOrdinal < |segments|
  }

  /** Permuting the records, or repeating some, changes neither acceptance nor the choice. */
  lemma ChoiceIgnoresOrder(segments: seq<SegmentRecord>, records: seq<ReuseRecord>, others: seq<ReuseRecord>)
    requires AllLive(records) == AllLive(others) && Consistent(AllLive(records))
    ensures Chosen(segments, Firsts(records)) == Chosen(segments, Firsts(others))
    ensures WellReferenced(segments, records) <==> WellReferenced(segments, others)
  {
    FirstsOfConsistent(records);
    FirstsOfConsistent(others);
    if OrdinalsInRange(segments, records) {
      SameOrdinals(segments, records, others);
    }
    if OrdinalsInRange(segments, others) {
      SameOrdinals(segments, others, records);
    }
  }

  lemma SameOrdinals(segments: seq<SegmentRecord>, records: seq<ReuseRecord>, others: seq<ReuseRecord>)
    requires AllLive(records) == AllLive(others) && OrdinalsInRange(segments, records)
    ensures OrdinalsInRange(segments, others)
  {
    forall r | r in others
      ensures r.block.segmentOrdinal < |segments|
    {
      assert LiveOf(r) in AllLive(others);
      var s :| s in records && LiveOf(s) == LiveOf(r);
    }
  }

  // ------------------------------------------------------------------- the code

  /** The library sort by `(plain[index], index)`, as insertion into a sorted list. */
  function InsertSorted(sorted: seq<nat>, plain: seq<nat>, x: nat): (r: seq<nat>)
    requires x < |plain| && forall k :: 0 <= k < |sorted| ==> sorted[k] < |plain|
    ensures |r| == |sorted| + 1 && forall k :: 0 <= k < |r| ==> r[k] < |plain|
    ensures forall i :: i in r <==> i == x || i in sorted
  {
    if sorted == [] || NotAfter(plain, x, sorted[0]) then [x] + sorted
    else
      assert forall i :: i in sorted <==> i == sorted[0] || i in sorted[1..];
      [sorted[0]] + InsertSorted(sorted[1..], plain, x)
  }

  function SortByPlain(indices: seq<nat>, plain: seq<nat>): (r: seq<nat>)
    requires forall k :: 0 <= k < |indices| ==> indices[k] < |plain|
    ensures |r| == |indices| && forall k :: 0 <= k < |r| ==> r[k] < |plain|
    ensures forall i :: i in r <==> i in indices
  {
    if indices == [] then []
    else
      assert forall i :: i in indices <==> i == indices[0] || i in indices[1..];
      InsertSorted(SortByPlain(indices[1..], plain), plain, indices[0])
  }

  ghost predicate Ordered(sorted: seq<nat>, plain: seq<nat>)
    requires forall k :: 0 <= k < |sorted| ==> sorted[k] < |plain|
  {
    forall j, k :: 0 <= j < k < |sorted| ==> NotAfter(plain, sorted[j], sorted[k]) && sorted[j] != sorted[k]
  }

  lemma {:induction false} InsertKeepsOrder(sorted: seq<nat>, plain: seq<nat>, x: nat)
    requires x < |plain| && x !in sorted && (forall k :: 0 <= k < |sorted| ==> sorted[k] < |plain|)
    requires Ordered(sorted, plain)
    ensures Ordered(InsertSorted(sorted, plain, x), plain)
  {
    var r := InsertSorted(sorted, plain, x);
    if sorted != [] && !NotAfter(plain, x, sorted[0]) {
      InsertKeepsOrder(sorted[1..], plain, x);
      forall k | 0 < k < |r|
        ensures NotAfter(plain, r[0], r[k]) && r[0] != r[k]
      {
        assert r[k] == InsertSorted(sorted[1..], plain, x)[k - 1];
        assert r[k] == x || r[k] in sorted[1..];
      }
    }
  }

  lemma {:induction false} SortOrders(indices: seq<nat>, plain: seq<nat>)
    requires forall k :: 0 <= k < |indices| ==> indices[k] < |plain|
    requires forall j, k :: 0 <= j < k < |indices| ==> indices[j] != indices[k]
    ensures Ordered(SortByPlain(indices, plain), plain)
  {
    if indices != [] {
      SortOrders(indices[1..], plain);
      InsertKeepsOrder(SortByPlain(indices[1..], plain), plain, indices[0]);
    }
  }

  ghost function Members(xs: seq<nat>): set<nat> {
    set x | x in xs
  }

  lemma MembersPrefix(sorted: seq<nat>, k: nat)
    requires k < |sorted|
    ensures Members(sorted[..k + 1]) == Members(sorted[..k]) + {sorted[k]}
  {
    assert sorted[..k + 1] == sorted[..k] + [sorted[k]];
  }

  /** In a sorted list, what is up to the `k`-th entry is the list up to there. */
  lemma UpToIsPrefix(sorted: seq<nat>, plain: seq<nat>, k: nat)
    requires (forall i :: 0 <= i < |sorted| ==> sorted[i] < |plain|) && Ordered(sorted, plain) && k < |sorted|
    ensures Within(Members(sorted), plain) && UpTo(Members(sorted), plain, sorted[k]) == Members(sorted[..k + 1])
  {
    forall i | i in Members(sorted)
      ensures NotAfter(plain, i, sorted[k]) <==> i in Members(sorted[..k + 1])
    {
      var j :| 0 <= j < |sorted| && sorted[j] == i;
      if j <= k {
        assert sorted[..k + 1][j] == i;
      } else {
        assert NotAfter(plain, sorted[k], sorted[j]) && sorted[k] != sorted[j];
      }
    }
  }

  /** The greedy walk over the sorted candidates takes exactly the closed-form selection. */
  method TakeGreedily(sorted: seq<nat>, plain: seq<nat>, budget: nat) returns (chosen: set<nat>)
    requires (forall i :: 0 <= i < |sorted| ==> sorted[i] < |plain|) && Ordered(sorted, plain)
    ensures Within(Members(sorted), plain) && chosen == Selection(Members(sorted), plain, budget)
  {
    chosen := {};
    var remaining: nat := budget;
    ghost var taken := 0;
    for k := 0 to |sorted|
      invariant taken <= k && chosen == Members(sorted[..taken])
      invariant remaining + Sum(chosen, plain) == budget
      invariant taken < k ==> plain[sorted[taken]] > remaining
    {
      if taken < k {
        assert NotAfter(plain, sorted[taken], sorted[k]);
      }
      if plain[sorted[k]] <= remaining {
        MembersPrefix(sorted, k);
        NotYetTaken(sorted, plain, k);
        SumAdd(chosen, plain, sorted[k]);
        remaining := remaining - plain[sorted[k]];
        chosen := chosen + {sorted[k]};
        taken := k + 1;
      }
    }
    GreedyIsSelection(sorted, plain, budget, taken, remaining);
  }

  lemma NotYetTaken(sorted: seq<nat>, plain: seq<nat>, k: nat)
    requires (forall i :: 0 <= i < |sorted| ==> sorted[i] < |plain|) && Ordered(sorted, plain) && k < |sorted|
    ensures sorted[k] !in Members(sorted[..k]) && Within(Members(sorted[..k]), plain)
  {
  }

  lemma GreedyIsSelection(sorted: seq<nat>, plain: seq<nat>, budget: nat, taken: nat, remaining: nat)
    requires (forall i :: 0 <= i < |sorted| ==> sorted[i] < |plain|) && Ordered(sorted, plain) && taken <= |sorted|
    requires Within(Members(sorted[..taken]), plain) && remaining + Sum(Members(sorted[..taken]), plain) == budget
    requires taken < |sorted| ==> plain[sorted[taken]] > remaining
    ensures Within(Members(sorted), plain) && Members(sorted[..taken]) == Selection(Members(sorted), plain, budget)
  {
    forall k | 0 <= k < |sorted|
      ensures sorted[k] in Selection(Members(sorted), plain, budget) <==> k < taken
      ensures sorted[k] in Members(sorted[..taken]) <==> k < taken
    {
      UpToIsPrefix(sorted, plain, k);
      if k < taken {
        assert sorted[..taken][k] == sorted[k];
        assert sorted[..k + 1] == sorted[..taken][..k + 1];
        SumSubset(Members(sorted[..k + 1]), Members(sorted[..taken]), plain);
      } else {
        MembersPrefix(sorted, taken);
        NotYetTaken(sorted, plain, taken);
        SumAdd(Members(sorted[..taken]), plain, sorted[taken]);
        PrefixSubset(sorted, taken + 1, k + 1);
        SumSubset(Members(sorted[..taken + 1]), Members(sorted[..k + 1]), plain);
        LaterNotTaken(sorted, plain, taken, k);
      }
    }
    forall i | i in Members(sorted[..taken])
      ensures i in Members(sorted)
    {
    }
  }

  lemma PrefixSubset(sorted: seq<nat>, j: nat, k: nat)
    requires j <= k <= |sorted|
    ensures Members(sorted[..j]) <= Members(sorted[..k])
  {
    assert sorted[..j] == sorted[..k][..j];
  }

  lemma LaterNotTaken(sorted: seq<nat>, plain: seq<nat>, taken: nat, k: nat)
    requires (forall i :: 0 <= i < |sorted| ==> sorted[i] < |plain|) && Ordered(sorted, plain) && taken <= k < |sorted|
    ensures sorted[k] !in Members(sorted[..taken])
  {
  }

  lemma CountOne(records: seq<ReuseRecord>, k: nat, segment: nat, f: Field)
    requires k < |records|
    ensures var l := LiveOf(records[k]);
            LiveBytes(Firsts(records[..k + 1]), segment, f)
            == LiveBytes(Firsts(records[..k]), segment, f)
               + if l.segment == segment && !HasKey(Firsts(records[..k]), l.segment, l.block) then Weight(l, f) else 0
  {
    var l := LiveOf(records[k]);
    assert records[..k + 1][..k] == records[..k];
    if !HasKey(Firsts(records[..k]), l.segment, l.block) {
      LiveBytesAdd(Firsts(records[..k]), l, segment, f);
    }
  }

  ghost predicate Counted(stored: seq<nat>, plain: seq<nat>, live: set<Live>) {
    && |stored| == |plain|
    && (forall i :: 0 <= i < |stored| ==>
        stored[i] == LiveBytes(live, i, Stored) && plain[i] == LiveBytes(live, i, Plain))
  }

  ghost predicate SeenKeys(seen: set<(nat, nat)>, live: set<Live>) {
    forall s: nat, b: nat :: (s, b) in seen <==> HasKey(live, s, b)
  }

  /** `CompactionSegments` without its selection: live bytes of each segment, each physical block counted once. */
  method CountLive(segments: seq<SegmentRecord>, records: seq<ReuseRecord>, stored: array<nat>, plain: array<nat>)
    returns (ok: bool)
    requires stored != plain && stored.Length == plain.Length == |segments|
    requires forall i :: 0 <= i < |segments| ==> stored[i] == 0 && plain[i] == 0
    modifies stored, plain
    ensures ok <==> OrdinalsInRange(segments, records)
    ensures ok ==> Counted(stored[..], plain[..], Firsts(records))
  {
    var seen: set<(nat, nat)> := {};
    NoLive(stored[..], plain[..]);
    for k := 0 to |records|
      invariant OrdinalsInRange(segments, records[..k])
      invariant SeenKeys(seen, Firsts(records[..k]))
      invariant Counted(stored[..], plain[..], Firsts(records[..k]))
    {
      var block := records[k].block;
      var index := block.segmentOrdinal;
      if index >= |segments| {
        assert records[k] in records;
        return false;
      }
      ghost var stored0, plain0 := stored[..], plain[..];
      if (index, block.segmentBlockOrdinal) !in seen {
        stored[index] := stored[index] + block.storedLen;
        plain[index] := plain[index] + block.plainLen;
      }
      CountStep(records, k, seen, stored0, plain0, stored[..], plain[..]);
      seen := seen + {(index, block.segmentBlockOrdinal)};
      assert records[..k + 1] == records[..k] + [records[k]];
    }
    assert records[..|records|] == records;
    return true;
  }

  lemma NoLive(stored: seq<nat>, plain: seq<nat>)
    requires |stored| == |plain| && forall i :: 0 <= i < |stored| ==> stored[i] == 0 && plain[i] == 0
    ensures Counted(stored, plain, Firsts([])) && SeenKeys({}, Firsts([]))
  {
    forall i: nat, f: Field
      ensures LiveBytes({}, i, f) == 0
    {
      assert (set l: Live | l in {} && l.segment == i) == {};
    }
  }

  lemma CountStep(records: seq<ReuseRecord>, k: nat, seen: set<(nat, nat)>, stored: seq<nat>, plain: seq<nat>,
                  stored': seq<nat>, plain': seq<nat>)
    requires k < |records| && SeenKeys(seen, Firsts(records[..k])) && Counted(stored, plain, Firsts(records[..k]))
    requires LiveOf(records[k]).segment < |stored|
    requires var l := LiveOf(records[k]);
             var isNew := (l.segment, l.block) !in seen;
             && stored' == stored[l.segment := stored[l.segment] + if isNew then l.stored else 0]
             && plain' == plain[l.segment := plain[l.segment] + if isNew then l.plain else 0]
    ensures Counted(stored', plain', Firsts(records[..k + 1]))
    ensures SeenKeys(seen + {(LiveOf(records[k]).segment, LiveOf(records[k]).block)}, Firsts(records[..k + 1]))
  {
    var l := LiveOf(records[k]);
    forall i | 0 <= i < |stored'|
      ensures stored'[i] == LiveBytes(Firsts(records[..k + 1]), i, Stored)
      ensures plain'[i] == LiveBytes(Firsts(records[..k + 1]), i, Plain)
    {
      CountOne(records, k, i, Stored);
      CountOne(records, k, i, Plain);
    }
    assert records[..k + 1][..k] == records[..k];
    var before, after := Firsts(records[..k]), Firsts(records[..k + 1]);
    forall s: nat, b: nat
      ensures HasKey(after, s, b) <==> HasKey(before, s, b) || (s == l.segment && b == l.block)
    {
      if s == l.segment && b == l.block && !HasKey(before, s, b) {
        assert l in after;
      }
      if HasKey(before, s, b) {
        var x :| x in before && x.segment == s && x.block == b;
        assert x in after;
      }
    }
  }

  method CompactionSegments(segments: seq<SegmentRecord>, records: seq<ReuseRecord>) returns (r: Result<set<nat>>)
    ensures WellReferenced(segments, records) ==> r == Ok(Chosen(segments, Firsts(records)))
    ensures !WellReferenced(segments, records) ==> r == Err(InvalidInput)
  {
    hide Firsts, LiveBytes, Selection, SmallCount;
    var stored, plain := new nat[|segments|](_ => 0), new nat[|segments|](_ => 0);
    var counted := CountLive(segments, records, stored, plain);
    if !counted {
      return Err(InvalidInput);
    }
    ghost var live := Firsts(records);
    var fragmented := Fragmented(segments);
    var candidates: seq<nat> := [];
    for index := 0 to |segments|
      invariant Counted(stored[..], plain[..], live)
      invariant forall i :: 0 <= i < index ==> LiveBytes(live, i, Stored) <= segments[i].payloadLen
      invariant forall k :: 0 <= k < |candidates| ==> candidates[k] < index
      invariant forall j, k :: 0 <= j < k < |candidates| ==> candidates[j] != candidates[k]
      invariant forall i: nat :: i in candidates <==> i < index && i in Candidates(segments, live)
    {
      assert stored[index] == stored[..][index];
      if stored[index] > segments[index].payloadLen {
        return Err(InvalidInput);
      }
      if WorthRewriting(segments[index], stored[index], fragmented) {
        candidates := candidates + [index];
      }
    }
    SortOrders(candidates, plain[..]);
    var sorted := SortByPlain(candidates, plain[..]);
    var chosen := TakeGreedily(sorted, plain[..], REWRITE_BUDGET);
    assert Members(sorted) == Candidates(segments, live);
    assert plain[..] == LivePlain(segments, live);
    return Ok(chosen);
  }
}
