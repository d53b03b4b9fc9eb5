/** What a catalog that the parser has accepted promises its reader, whoever wrote it. */
module AcceptedCatalogs {
  import opened Basics
  import opened Records
  import opened Tables
  import opened Catalogs
  import opened CatalogRoundTrip

  /** The records that the pages of a kind hold together, by their lengths. */
  function Held(pages: seq<PageRecord>, kind: PageKind): int {
    if pages == [] then 0
    else
      var last := pages[|pages| - 1];
      Held(pages[..|pages| - 1], kind)
      + if last.kind != kind then 0 else if kind.BlockMap? then (last.plainLen - 16) / 48 else (last.plainLen - 16) / 32
  }

  /** Up to here the pages hold the first records, all of them full but the last. */
  function FirstRecords(total: nat, pages: nat, capacity: nat): nat {
    Min(total, pages * capacity)
  }

  lemma OneMorePage(total: nat, n: nat, capacity: nat)
    ensures FirstRecords(total, n + 1, capacity) == FirstRecords(total, n, capacity) + RecordsOnPage(total, n, capacity)
  {
    assert (n + 1) * capacity == n * capacity + capacity;
  }

  lemma EnoughPages(total: nat, capacity: nat)
    requires capacity > 0
    ensures FirstRecords(total, DivCeil(total, capacity), capacity) == total
  {
    assert total == capacity * (total / capacity) + total % capacity;
    assert (total / capacity + 1) * capacity == capacity * (total / capacity) + capacity;
  }

  lemma {:induction false} HeldSoFar(d: CatalogData, n: nat)
    requires DataPagesValid(d) && n <= |d.pages|
    ensures Held(d.pages[..n], BlockMap) == FirstRecords(d.totalBlocks, Min(n, d.mapPageCount), 341)
    ensures Held(d.pages[..n], Reuse) == FirstRecords(d.totalBlocks, Max(0, n - d.mapPageCount), 511)
  {
    if n > 0 {
      hide FirstRecords, RecordsOnPage;
      HeldSoFar(d, n - 1);
      var page := d.pages[n - 1];
      assert d.pages[..n][..n - 1] == d.pages[..n - 1] && d.pages[..n][n - 1] == page;
      assert PageOk(page, n - 1, d.mapPageCount, d.totalBlocks, PageStart(d.pages, n - 1));
      if n - 1 < d.mapPageCount {
        OneMorePage(d.totalBlocks, n - 1, 341);
      } else {
        OneMorePage(d.totalBlocks, n - 1 - d.mapPageCount, 511);
      }
    } else {
      NoRecords(d.totalBlocks);
    }
  }

  lemma NoRecords(total: nat)
    ensures FirstRecords(total, 0, 341) == 0 == FirstRecords(total, 0, 511)
  {
  }

  /** The pages lie end to end, in the order of their nonces, and hold each block record and each reuse record. */
  ghost predicate PagesWhole(d: CatalogData) {
    && (forall i :: 0 <= i < |d.pages| ==> d.pages[i].nonceOrdinal == i + 1)
    && (d.pages != [] ==> d.pages[0].relativeOffset == 0)
    && (forall i :: 0 <= i < |d.pages| - 1 ==>
        d.pages[i + 1].relativeOffset == d.pages[i].relativeOffset + d.pages[i].storedLen)
    && Held(d.pages, BlockMap) == d.totalBlocks && Held(d.pages, Reuse) == d.totalBlocks
  }

  lemma PagesAreWhole(d: CatalogData)
    requires DataPagesValid(d) && PageCountsOk(d.totalBlocks, d.mapPageCount, d.reusePageCount)
    requires |d.pages| == d.mapPageCount + d.reusePageCount
    ensures PagesWhole(d)
  {
    hide RecordsOnPage, Held, PageLengthsCanonical;
    HeldSoFar(d, |d.pages|);
    assert d.pages[..|d.pages|] == d.pages;
    EnoughPages(d.totalBlocks, 341);
    EnoughPages(d.totalBlocks, 511);
    hide FirstRecords;
    forall i | 0 <= i < |d.pages| - 1
      ensures d.pages[i + 1].relativeOffset == d.pages[i].relativeOffset + d.pages[i].storedLen
    {
      assert PageOk(d.pages[i], i, d.mapPageCount, d.totalBlocks, PageStart(d.pages, i));
      assert PageOk(d.pages[i + 1], i + 1, d.mapPageCount, d.totalBlocks, PageStart(d.pages, i + 1));
    }
  }

  /** A file's path lies in the pool and is canonical, and its blocks are among those of the catalog. */
  ghost predicate FileWhole(d: CatalogData, r: FileRecord, canonical: Bytes -> bool) {
    && r.pathLen > 0 && r.pathOffset + r.pathLen <= |d.pathPool| && canonical(PoolSlice(d.pathPool, r))
    && r.firstBlock + r.blockCount <= d.totalBlocks
  }

  /** Whatever bytes the parser accepts, on any word size: every segment is a header and its payload, every file has a
  canonical path inside the pool and blocks that exist, every slot is empty or leads to a file, and the pages lie end to
  end and hold each block record and each reuse record. */
  lemma AcceptedIsWhole(bytes: Bytes, wordMax: nat, canonical: Bytes -> bool)
    requires |bytes| <= wordMax && wordMax >= MIN_WORD_MAX && Parsed(bytes, wordMax, canonical).Some?
    ensures var c := Parsed(bytes, wordMax, canonical).value;
            && AllReadable(c) && PagesWhole(Decoded(c))
            && (forall i :: 0 <= i < |Decoded(c).segments| ==>
                  Decoded(c).segments[i].fileLen == 128 + Decoded(c).segments[i].payloadLen)
            && (forall i :: 0 <= i < |Decoded(c).files| ==> FileWhole(Decoded(c), Decoded(c).files[i], canonical))
            && (forall i :: 0 <= i < |Decoded(c).pathSlots| ==>
                  Decoded(c).pathSlots[i].fileIndex == 0xFFFF_FFFF
                  || Decoded(c).pathSlots[i].fileIndex < |Decoded(c).files|)
  {
    hide Parsed, Image, Typed, Decoded, AllReadable, PagesWhole, Encoded;
    PrintOfParse(bytes, wordMax, canonical);
    AcceptedPrintable(bytes, wordMax, canonical);
    var d := Decoded(Parsed(bytes, wordMax, canonical).value);
    PagesAreWhole(d);
  }
}
