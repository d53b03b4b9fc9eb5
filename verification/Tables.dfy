/** Tables of equally long records laid end to end. */
module Tables {
  import opened Basics

  function Join(parts: seq<Bytes>): Bytes {
    if parts == [] then [] else parts[0] + Join(parts[1..])
  }

  ghost predicate Uniform(parts: seq<Bytes>, size: nat) {
    forall i :: 0 <= i < |parts| ==> |parts[i]| == size
  }

  lemma {:induction false} JoinLength(parts: seq<Bytes>, size: nat)
    requires Uniform(parts, size)
    ensures |Join(parts)| == |parts| * size
  {
    if parts != [] {
      JoinLength(parts[1..], size);
      assert |parts| * size == size + (|parts| - 1) * size;
    }
  }

  lemma {:induction false} JoinAppend(parts: seq<Bytes>, part: Bytes)
    ensures Join(parts + [part]) == Join(parts) + part
  {
    if parts == [] {
      assert [part][1..] == [];
      assert parts + [part] == [part];
    } else {
      assert (parts + [part])[1..] == parts[1..] + [part];
      JoinAppend(parts[1..], part);
    }
  }

  lemma {:induction false} JoinAt(parts: seq<Bytes>, size: nat, i: nat)
    requires Uniform(parts, size) && i < |parts|
    ensures 0 <= i * size && i * size + size <= |Join(parts)|
    ensures Join(parts)[i * size..i * size + size] == parts[i]
  {
    JoinLength(parts, size);
    var rest := Join(parts[1..]);
    assert Join(parts) == parts[0] + rest;
    if i == 0 {
      assert 0 * size == 0;
    } else {
      JoinAt(parts[1..], size, i - 1);
      assert i * size == (i - 1) * size + size;
      assert (parts[0] + rest)[i * size..i * size + size] == rest[(i - 1) * size..(i - 1) * size + size];
    }
  }

  /** The `i`-th record of a table found at `start` in `bytes`. */
  lemma TableAt(bytes: Bytes, start: nat, parts: seq<Bytes>, size: nat, i: nat, lo: nat)
    requires Uniform(parts, size) && i < |parts| && lo == i * size
    requires start + |Join(parts)| <= |bytes| && bytes[start..start + |Join(parts)|] == Join(parts)
    ensures start + lo + size <= |bytes| && bytes[start + lo..start + lo + size] == parts[i]
  {
    JoinAt(parts, size, i);
    hide *;
    SliceOfSlice(bytes, start, |Join(parts)|, lo, size);
  }

  lemma SliceOfSlice(bytes: Bytes, start: nat, len: nat, lo: nat, size: nat)
    requires start + len <= |bytes| && lo + size <= len
    ensures bytes[start..start + len][lo..lo + size] == bytes[start + lo..start + lo + size]
  {
    var outer := bytes[start..start + len];
    var inner, target := outer[lo..lo + size], bytes[start + lo..start + lo + size];
    forall i | 0 <= i < size
      ensures inner[i] == target[i]
    {
      assert outer[lo + i] == bytes[start + (lo + i)];
    }
  }

  /** A table whose every record is known is the join of those records. */
  lemma {:induction false} JoinCovers(table: Bytes, parts: seq<Bytes>, size: nat)
    requires Uniform(parts, size) && |table| == |parts| * size
    requires forall i :: 0 <= i < |parts| ==>
              0 <= i * size && i * size + size <= |table| && table[i * size..i * size + size] == parts[i]
    ensures Join(parts) == table
    decreases |parts|
  {
    if parts == [] {
      assert |table| == 0;
    } else {
      var rest, tail := parts[1..], table[size..];
      assert |table| == size + |rest| * size;
      assert 0 * size == 0 && table[0 * size..0 * size + size] == parts[0];
      forall i | 0 <= i < |rest|
        ensures 0 <= i * size && i * size + size <= |tail| && tail[i * size..i * size + size] == rest[i]
      {
        assert (i + 1) * size == i * size + size;
        assert table[(i + 1) * size..(i + 1) * size + size] == parts[i + 1];
        assert i * size + size <= |rest| * size by {
          assert (|rest| - i - 1) * size >= 0;
          assert |rest| * size == i * size + size + (|rest| - i - 1) * size;
        }
      }
      JoinCovers(tail, rest, size);
      assert table == table[..size] + tail;
    }
  }

  /** One more record written after the first `i`. */
  lemma JoinNext(parts: seq<Bytes>, i: nat)
    requires i < |parts|
    ensures Join(parts[..i + 1]) == Join(parts[..i]) + parts[i]
  {
    JoinAppend(parts[..i], parts[i]);
    assert parts[..i + 1] == parts[..i] + [parts[i]];
  }

  lemma JoinAll(parts: seq<Bytes>)
    ensures Join(parts[..|parts|]) == Join(parts)
  {
    assert parts[..|parts|] == parts;
  }

  lemma JoinNone(parts: seq<Bytes>)
    ensures Join(parts[..0]) == []
  {
  }
}
