/** The two metrics by which the logical delete loop selects a chunk. */
module MvccMetrics {
  import opened Mvcc
  import opened MvccInvariant

  function InvalidRows(s: State, chunk: nat): set<RowId> {
    set r | r in s.rows && r.chunk == chunk && s.rows[r].end != MAX_COMMIT_ID
  }

  /** The two criteria of the logical delete loop: 60 % of the rows invalid, the last change 100 commits ago. */
  predicate WorthCleaning(s: State, chunk: nat)
    requires IsPresent(s, chunk)
  {
    && s.slots[chunk].size > 0 && 10 * |InvalidRows(s, chunk)| >= 6 * s.slots[chunk].size
    && forall r :: r in InvalidRows(s, chunk) ==> s.rows[r].end + 100 <= s.last
  }

  /** The loop over the end commit ids of a chunk: the highest of those that are set, 0 if none is. */
  method HighestEndCommitId(s: State, chunk: nat) returns (highest: nat)
    requires Inv(s) && IsPresent(s, chunk)
    ensures forall r :: r in InvalidRows(s, chunk) ==> s.rows[r].end <= highest
    ensures highest == 0 || exists r :: r in InvalidRows(s, chunk) && s.rows[r].end == highest
  {
    assert SlotOk(s, chunk);
    highest := 0;
    for offset := 0 to s.slots[chunk].size
      invariant forall o: nat :: o < offset && s.rows[RowId(chunk, o)].end != MAX_COMMIT_ID ==>
        s.rows[RowId(chunk, o)].end <= highest
      invariant highest == 0 || exists r :: r in InvalidRows(s, chunk) && s.rows[r].end == highest
    {
      var commitId := s.rows[RowId(chunk, offset)].end;
      if commitId != MAX_COMMIT_ID && commitId > highest {
        highest := commitId;
        assert RowId(chunk, offset) in InvalidRows(s, chunk);
      }
    }
    forall r | r in InvalidRows(s, chunk) ensures s.rows[r].end <= highest {
      assert RowOk(s, r) && r == RowId(chunk, r.offset);
    }
  }

  /** Both criteria; `invalidRowCount` is the chunk's own count. */
  method IsWorthCleaning(s: State, chunk: nat, invalidRowCount: nat) returns (worth: bool)
    requires Inv(s) && IsPresent(s, chunk) && invalidRowCount == |InvalidRows(s, chunk)|
    ensures worth == WorthCleaning(s, chunk)
  {
    var size := s.slots[chunk].size;
    if size == 0 || 10 * invalidRowCount < 6 * size {
      return false;
    }
    var highest := HighestEndCommitId(s, chunk);
    assert highest == 0 ==> exists r :: r in InvalidRows(s, chunk);
    return highest + 100 <= s.last;
  }
}
