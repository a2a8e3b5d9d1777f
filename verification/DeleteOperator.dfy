/**
 The Delete operator on the rows of one position list: what it locks, and what its rollback releases when the
 transaction also deletes rows that it has inserted itself.
 */
module DeleteOperator {
  import opened Basics

  const INVALID_TRANSACTION_ID: nat := 0

  /** Another transaction holds the row. */
  predicate Foreign(tid: nat, t: nat) {
    tid != INVALID_TRANSACTION_ID && tid != t
  }

  ghost predicate Valid(positions: seq<nat>, rows: nat) {
    Distinct(positions) && forall i :: 0 <= i < |positions| ==> positions[i] < rows
  }

  /** The first place from `i` on whose row meets `stop`, or the end. */
  ghost function FirstPlace(tids: seq<nat>, positions: seq<nat>, stop: nat -> bool, i: nat): (n: nat)
    requires Valid(positions, |tids|) && i <= |positions|
    ensures i <= n <= |positions| && (n < |positions| ==> stop(tids[positions[n]]))
    ensures forall k :: i <= k < n ==> !stop(tids[positions[k]])
    decreases |positions| - i
  {
    if i == |positions| || stop(tids[positions[i]]) then i else FirstPlace(tids, positions, stop, i + 1)
  }

  /** Where the operator stops: at the first row that another transaction holds. */
  ghost function Conflict(tids: seq<nat>, positions: seq<nat>, t: nat): (n: nat)
    requires Valid(positions, |tids|)
    ensures n <= |positions| && (n < |positions| ==> Foreign(tids[positions[n]], t))
    ensures forall k :: 0 <= k < n ==> !Foreign(tids[positions[k]], t)
  {
    FirstPlace(tids, positions, (tid: nat) => Foreign(tid, t), 0)
  }

  /** Where its rollback stops: at the first row that the transaction does not hold. */
  ghost function RollbackStop(tids: seq<nat>, positions: seq<nat>, t: nat): (n: nat)
    requires Valid(positions, |tids|)
    ensures n <= |positions| && (n < |positions| ==> tids[positions[n]] != t)
    ensures forall k :: 0 <= k < n ==> tids[positions[k]] == t
  {
    FirstPlace(tids, positions, (tid: nat) => tid != t, 0)
  }

  /** The first `n` rows are locked, own inserts among them hidden; nothing else differs. */
  ghost predicate Locked(before: seq<nat>, now: seq<nat>, positions: seq<nat>, n: nat, t: nat) {
    |now| == |before| && Valid(positions, |before|) && n <= |positions| &&
    (forall i :: 0 <= i < n ==> now[positions[i]] == if before[positions[i]] == t then INVALID_TRANSACTION_ID else t) &&
    forall r :: 0 <= r < |before| && r !in positions[..n] ==> now[r] == before[r]
  }

  /** The first `n` rows are free, and nothing else differs. */
  ghost predicate Released(before: seq<nat>, now: seq<nat>, positions: seq<nat>, n: nat) {
    |now| == |before| && Valid(positions, |before|) && n <= |positions| &&
    (forall i :: 0 <= i < n ==> now[positions[i]] == INVALID_TRANSACTION_ID) &&
    forall r :: 0 <= r < |before| && r !in positions[..n] ==> now[r] == before[r]
  }

  lemma NotBefore(positions: seq<nat>, i: nat)
    requires Distinct(positions) && i < |positions|
    ensures positions[i] !in positions[..i] && positions[..i + 1] == positions[..i] + [positions[i]]
  {
  }

  class Delete {
    var positions: seq<nat>
    var transactionId: nat

    constructor (input: seq<nat>)
      ensures positions == input && transactionId == 0
    {
      positions, transactionId := input, 0;
    }

    /** _on_execute: locks the rows one after the other, and fails at the first that another transaction holds. */
    method OnExecute(tids: array<nat>, t: nat) returns (ok: bool)
      requires Valid(positions, tids.Length) && t != INVALID_TRANSACTION_ID
      modifies this`transactionId, tids
      ensures transactionId == t && positions == old(positions)
      ensures Locked(old(tids[..]), tids[..], positions, Conflict(old(tids[..]), positions, t), t)
      ensures ok <==> Conflict(old(tids[..]), positions, t) == |positions|
    {
      ghost var before := tids[..];
      transactionId := t;
      for i := 0 to |positions|
        invariant positions == old(positions) && transactionId == t
        invariant i <= Conflict(before, positions, t) && Locked(before, tids[..], positions, i, t)
      {
        var row := positions[i];
        NotBefore(positions, i);
        assert tids[row] == before[row];
        if tids[row] == INVALID_TRANSACTION_ID {
          tids[row] := t;
        } else if tids[row] == t {
          tids[row] := INVALID_TRANSACTION_ID;
        } else {
          return false;
        }
      }
      return true;
    }

    /** _on_commit_records: every row ends with the commit id and stays locked. */
    method OnCommitRecords(ends: array<nat>, cid: nat)
      requires Valid(positions, ends.Length)
      modifies ends
      ensures forall i :: 0 <= i < |positions| ==> ends[positions[i]] == cid
      ensures forall r :: 0 <= r < ends.Length && r !in positions ==> ends[r] == old(ends[r])
    {
      for i := 0 to |positions|
        invariant forall k :: 0 <= k < i ==> ends[positions[k]] == cid
        invariant forall r :: 0 <= r < ends.Length && r !in positions[..i] ==> ends[r] == old(ends[r])
      {
        NotBefore(positions, i);
        ends[positions[i]] := cid;
      }
    }

    /** _on_rollback_records: unlocks rows until one is not held by the transaction. */
    method OnRollbackRecords(tids: array<nat>)
      requires Valid(positions, tids.Length) && transactionId != INVALID_TRANSACTION_ID
      modifies tids
      ensures Released(old(tids[..]), tids[..], positions, RollbackStop(old(tids[..]), positions, transactionId))
    {
      ghost var before := tids[..];
      for i := 0 to |positions|
        invariant i <= RollbackStop(before, positions, transactionId) && Released(before, tids[..], positions, i)
      {
        var row := positions[i];
        NotBefore(positions, i);
        assert tids[row] == before[row];
        if tids[row] != transactionId {
          return;
        }
        tids[row] := INVALID_TRANSACTION_ID;
      }
    }
  }

  // ---------------------------------------------------------------- what a rollback leaves

  /** Every row that was free before the operator is free again after its rollback. */
  ghost predicate AllFree(before: seq<nat>, after: seq<nat>, positions: seq<nat>)
    requires |before| == |after| && Valid(positions, |before|)
  {
    forall i :: 0 <= i < |positions| && before[positions[i]] == INVALID_TRANSACTION_ID ==>
      after[positions[i]] == INVALID_TRANSACTION_ID
  }

  /** Among the rows that the operator goes through, those that the transaction has inserted come last. */
  ghost predicate OwnRowsLast(before: seq<nat>, positions: seq<nat>, t: nat)
    requires Valid(positions, |before|)
  {
    forall i, j :: 0 <= i < j < Conflict(before, positions, t) && before[positions[i]] == t ==>
      before[positions[j]] == t
  }

  /**
   Executing and rolling back releases every row that was free exactly when no own insert stands before a row
   that was locked: at an own insert, which is not held any more, the rollback stops.
   */
  lemma RollbackReleasesIff(before: seq<nat>, locked: seq<nat>, after: seq<nat>, positions: seq<nat>, t: nat)
    requires Valid(positions, |before|) && t != INVALID_TRANSACTION_ID
    requires Locked(before, locked, positions, Conflict(before, positions, t), t)
    requires Released(locked, after, positions, RollbackStop(locked, positions, t))
    ensures AllFree(before, after, positions) <==> OwnRowsLast(before, positions, t)
  {
    var n, stop := Conflict(before, positions, t), RollbackStop(locked, positions, t);
    forall i, k | 0 <= i < |positions| && 0 <= k <= i ensures positions[i] !in positions[..k] {
    }
    forall i | 0 <= i < |positions| ensures i < n || locked[positions[i]] == before[positions[i]] {
    }
    if stop < n && !OwnRowsLast(before, positions, t) {
      var i, j :| 0 <= i < j < n && before[positions[i]] == t && before[positions[j]] != t;
      assert stop <= i && after[positions[j]] == locked[positions[j]] == t;
    }
  }

  /** Rows of others, and those outside the list, are left as they were. */
  lemma RollbackLeavesOthers(before: seq<nat>, locked: seq<nat>, after: seq<nat>, positions: seq<nat>, t: nat, r: nat)
    requires Valid(positions, |before|) && t != INVALID_TRANSACTION_ID && r < |before|
    requires Locked(before, locked, positions, Conflict(before, positions, t), t)
    requires Released(locked, after, positions, RollbackStop(locked, positions, t))
    requires r !in positions || Foreign(before[r], t)
    ensures after[r] == before[r]
  {
    assert locked[r] == before[r];
  }

  function TwoNumbers(a: nat, b: nat): seq<nat> {
    [a, b]
  }

  /** An instance: an own insert and behind it a free row.  After the rollback the transaction still holds the row. */
  lemma RowStaysLocked(t: nat)
    requires t != INVALID_TRANSACTION_ID
    ensures var before, after, positions := TwoNumbers(t, 0), TwoNumbers(0, t), TwoNumbers(0, 1);
      Valid(positions, 2) && Conflict(before, positions, t) == 2 &&
      Locked(before, after, positions, 2, t) && RollbackStop(after, positions, t) == 0 &&
      Released(after, after, positions, 0) && !AllFree(before, after, positions)
  {
    var before, after, positions := TwoNumbers(t, 0), TwoNumbers(0, t), TwoNumbers(0, 1);
    assert before[positions[1]] == INVALID_TRANSACTION_ID && after[positions[1]] == t;
    assert positions[..2] == positions;
    assert Valid(positions, 2);
  }
}
