/** chunkCacheTx: the transactions of the cache, of which only the committed ones survive. */
module ChunkCacheTx {
  /** How many of the first n rows of a run are covered by its last periodic commit. commitDue: whether the commit
      interval is over after a row. */
  function LastDue(commitDue: nat -> bool, n: nat): (k: nat)
    ensures k <= n
  {
    if n == 0 then 0 else if commitDue(n - 1) then n else LastDue(commitDue, n - 1)
  }

  /** So a crash loses nothing but the rows after the last time that the interval was over. */
  lemma {:induction false} NothingDueIsLost(commitDue: nat -> bool, n: nat)
    ensures LastDue(commitDue, n) > 0 ==> commitDue(LastDue(commitDue, n) - 1)
    ensures forall j: nat :: LastDue(commitDue, n) <= j < n ==> !commitDue(j)
  {
    if n > 0 && !commitDue(n - 1) {
      NothingDueIsLost(commitDue, n - 1);
    }
  }

  /** The rows that a run has processed when it is killed. */
  function Processed(crash: nat, rows: nat): nat {
    if crash < rows then crash else rows
  }
}
