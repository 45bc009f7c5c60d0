/** Sizes the arena allocator computes with; all of them fit in size_t. */
module ArenaSizes {
  const HEADER := 32        // sizeof(Block): owner, next, pos and size
  const NODE_SIZE := 24     // sizeof(Node): elem, cleanup and next

  /** (n + 7) & -8 */
  function RoundUp8(n: nat): (r: nat)
    ensures n <= r < n + 8 && r % 8 == 0
  {
    (n + 7) / 8 * 8
  }

  /** NewBlock's choice: twice the thread's latest block up to the limit, or the start size when it
      has none (lastSize is then negative), but always enough for the request. */
  function NewBlockSize(lastSize: int, n: nat, startSize: nat, maxSize: nat): (r: nat)
    ensures HEADER + n <= r
    ensures lastSize < 0 ==> startSize <= r && (r > HEADER + n ==> r <= startSize)
    ensures lastSize >= 0 ==> (2 * lastSize <= r || maxSize <= r) && (r > HEADER + n ==> r <= 2 * lastSize && r <= maxSize)
  {
    var size := if lastSize < 0 then startSize else if 2 * lastSize > maxSize then maxSize else 2 * lastSize;
    if size < HEADER + n then HEADER + n else size
  }

  function Pow2(k: nat): (r: nat)
    ensures r > 0
  {
    if k == 0 then 1 else 2 * Pow2(k - 1)
  }

  /** The start size doubled k times, up to the limit. */
  function NthSize(startSize: nat, maxSize: nat, k: nat): nat {
    if startSize * Pow2(k) < maxSize then startSize * Pow2(k) else maxSize
  }

  /** The sizes of n blocks together. */
  function SizesUpTo(startSize: nat, maxSize: nat, n: nat): nat {
    if n == 0 then 0 else SizesUpTo(startSize, maxSize, n - 1) + NthSize(startSize, maxSize, n - 1)
  }

  /** Requests that fit make the k-th block of a thread k times doubled. */
  lemma NextIsDoubled(startSize: nat, maxSize: nat, k: nat, n: nat)
    requires startSize <= maxSize && HEADER + n <= NthSize(startSize, maxSize, k)
    ensures NewBlockSize(if k == 0 then -1 else NthSize(startSize, maxSize, k - 1), n, startSize, maxSize) == NthSize(startSize, maxSize, k)
  {
    if k > 0 {
      assert startSize * Pow2(k) == 2 * (startSize * Pow2(k - 1));
    }
  }

  /** Below the limit the sizes add up to one block less than twice as many. */
  lemma {:induction false} SizesAddUp(startSize: nat, maxSize: nat, n: nat)
    requires n > 0 ==> startSize * Pow2(n - 1) <= maxSize
    ensures SizesUpTo(startSize, maxSize, n) == startSize * (Pow2(n) - 1)
  {
    if n > 1 {
      assert startSize * Pow2(n - 1) == 2 * (startSize * Pow2(n - 2));
    }
    if n > 0 {
      SizesAddUp(startSize, maxSize, n - 1);
      assert startSize * (Pow2(n) - 1) == startSize * (Pow2(n - 1) - 1) + startSize * Pow2(n - 1);
    }
  }
}
