/**
  The offset-keyed log map that every revision's readLog goroutine keeps:
  each message is stored under the current offset, the offset is raised by
  one, and once the offset has reached the maximum size one key is deleted.

  As written, the deleted key is `max - offset` (with the offset already
  raised), which is never positive when the delete runs: only key 0 is ever
  removed and the map grows without bound. `Store` models that; `StoreWindow`
  is the evidently intended `offset - max`, which keeps a window of at most
  `max` consecutive keys.
 */
module OffsetLog {

  /** One readLog iteration as written: store at `offset`, raise it, delete key `max - (offset + 1)`. */
  function Store<M>(log: map<int, M>, offset: int, max: int, m: M): map<int, M>
  {
    var stored := log[offset := m];
    if offset + 1 >= max then stored - {max - (offset + 1)} else stored
  }

  /** The log after storing `msgs` in order, starting from `log` at `offset`; the offset is then `offset + |msgs|`. */
  function StoreAll<M>(log: map<int, M>, offset: int, max: int, msgs: seq<M>): map<int, M>
    decreases |msgs|
  {
    if msgs == [] then log
    else Store(StoreAll(log, offset, max, msgs[..|msgs| - 1]), offset + |msgs| - 1, max, msgs[|msgs| - 1])
  }

  /** The key a delete removes is never positive, so a positive key is only ever overwritten, never evicted. */
  lemma StoreEvictsNoPositiveKey<M>(log: map<int, M>, offset: int, max: int, m: M, k: int)
    requires k >= 1 && k in log && k != offset
    ensures k in Store(log, offset, max, m) && Store(log, offset, max, m)[k] == log[k]
  {
  }

  /**
    After any number of stores as written, every positive key that was below
    the starting offset keeps its message, and every positive key that was
    written holds the message stored there.
   */
  lemma {:induction false} StoreAllKeepsPositiveKeys<M>(log: map<int, M>, offset: int, max: int, msgs: seq<M>)
    ensures forall k :: 1 <= k < offset && k in log ==>
              k in StoreAll(log, offset, max, msgs) && StoreAll(log, offset, max, msgs)[k] == log[k]
    ensures forall k :: 1 <= k && offset <= k < offset + |msgs| ==>
              k in StoreAll(log, offset, max, msgs) && StoreAll(log, offset, max, msgs)[k] == msgs[k - offset]
    decreases |msgs|
  {
    if msgs != [] {
      var n := |msgs|;
      var front := msgs[..n - 1];
      StoreAllKeepsPositiveKeys(log, offset, max, front);
      var before := StoreAll(log, offset, max, front);
      var after := StoreAll(log, offset, max, msgs);
      assert after == Store(before, offset + n - 1, max, msgs[n - 1]);
      forall k | 1 <= k < offset && k in log
        ensures k in after && after[k] == log[k]
      {
        StoreEvictsNoPositiveKey(before, offset + n - 1, max, msgs[n - 1], k);
      }
      forall k | 1 <= k && offset <= k < offset + n
        ensures k in after && after[k] == msgs[k - offset]
      {
        if k < offset + n - 1 {
          assert front[k - offset] == msgs[k - offset];
          StoreEvictsNoPositiveKey(before, offset + n - 1, max, msgs[n - 1], k);
        }
      }
    }
  }

  /**
    Starting from the empty log at offset 0 (as every revision does), the keys
    after `|msgs|` stores are exactly 0 .. |msgs|-1, except key 0, which is
    gone once the offset has reached `max`.
   */
  lemma {:induction false} StoreAllKeysFromEmpty<M>(max: int, msgs: seq<M>)
    requires max >= 1
    ensures forall k :: k in StoreAll(map[], 0, max, msgs) <==>
              0 <= k < |msgs| && !(k == 0 && |msgs| >= max)
    decreases |msgs|
  {
    if msgs != [] {
      var n := |msgs|;
      StoreAllKeysFromEmpty(max, msgs[..n - 1]);
    }
  }

  /** The integers in [lo, hi). */
  function Range(lo: int, hi: int): (r: set<int>)
    ensures forall k :: k in r <==> lo <= k < hi
    ensures lo <= hi ==> |r| == hi - lo
    decreases hi - lo
  {
    if lo >= hi then {} else {lo} + Range(lo + 1, hi)
  }

  /**
    The log as written is not bounded by `max`: from the empty log, storing
    `max + 2` or more messages leaves more than `max` entries.
   */
  lemma AsWrittenExceedsMax<M>(max: int, msgs: seq<M>)
    requires max >= 1 && |msgs| >= max + 2
    ensures |StoreAll(map[], 0, max, msgs)| > max
  {
    var log := StoreAll(map[], 0, max, msgs);
    StoreAllKeysFromEmpty(max, msgs);
    var live := Range(1, |msgs|);
    assert live <= log.Keys;
    assert |live| <= |log.Keys| by { SubsetSize(live, log.Keys); }
  }

  lemma SubsetSize(a: set<int>, b: set<int>)
    requires a <= b
    ensures |a| <= |b|
  {
    assert b == a + (b - a);
  }

  /** One readLog iteration as evidently intended: the deleted key is `(offset + 1) - max`. */
  function StoreWindow<M>(log: map<int, M>, offset: int, max: int, m: M): map<int, M>
  {
    var stored := log[offset := m];
    if offset + 1 >= max then stored - {offset + 1 - max} else stored
  }

  function StoreAllWindow<M>(log: map<int, M>, offset: int, max: int, msgs: seq<M>): map<int, M>
    decreases |msgs|
  {
    if msgs == [] then log
    else StoreWindow(StoreAllWindow(log, offset, max, msgs[..|msgs| - 1]), offset + |msgs| - 1, max, msgs[|msgs| - 1])
  }

  /**
    With the intended key the live keys are a contiguous window ending at the
    latest write, each holding the message stored there: all of them until
    `max` messages were written, then the latest `max - 1`, so there are never
    as many as `max`.
   */
  lemma StoreAllWindowIsWindow<M>(max: int, msgs: seq<M>)
    requires max >= 1
    ensures forall k :: k in StoreAllWindow(map[], 0, max, msgs) <==> 0 <= k < |msgs| && |msgs| - max < k
    ensures forall k :: k in StoreAllWindow(map[], 0, max, msgs) ==> StoreAllWindow(map[], 0, max, msgs)[k] == msgs[k]
    ensures |StoreAllWindow(map[], 0, max, msgs)| == if |msgs| < max then |msgs| else max - 1
  {
    WindowKeys(max, msgs);
    WindowValues(max, msgs);
    var lo := if |msgs| < max then 0 else |msgs| - max + 1;
    assert StoreAllWindow(map[], 0, max, msgs).Keys == Range(lo, |msgs|);
  }

  lemma {:induction false} WindowKeys<M>(max: int, msgs: seq<M>)
    requires max >= 1
    ensures forall k :: k in StoreAllWindow(map[], 0, max, msgs) <==> |msgs| - max < k < |msgs| && 0 <= k
    decreases |msgs|
  {
    if msgs != [] {
      WindowKeys(max, msgs[..|msgs| - 1]);
    }
  }

  lemma {:induction false} WindowValues<M>(max: int, msgs: seq<M>)
    ensures forall k :: k in StoreAllWindow(map[], 0, max, msgs) ==> 0 <= k < |msgs| && StoreAllWindow(map[], 0, max, msgs)[k] == msgs[k]
    decreases |msgs|
  {
    if msgs != [] {
      var n := |msgs|;
      var front := msgs[..n - 1];
      WindowValues(max, front);
      var log := StoreAllWindow(map[], 0, max, msgs);
      assert log == StoreWindow(StoreAllWindow(map[], 0, max, front), n - 1, max, msgs[n - 1]);
      forall k | k in log ensures 0 <= k < n && log[k] == msgs[k] {
        if k != n - 1 {
          assert front[k] == msgs[k];
        }
      }
    }
  }
}
