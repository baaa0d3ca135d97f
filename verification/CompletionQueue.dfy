/**
 * The queue that completes appends in log-id order
 * (log/utils/OrderedCompletionQueue.h).
 */
module CompletionQueue {

  // ---- Meaning of the operations, on values ----

  datatype Queue = Queue(index: int, pending: set<int>)

  /** The first id at or above `i` that is not pending. */
  function RunEnd(i: int, pending: set<int>): (end: int)
    ensures i <= end && end !in pending
    ensures forall k | i <= k < end :: k in pending
    decreases |pending|
  {
    if i in pending then
      RunEndStep(i, pending);
      var end := RunEnd(i + 1, pending - {i});
      assert forall k | i <= k < end :: k in pending by {
        forall k | i <= k < end ensures k in pending {
          assert k != i ==> k in pending - {i};
        }
      }
      end
    else
      i
  }

  lemma RunEndStep(i: int, pending: set<int>)
    requires i in pending
    ensures |pending - {i}| < |pending|
  {
  }

  /** Completes the run of consecutive ids that starts at the index; an older leftover blocks it. */
  function AfterCheck(q: Queue): Queue {
    if exists k :: k in q.pending && k < q.index then q
    else
      var end := RunEnd(q.index, q.pending);
      Queue(end, set k <- q.pending | k >= end)
  }

  function AfterBound(q: Queue, bound: int): Queue {
    AfterCheck(Queue(if bound > q.index then bound else q.index, set k <- q.pending | k >= bound))
  }

  function AfterAdd(q: Queue, id: int): Queue {
    AfterCheck(Queue(q.index, q.pending + {id}))
  }

  /** The run that is complete but not yet completed. */
  function EligibleRange(q: Queue): (int, int) {
    (q.index, AfterCheck(q).index)
  }

  // ---- The class ----

  datatype Entry<T> = Entry(key: int, result: T)

  ghost predicate Sorted<T>(s: seq<Entry<T>>) {
    forall i, j | 0 <= i < j < |s| :: s[i].key < s[j].key
  }

  ghost function Keys<T>(s: seq<Entry<T>>): set<int> {
    set i | 0 <= i < |s| :: s[i].key
  }

  /** Where a key goes in an ordered map. */
  function Position<T>(s: seq<Entry<T>>, key: int, from: nat): (p: nat)
    requires from <= |s| && forall i | 0 <= i < from :: s[i].key < key
    ensures p <= |s| && (forall i | 0 <= i < p :: s[i].key < key) && (p < |s| ==> s[p].key >= key)
    decreases |s| - from
  {
    if from < |s| && s[from].key < key then Position(s, key, from + 1) else from
  }

  /** Insertion into an ordered map; an entry with the same key is replaced. */
  function Insert<T>(s: seq<Entry<T>>, e: Entry<T>): seq<Entry<T>> {
    var p := Position(s, e.key, 0);
    s[..p] + [e] + (if p < |s| && s[p].key == e.key then s[p + 1..] else s[p..])
  }

  lemma InsertSorted<T>(s: seq<Entry<T>>, e: Entry<T>)
    requires Sorted(s)
    ensures Sorted(Insert(s, e))
  {
  }

  lemma InsertKeys<T>(s: seq<Entry<T>>, e: Entry<T>)
    requires Sorted(s)
    ensures Keys(Insert(s, e)) == Keys(s) + {e.key}
  {
    var r := Insert(s, e);
    var p := Position(s, e.key, 0);
    var shift := if p < |s| && s[p].key == e.key then 0 else 1;
    forall i | 0 <= i < |r| ensures r[i].key in Keys(s) + {e.key} {
      assert i < p ==> r[i] == s[i];
      assert i > p ==> r[i] == s[i - shift];
    }
    forall i | 0 <= i < |s| ensures s[i].key in Keys(r) {
      if i < p {
        assert r[i] == s[i];
      } else if s[i].key == e.key {
        assert r[p] == e;
      } else {
        assert r[i + shift] == s[i];
      }
    }
    assert r[p] == e;
  }

  /** The new entry is in the map under its key, and every entry with another key stays as it was. */
  lemma InsertEntries<T>(s: seq<Entry<T>>, e: Entry<T>)
    requires Sorted(s)
    ensures e in Insert(s, e)
    ensures forall other <- s | other.key != e.key :: other in Insert(s, e)
    ensures forall other <- Insert(s, e) :: other == e || (other in s && other.key != e.key)
  {
    var r := Insert(s, e);
    var p := Position(s, e.key, 0);
    var rest := if p < |s| && s[p].key == e.key then s[p + 1..] else s[p..];
    assert r == s[..p] + [e] + rest && r[p] == e;
    assert s == s[..p] + (if p < |s| && s[p].key == e.key then [s[p]] else []) + rest;
    forall other <- r ensures other == e || (other in s && other.key != e.key) {
      if other in s[..p] {
        var i :| 0 <= i < p && s[..p][i] == other;
        assert s[i] == other;
      } else if other in rest {
        RestAbove(s, e.key, p, other);
      }
    }
  }

  lemma RestAbove<T>(s: seq<Entry<T>>, key: int, p: nat, other: Entry<T>)
    requires Sorted(s) && p <= |s| && (p < |s| ==> s[p].key >= key)
    requires other in if p < |s| && s[p].key == key then s[p + 1..] else s[p..]
    ensures other in s && other.key > key
  {
    var from := if p < |s| && s[p].key == key then p + 1 else p;
    var i :| 0 <= i < |s| - from && s[from..][i] == other;
    assert s[from + i] == other;
  }

  /** A leftover below the index blocks the queue until a bound passes it. */
  lemma LeftoverBlocks(q: Queue, k: int)
    requires k in q.pending && k < q.index
    ensures AfterCheck(q) == q && EligibleRange(q) == (q.index, q.index)
  {
  }

  class OrderedCompletionQueue<T> {
    var currentIndex: int
    /** An ordered map, entry by entry. */
    var promises: seq<Entry<T>>
    /** The promises fulfilled so far, each with its result, in order. */
    var fulfilled: seq<Entry<T>>

    ghost predicate Valid()
      reads this
    {
      Sorted(promises)
    }

    ghost function Value(): Queue
      reads this
    {
      Queue(currentIndex, Keys(promises))
    }

    constructor (startIndex: int)
      ensures Valid() && Value() == Queue(startIndex, {}) && promises == fulfilled == []
    {
      currentIndex, promises, fulfilled := startIndex, [], [];
    }

    /** Nothing is lost or fulfilled twice: a promise moves from the map to the fulfilled list. */
    method CompleteAllBelow(bound: int)
      requires Valid()
      modifies this
      ensures Valid() && Value() == AfterBound(old(Value()), bound)
      ensures fulfilled + promises == old(fulfilled + promises)
    {
      var toDelete := 0;
      while toDelete < |promises| && promises[toDelete].key < bound
        invariant toDelete <= |promises| && promises == old(promises) && currentIndex == old(currentIndex)
        invariant forall i | 0 <= i < toDelete :: promises[i].key < bound
        invariant fulfilled == old(fulfilled) + promises[..toDelete]
      {
        fulfilled := fulfilled + [promises[toDelete]];
        toDelete := toDelete + 1;
      }
      DropKeys(promises, toDelete, bound);
      promises := promises[toDelete..];
      if bound > currentIndex {
        currentIndex := bound;
      }
      assert fulfilled + promises == old(fulfilled + promises);
      CheckAndCompleteAfterCurrentIndex();
    }

    method Add(id: int, result: T, complete: bool)
      requires Valid()
      modifies this
      ensures Valid()
      ensures Value() == if complete then AfterAdd(old(Value()), id)
                         else Queue(old(currentIndex), old(Value()).pending + {id})
      ensures fulfilled + promises == old(fulfilled) + Insert(old(promises), Entry(id, result))
    {
      InsertSorted(promises, Entry(id, result));
      InsertKeys(promises, Entry(id, result));
      promises := Insert(promises, Entry(id, result));
      if complete {
        CheckAndCompleteAfterCurrentIndex();
      }
    }

    method GetRangeEligibleForCompletion() returns (from: int, to: int)
      requires Valid()
      ensures (from, to) == EligibleRange(Value())
    {
      var startIndex := currentIndex;
      var n := 0;
      while n < |promises| && promises[n].key == startIndex
        invariant n <= |promises| && startIndex == currentIndex + n
        invariant forall i | 0 <= i < n :: promises[i].key == currentIndex + i
      {
        startIndex := startIndex + 1;
        n := n + 1;
      }
      RunOfPrefix(currentIndex, promises, n);
      return currentIndex, startIndex;
    }

    method CheckAndCompleteAfterCurrentIndex()
      requires Valid()
      modifies this
      ensures Valid() && Value() == AfterCheck(old(Value()))
      ensures fulfilled + promises == old(fulfilled + promises)
    {
      var startIndex := currentIndex;
      var toDelete := 0;
      while toDelete < |promises| && promises[toDelete].key == startIndex
        invariant toDelete <= |promises| && promises == old(promises) && currentIndex == old(currentIndex)
        invariant startIndex == currentIndex + toDelete
        invariant forall i | 0 <= i < toDelete :: promises[i].key == currentIndex + i
        invariant fulfilled == old(fulfilled) + promises[..toDelete]
      {
        fulfilled := fulfilled + [promises[toDelete]];
        toDelete := toDelete + 1;
        startIndex := startIndex + 1;
      }
      RunOfPrefix(currentIndex, promises, toDelete);
      promises := promises[toDelete..];
      currentIndex := startIndex;
    }
  }

  lemma DropKeys<T>(s: seq<Entry<T>>, n: nat, bound: int)
    requires Sorted(s) && n <= |s|
    requires forall i | 0 <= i < n :: s[i].key < bound
    requires n < |s| ==> s[n].key >= bound
    ensures Keys(s[n..]) == set k <- Keys(s) | k >= bound
  {
    var t := s[n..];
    assert forall i | n <= i < |s| :: s[i] == t[i - n] && s[i].key >= bound;
  }

  /** A run at the front of the ordered map is a run of the pending set. */
  lemma RunEndOfPrefix<T>(index: int, s: seq<Entry<T>>, n: nat)
    requires Sorted(s) && n <= |s| && (|s| > 0 ==> s[0].key >= index)
    requires forall i | 0 <= i < n :: s[i].key == index + i
    requires n < |s| ==> s[n].key != index + n
    ensures RunEnd(index, Keys(s)) == index + n && (n < |s| ==> s[n].key > index + n)
  {
    assert n < |s| ==> s[n].key > index + n by {
      assert 0 < n < |s| ==> s[n - 1].key < s[n].key;
    }
    forall k | index <= k < index + n ensures k in Keys(s) {
      assert s[k - index].key == k;
    }
    RunEndUnique(index, index + n, Keys(s));
  }

  /** The loop stops exactly where `AfterCheck` does. */
  lemma RunOfPrefix<T>(index: int, s: seq<Entry<T>>, n: nat)
    requires Sorted(s) && n <= |s|
    requires forall i | 0 <= i < n :: s[i].key == index + i
    requires n < |s| ==> s[n].key != index + n
    ensures AfterCheck(Queue(index, Keys(s))) == Queue(index + n, Keys(s[n..]))
  {
    if |s| > 0 && s[0].key < index {
      assert s[0].key in Keys(s);
      assert n == 0 && s[0..] == s;
    } else {
      assert forall k <- Keys(s) :: k >= index;
      RunEndOfPrefix(index, s, n);
      DropKeys(s, n, index + n);
    }
  }

  lemma RunEndUnique(i: int, end: int, pending: set<int>)
    requires i <= end && end !in pending && forall k | i <= k < end :: k in pending
    ensures RunEnd(i, pending) == end
  {
  }

  // ---- What a history of calls amounts to ----

  datatype Op = AddOp(id: int) | BoundOp(bound: int)

  function Run(start: int, ops: seq<Op>): Queue {
    if ops == [] then Queue(start, {})
    else
      var q := Run(start, ops[..|ops| - 1]);
      match ops[|ops| - 1]
      case AddOp(id) => AfterAdd(q, id)
      case BoundOp(bound) => AfterBound(q, bound)
  }

  function Added(ops: seq<Op>): set<int> {
    set i | 0 <= i < |ops| && ops[i].AddOp? :: ops[i].id
  }

  /** The start index or the largest bound seen, whichever is larger. */
  function Floor(start: int, ops: seq<Op>): int {
    if ops == [] then start
    else
      var floor := Floor(start, ops[..|ops| - 1]);
      var last := ops[|ops| - 1];
      if last.BoundOp? && last.bound > floor then last.bound else floor
  }

  /** Adds are at or above the index of the moment and no id is added twice. */
  ghost predicate InOrder(start: int, ops: seq<Op>) {
    forall i | 0 <= i < |ops| && ops[i].AddOp? ::
      ops[i].id >= Run(start, ops[..i]).index && ops[i].id !in Added(ops[..i])
  }

  /** `end` is the least id at or above `floor` that is not in `added`. */
  ghost predicate LeastMissing(floor: int, added: set<int>, end: int) {
    floor <= end && end !in added && forall k | floor <= k < end :: k in added
  }

  lemma AddedSnoc(ops: seq<Op>, op: Op)
    ensures Added(ops + [op]) == Added(ops) + (if op.AddOp? then {op.id} else {})
  {
    var all := ops + [op];
    assert forall i | 0 <= i < |ops| :: all[i] == ops[i];
    assert all[|ops|] == op;
  }

  /**
   * The queue refines a simple specification: the index is the least id at or
   * above the floor that was never added, and exactly the added ids below it
   * have completed.
   */
  lemma {:induction false} QueueSpec(start: int, ops: seq<Op>)
    requires InOrder(start, ops)
    ensures LeastMissing(Floor(start, ops), Added(ops), Run(start, ops).index)
    ensures Run(start, ops).pending == set id <- Added(ops) | id >= Run(start, ops).index
  {
    if ops != [] {
      var before, last := ops[..|ops| - 1], ops[|ops| - 1];
      assert ops == before + [last];
      assert forall i | 0 <= i < |before| :: before[..i] == ops[..i];
      QueueSpec(start, before);
      AddedSnoc(before, last);
      var q := Run(start, before);
      match last
      case AddOp(id) =>
        assert ops[..|ops| - 1] == before;
        assert !exists k :: k in q.pending + {id} && k < q.index;
      case BoundOp(bound) =>
        BoundStep(q, Floor(start, before), Added(before), bound);
    }
  }

  lemma BoundStep(q: Queue, floor: int, added: set<int>, bound: int)
    requires LeastMissing(floor, added, q.index) && q.pending == set id <- added | id >= q.index
    ensures var q' := AfterBound(q, bound);
            && LeastMissing(if bound > floor then bound else floor, added, q'.index)
            && q'.pending == set id <- added | id >= q'.index
  {
    var index := if bound > q.index then bound else q.index;
    var kept := set k <- q.pending | k >= bound;
    assert !exists k :: k in kept && k < index;
    var end := RunEnd(index, kept);
    assert end !in added;
    forall k | (if bound > floor then bound else floor) <= k < end
      ensures k in added
    {
      assert k >= index ==> k in kept;
    }
  }

  /** Neither the index nor the completed ids depend on the order of the calls. */
  lemma OrderDoesNotMatter(start: int, ops: seq<Op>, ops': seq<Op>)
    requires InOrder(start, ops) && InOrder(start, ops')
    requires Added(ops) == Added(ops') && Floor(start, ops) == Floor(start, ops')
    ensures Run(start, ops) == Run(start, ops')
  {
    QueueSpec(start, ops);
    QueueSpec(start, ops');
  }

  // ---- The deferred path of the persistent nano log ----

  /** `add` without completing, then completing all but the last of the eligible range. */
  function AddDeferred(q: Queue, id: int): Queue {
    var added := Queue(q.index, q.pending + {id});
    var (from, to) := EligibleRange(added);
    if to > from then AfterBound(added, to - 1) else added
  }

  /** With no commit index, the deferred path ends in the state of a plain add. */
  lemma DeferredIsAdd(q: Queue, id: int)
    ensures AddDeferred(q, id) == AfterAdd(q, id)
  {
    var added := Queue(q.index, q.pending + {id});
    var (from, to) := EligibleRange(added);
    if to > from {
      var kept := set k <- added.pending | k >= to - 1;
      var index := if to - 1 > q.index then to - 1 else q.index;
      assert to - 1 in kept;
      RunEndUnique(index, to, kept);
      assert !exists k :: k in kept && k < index;
    }
  }
}
