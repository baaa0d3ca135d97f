/**
 * Deadlock detection: the search for a cycle in the wait-for relation
 * (applications/mydb/experimental/Dfs.cc).  Each transaction waits for at most one other.
 */
module CycleDetection {

  type Id = s: string | s != "" witness "t"

  /** Who each blocked transaction waits for. */
  type Waits = map<Id, Id>

  /** A path that follows the relation. */
  ghost predicate IsWalk(waits: Waits, path: seq<Id>) {
    && path != []
    && forall i | 0 <= i < |path| - 1 :: Follows(waits, path, i)
  }

  ghost predicate Follows(waits: Waits, path: seq<Id>, i: nat)
    requires i < |path| - 1
  {
    path[i] in waits && waits[path[i]] == path[i + 1]
  }

  ghost predicate Distinct(path: seq<Id>) {
    forall i, j | 0 <= i < j < |path| :: path[i] != path[j]
  }

  /** Following the relation from `start` meets a transaction twice. */
  ghost predicate Revisits(waits: Waits, start: Id) {
    exists path :: IsWalk(waits, path) && path[0] == start && !Distinct(path)
  }

  /** A walk whose last element is its only repeat. */
  ghost predicate Lasso(waits: Waits, path: seq<Id>) {
    && IsWalk(waits, path)
    && Distinct(path[..|path| - 1])
    && path[|path| - 1] in path[..|path| - 1]
  }

  /** Following the relation from `start` comes to a transaction that waits for none. */
  ghost predicate Ends(waits: Waits, start: Id) {
    exists path :: EndsWith(waits, start, path)
  }

  ghost predicate EndsWith(waits: Waits, start: Id, path: seq<Id>) {
    IsWalk(waits, path) && path[0] == start && path[|path| - 1] !in waits
  }

  /** Two walks from one transaction agree as far as both go. */
  lemma {:induction false} WalksAgree(waits: Waits, p: seq<Id>, q: seq<Id>, i: nat)
    requires IsWalk(waits, p) && IsWalk(waits, q) && p[0] == q[0] && i < |p| && i < |q|
    ensures p[i] == q[i]
  {
    if i > 0 {
      var h := i - 1;
      WalksAgree(waits, p, q, h);
      assert Follows(waits, p, h) && Follows(waits, q, h);
    }
  }

  lemma SuffixIsWalk(waits: Waits, p: seq<Id>, i: nat)
    requires IsWalk(waits, p) && i < |p|
    ensures IsWalk(waits, p[i..])
  {
    forall a | 0 <= a < |p[i..]| - 1 ensures Follows(waits, p[i..], a) {
      assert Follows(waits, p, i + a);
    }
  }

  /** A walk that reaches the end never repeats. */
  lemma EndingWalkIsDistinct(waits: Waits, p: seq<Id>)
    requires IsWalk(waits, p) && p[|p| - 1] !in waits
    ensures Distinct(p)
  {
    forall i, j | 0 <= i < j < |p| ensures p[i] != p[j] {
      if p[i] == p[j] {
        var last := |p| - 1 - j;
        assert Follows(waits, p, i + last);
        SuffixIsWalk(waits, p, i);
        SuffixIsWalk(waits, p, j);
        WalksAgree(waits, p[i..], p[j..], last);
      }
    }
  }

  lemma EndsNeverRevisits(waits: Waits, start: Id)
    requires Ends(waits, start)
    ensures !Revisits(waits, start)
  {
    var p :| EndsWith(waits, start, p);
    EndingWalkIsDistinct(waits, p);
    forall q | IsWalk(waits, q) && q[0] == start ensures Distinct(q) {
      if |q| > |p| {
        assert Follows(waits, q, |p| - 1);
        WalksAgree(waits, p, q, |p| - 1);
      }
      forall i, j | 0 <= i < j < |q| ensures q[i] != q[j] {
        WalksAgree(waits, p, q, i);
        WalksAgree(waits, p, q, j);
      }
    }
  }

  lemma LassoRevisits(waits: Waits, path: seq<Id>)
    requires Lasso(waits, path)
    ensures Revisits(waits, path[0])
  {
    var last := |path| - 1;
    var i :| 0 <= i < last && path[..last][i] == path[last];
    assert path[i] == path[last];
  }

  /** From each transaction there is at most one such path. */
  lemma LassoIsUnique(waits: Waits, p: seq<Id>, q: seq<Id>)
    requires Lasso(waits, p) && Lasso(waits, q) && p[0] == q[0]
    ensures p == q
  {
    if |p| > |q| {
      LassoNotLonger(waits, q, p);
    } else if |q| > |p| {
      LassoNotLonger(waits, p, q);
    }
    forall i | 0 <= i < |p| && i < |q| ensures p[i] == q[i] {
      WalksAgree(waits, p, q, i);
    }
  }

  lemma LassoNotLonger(waits: Waits, p: seq<Id>, q: seq<Id>)
    requires Lasso(waits, p) && Lasso(waits, q) && p[0] == q[0]
    ensures |q| <= |p|
  {
    if |q| > |p| {
      var last := |p| - 1;
      var i :| 0 <= i < last && p[..last][i] == p[last];
      var body := q[..|q| - 1];
      assert body[i] != body[last];
      WalksAgree(waits, p, q, i);
      WalksAgree(waits, p, q, last);
    }
  }

  lemma WalkGrows(waits: Waits, path: seq<Id>)
    requires IsWalk(waits, path) && path[|path| - 1] in waits
    ensures IsWalk(waits, path + [waits[path[|path| - 1]]])
  {
    var longer := path + [waits[path[|path| - 1]]];
    forall i | 0 <= i < |longer| - 1 ensures Follows(waits, longer, i) {
      if i < |path| - 1 {
        assert Follows(waits, path, i);
      }
    }
  }

  /** The transactions a path passes on its way to its last one. */
  ghost function Before(path: seq<Id>): set<Id> {
    set i | 0 <= i < |path| - 1 :: path[i]
  }

  lemma BeforeGrows(path: seq<Id>, next: Id)
    requires path != [] && Distinct(path)
    ensures Before(path + [next]) == Before(path) + {path[|path| - 1]} && path[|path| - 1] !in Before(path)
  {
    var longer := path + [next];
    assert longer[|path| - 1] == path[|path| - 1];
    forall id | id in Before(path) ensures id in Before(longer) {
      var i :| 0 <= i < |path| - 1 && path[i] == id;
      assert longer[i] == id;
    }
  }

  lemma {:induction false} EndsOrRevisits(waits: Waits, path: seq<Id>)
    requires IsWalk(waits, path)
    ensures Ends(waits, path[0]) || Revisits(waits, path[0])
    decreases waits.Keys - Before(path)
  {
    if Distinct(path) {
      var last := path[|path| - 1];
      if last in waits {
        WalkGrows(waits, path);
        BeforeGrows(path, waits[last]);
        EndsOrRevisits(waits, path + [waits[last]]);
      } else {
        assert EndsWith(waits, path[0], path);
      }
    }
  }

  /** On a finite relation the walk either comes to an end or meets a transaction twice, and never both. */
  lemma EndsIffNoRevisit(waits: Waits, start: Id)
    ensures Ends(waits, start) <==> !Revisits(waits, start)
  {
    EndsOrRevisits(waits, [start]);
    if Ends(waits, start) {
      EndsNeverRevisits(waits, start);
    }
  }

  /** A walk that steps back onto itself is the one to report. */
  lemma LassoFound(waits: Waits, path: seq<Id>)
    requires IsWalk(waits, path) && Distinct(path)
    requires path[|path| - 1] in waits && waits[path[|path| - 1]] in path
    ensures Lasso(waits, path + [waits[path[|path| - 1]]])
  {
    WalkGrows(waits, path);
    var longer := path + [waits[path[|path| - 1]]];
    assert longer[..|longer| - 1] == path;
  }

  datatype Color = Black | Gray

  /** Gray marks everything the path passed, perhaps its last transaction too, and nothing else. */
  ghost predicate PathIsGray(colors: map<Id, Color>, path: seq<Id>) {
    && (forall id <- colors :: colors[id] == Gray && id in path)
    && (forall i | 0 <= i < |path| - 1 :: path[i] in colors)
  }

  lemma GrayGrows(colors: map<Id, Color>, path: seq<Id>, next: Id)
    requires path != [] && PathIsGray(colors, path) && Distinct(path) && path[|path| - 1] in colors && next !in colors
    ensures PathIsGray(colors, path + [next]) && Distinct(path + [next])
  {
  }

  class Dfs {
    const waits: Waits
    const txn: Id
    var colorLookup: map<Id, Color>
    var cycle: seq<Id>

    /** Nothing searched yet, or the answer already there. */
    ghost predicate Valid()
      reads this
    {
      || (colorLookup == map[] && cycle == [])
      || (Answered() && (IsBlack(txn) || (colorLookup == map[txn := Gray] && cycle != [])))
    }

    predicate IsBlack(id: Id)
      reads this
    {
      id in colorLookup && colorLookup[id] == Black
    }

    ghost predicate Answered()
      reads this
    {
      if cycle == [] then Ends(waits, txn) else Lasso(waits, cycle) && cycle[0] == txn
    }

    constructor (waits: Waits, txn: Id)
      ensures Valid() && this.waits == waits && this.txn == txn && colorLookup == map[] && cycle == []
    {
      this.waits, this.txn, colorLookup, cycle := waits, txn, map[], [];
    }

    /** The cycle reached from the transaction, or nothing.  Asking again gives the same answer. */
    method GetCycle() returns (result: seq<Id>)
      requires Valid()
      modifies this
      ensures Valid() && result == cycle
      ensures result != [] <==> Revisits(waits, txn)
      ensures result != [] ==> Lasso(waits, result) && result[0] == txn
      ensures old(cycle) != [] ==> result == old(cycle)
    {
      var path := [txn];
      var found, _ := Visit(false, txn, path);
      assert Answered();
      if cycle == [] {
        EndsNeverRevisits(waits, txn);
      } else {
        LassoRevisits(waits, cycle);
        if old(cycle) != [] {
          LassoIsUnique(waits, cycle, old(cycle));
        }
      }
      return cycle;
    }

    /** One step of the search; `path` leads from the first transaction to `at`. */
    method Visit(cycleFound: bool, at: Id, path: seq<Id>) returns (found: bool, after: seq<Id>)
      requires IsWalk(waits, path) && Distinct(path) && path[|path| - 1] == at
      requires IsBlack(at) || PathIsGray(colorLookup, path)
      modifies this
      ensures cycleFound || old(IsBlack(at)) ==>
                found == cycleFound && after == path && colorLookup == old(colorLookup) && cycle == old(cycle)
      ensures !cycleFound && !old(IsBlack(at)) ==>
                if found then
                  && Lasso(waits, cycle) && path <= cycle
                  && at in waits && after == path + [waits[at]]
                  && (IsBlack(at) || (colorLookup == old(colorLookup)[at := Gray] && waits[at] in path))
                else
                  cycle == old(cycle) && Ends(waits, path[0]) && after == path && IsBlack(at)
      decreases waits.Keys - Before(path)
    {
      found, after := cycleFound, path;
      if found {
        return;
      }
      if at !in colorLookup {
        colorLookup := colorLookup[at := Gray];
      }
      if colorLookup[at] == Black {
        return;
      }
      if at in waits {
        var waitingFor := waits[at];
        after := path + [waitingFor];
        if waitingFor in colorLookup && colorLookup[waitingFor] == Gray {
          found := true;
          cycle := after;
          LassoFound(waits, path);
          return;
        }
        WalkGrows(waits, path);
        BeforeGrows(path, waitingFor);
        GrayGrows(colorLookup, path, waitingFor);
        hide Lasso, Ends, Distinct, PathIsGray, Before;
        found, after := Visit(found, waitingFor, after);
        after := after[..|after| - 1];
      } else {
        assert EndsWith(waits, path[0], path);
      }
      colorLookup := colorLookup[at := Black];
    }
  }
}
