/**
 * Applying the log in order (statemachine/VirtualLogStateMachine.h, log/utils/FlatMapSequential.h):
 * a producer starts one fetch per log id, a consumer waits for the fetches in the order they were started,
 * and a single thread applies what they return and answers the callers.
 */
module OrderedApply {
  import opened Options
  import opened Counter

  type LogId = int

  /** What the fetches of one node return: each id is fetched once (EachIdFetchedOnce), so its reads are a map. */
  type Log = map<LogId, seq<Entry>>

  datatype Fetched = Fetched(logId: LogId, batch: seq<Entry>)

  datatype Status = Running | Ready(result: Fetched) | Broken

  /** One fetch, with the id its task captured. */
  datatype Future = Future(logId: LogId, status: Status)

  datatype Answer = Answer(logId: LogId, values: Values)

  /**
   * One node.  `to` is the producer's own goal, `list` the futures not yet taken by the consumer, `taken` the one
   * it waits for, `queue` the tasks handed to the single thread and `done` those it ran.  Promises are numbered in
   * the order they were registered: `asked` holds the id each one waits for, `answers` those fulfilled.
   */
  datatype Node = Node(to: LogId, lastFetchId: LogId, targetLogId: LogId,
                       futures: seq<Future>, list: seq<nat>, taken: Option<nat>, consuming: bool,
                       queue: seq<Fetched>, done: seq<Fetched>,
                       app: Lookup, lastAppliedLogId: LogId,
                       promises: map<LogId, seq<nat>>, asked: seq<LogId>, answers: map<nat, Answer>,
                       aborted: bool)

  function Initial(start: LogId): Node {
    Node(0, 0, -1, [], [], None, true, [], [], map[], start, map[], [], map[], false)
  }

  function Waiting(promises: map<LogId, seq<nat>>, id: LogId): seq<nat> {
    if id in promises then promises[id] else []
  }

  /** A caller of append or sync starts to wait for an id. */
  function Registered(n: Node, id: LogId): (m: Node)
    ensures |m.asked| == |n.asked| + 1 && m.asked[|n.asked|] == id && |n.asked| in Waiting(m.promises, id)
    ensures id <= m.targetLogId && n.targetLogId <= m.targetLogId
  {
    n.(promises := n.promises[id := Waiting(n.promises, id) + [|n.asked|]], asked := n.asked + [id],
       targetLogId := if id < n.targetLogId then n.targetLogId else id)
  }

  function Fetch(n: Node): Node {
    n.(lastFetchId := n.lastFetchId + 1, list := n.list + [|n.futures|],
       futures := n.futures + [Future(n.lastFetchId + 1, Running)])
  }

  /** The producer's inner loop. */
  function FetchAll(n: Node): Node
    decreases n.to - n.lastFetchId
  {
    if n.lastFetchId + 1 <= n.to then FetchAll(Fetch(n)) else n
  }

  /** Every promise of the list gets the answer, and no other answer changes. */
  function Fulfil(answers: map<nat, Answer>, promises: seq<nat>, a: Answer): (after: map<nat, Answer>)
    ensures forall p <- promises :: p in after && after[p] == a
    ensures forall p | p !in promises :: p in after <==> p in answers
    ensures forall p <- answers | p !in promises :: after[p] == answers[p]
  {
    answers + map p | p in promises :: a
  }

  /** The consumer takes the future at the front of the list. */
  function TakeFront(n: Node): Node
    requires n.list != []
  {
    n.(taken := Some(n.list[0]), list := n.list[1..])
  }

  /** The future the consumer waits for is over: its result goes to the single thread, its failure ends the loop. */
  function HandOver(n: Node): Node
    requires n.taken.Some? && n.taken.value < |n.futures|
  {
    var status := n.futures[n.taken.value].status;
    if status.Ready? then n.(taken := None, queue := n.queue + [status.result]) else n.(consuming := false)
  }

  /** The single thread runs the next task. */
  function RunNext(n: Node): Node
    requires n.queue != []
  {
    var task := n.queue[0];
    var (app, values) := Applied(n.app, task.batch);
    var ran := n.(queue := n.queue[1..], done := n.done + [task], app := app);
    if values.Err? then ran
    else
      var inOrder := n.lastAppliedLogId + 1 == task.logId;
      ran.(answers := Fulfil(n.answers, Waiting(n.promises, task.logId), Answer(task.logId, values.value)),
           promises := n.promises - {task.logId},
           aborted := !inOrder,
           lastAppliedLogId := if inOrder then task.logId else n.lastAppliedLogId)
  }

  datatype Step =
    | AppendReturned(logId: LogId)
    | SyncReturned(logId: LogId)
    | Wake
    | FetchNext
    | FetchDone(future: nat)
    | FetchFailed(future: nat)
    | Take
    | Hand
    | RunTask

  ghost predicate Enabled(log: Log, n: Node, step: Step) {
    && !n.aborted
    && match step
       case AppendReturned(_) => true
       case SyncReturned(_) => true
       case Wake => n.lastFetchId + 1 > n.to && n.to < n.targetLogId
       case FetchNext => n.lastFetchId + 1 <= n.to
       case FetchDone(k) => k < |n.futures| && n.futures[k].status.Running? && n.futures[k].logId in log
       case FetchFailed(k) => k < |n.futures| && n.futures[k].status.Running?
       case Take => n.consuming && n.taken.None? && n.list != []
       case Hand => n.taken.Some? && n.consuming && n.taken.value < |n.futures|
         && !n.futures[n.taken.value].status.Running?
       case RunTask => n.queue != []
  }

  ghost function After(log: Log, n: Node, step: Step): Node
    requires Enabled(log, n, step)
  {
    match step
    case AppendReturned(id) => Registered(n, id)
    case SyncReturned(id) => if id <= n.lastAppliedLogId then n else Registered(n, id)
    case Wake => n.(to := n.targetLogId)
    case FetchNext => Fetch(n)
    case FetchDone(k) =>
      var id := n.futures[k].logId;
      n.(futures := n.futures[k := Future(id, Ready(Fetched(id, log[id])))])
    case FetchFailed(k) => n.(futures := n.futures[k := Future(n.futures[k].logId, Broken)])
    case Take => TakeFront(n)
    case Hand => HandOver(n)
    case RunTask => RunNext(n)
  }

  ghost predicate Next(log: Log, n: Node, m: Node) {
    exists step :: Enabled(log, n, step) && m == After(log, n, step)
  }

  /** A run of one node, with tasks, fetches and callers in any order. */
  ghost predicate IsRun(log: Log, start: LogId, run: seq<Node>) {
    && run != [] && run[0] == Initial(start)
    && forall i | 0 <= i < |run| - 1 :: Next(log, run[i], run[i + 1])
  }

  ghost predicate Reachable(log: Log, start: LogId, n: Node) {
    exists run :: IsRun(log, start, run) && run[|run| - 1] == n
  }

  // ---- What the log says ----

  function Batch(log: Log, id: LogId): seq<Entry> {
    if id in log then log[id] else []
  }

  /** The counters after the first `k` log ids. */
  function Replay(log: Log, k: nat): Lookup {
    if k == 0 then map[] else Applied(Replay(log, k - 1), Batch(log, k)).0
  }

  predicate Known(log: Log, id: LogId) {
    AllKnown(Batch(log, id))
  }

  function SumTo(log: Log, k: nat, key: string): int {
    if k == 0 then 0 else SumTo(log, k - 1, key) + Sum(Batch(log, k), key)
  }

  /** Each batch that can be applied comes right behind the start or behind another such batch. */
  ghost predicate Contiguous(log: Log, start: LogId, k: nat) {
    forall id | 1 <= id <= k && Known(log, id) :: FollowsOn(log, start, id)
  }

  predicate FollowsOn(log: Log, start: LogId, id: LogId) {
    id == start + 1 || (id > 1 && Known(log, id - 1))
  }

  /** The last id that was applied without an error. */
  function LastKnown(log: Log, start: LogId, k: nat): LogId {
    if k == 0 then start else if Known(log, k) then k else LastKnown(log, start, k - 1)
  }

  // ---- Invariant ----

  /** How many fetches the consumer has handed over. */
  function Handed(n: Node): nat {
    |n.done| + |n.queue|
  }

  predicate IsEntry(log: Log, f: Fetched, id: LogId) {
    id in log && f == Fetched(id, log[id])
  }

  ghost predicate FuturesOk(log: Log, n: Node) {
    && n.lastFetchId == |n.futures|
    && forall k | 0 <= k < |n.futures| ::
         && n.futures[k].logId == k + 1
         && (n.futures[k].status.Ready? ==> IsEntry(log, n.futures[k].status.result, k + 1))
  }

  ghost predicate ListOk(n: Node) {
    var first := Handed(n) + if n.taken.Some? then 1 else 0;
    && first + |n.list| == |n.futures|
    && (forall i | 0 <= i < |n.list| :: n.list[i] == first + i)
    && (n.taken.Some? ==> n.taken.value == Handed(n))
  }

  ghost predicate TasksOk(log: Log, n: Node) {
    && (forall i | 0 <= i < |n.done| :: IsEntry(log, n.done[i], i + 1))
    && (forall i | 0 <= i < |n.queue| :: IsEntry(log, n.queue[i], |n.done| + i + 1))
  }

  ghost predicate CountersOk(log: Log, start: LogId, n: Node) {
    && n.app == Replay(log, |n.done|)
    && (n.aborted <==> !Contiguous(log, start, |n.done|))
    && (!n.aborted ==> n.lastAppliedLogId == LastKnown(log, start, |n.done|))
  }

  ghost predicate PromisesOk(log: Log, n: Node) {
    && (forall id <- n.promises :: forall p <- n.promises[id] :: p < |n.asked| && n.asked[p] == id)
    && (forall p <- n.answers :: p < |n.asked| && AnswerOk(log, |n.done|, n.asked[p], n.answers[p]))
  }

  ghost predicate AnswerOk(log: Log, k: nat, id: LogId, a: Answer) {
    && a.logId == id && 1 <= id <= k
    && Applied(Replay(log, id - 1), Batch(log, id)).1 == Ok(a.values)
  }

  ghost predicate Inv(log: Log, start: LogId, n: Node) {
    FuturesOk(log, n) && ListOk(n) && TasksOk(log, n) && CountersOk(log, start, n) && PromisesOk(log, n)
  }

  lemma {:induction false} KnownAfterStart(log: Log, start: LogId, k: nat, id: LogId)
    requires Contiguous(log, start, k) && 1 <= id <= k && Known(log, id)
    ensures start < id
    decreases id
  {
    assert FollowsOn(log, start, id);
    if id != start + 1 {
      KnownAfterStart(log, start, k, id - 1);
    }
  }

  lemma {:induction false} NoneKnown(log: Log, start: LogId, k: nat)
    requires forall id | 1 <= id <= k :: !Known(log, id)
    ensures LastKnown(log, start, k) == start
  {
    if k > 0 {
      NoneKnown(log, start, k - 1);
    }
  }

  lemma {:induction false} LastKnownBound(log: Log, start: LogId, k: nat)
    ensures LastKnown(log, start, k) == start || 1 <= LastKnown(log, start, k) <= k
  {
    if k > 0 {
      LastKnownBound(log, start, k - 1);
    }
  }

  /** The consecutive-id assertion, in terms of the log. */
  lemma NextInOrder(log: Log, start: LogId, k: nat)
    requires Contiguous(log, start, k)
    ensures LastKnown(log, start, k) == k <==> FollowsOn(log, start, k + 1)
  {
    if start == k {
      forall id | 1 <= id <= k ensures !Known(log, id) {
        if Known(log, id) {
          KnownAfterStart(log, start, k, id);
        }
      }
      NoneKnown(log, start, k);
    } else if k > 0 && !Known(log, k) {
      LastKnownBound(log, start, k - 1);
    }
  }

  lemma RunKeepsApplied(log: Log, start: LogId, n: Node)
    requires TasksOk(log, n) && CountersOk(log, start, n) && n.queue != [] && !n.aborted
    ensures CountersOk(log, start, RunNext(n))
  {
    hide Applied, AllKnown, FollowsOn;
    var k := |n.done|;
    var id := k + 1;
    var m := RunNext(n);
    assert n.queue[0] == Fetched(id, Batch(log, id));
    Counter.AppliedOk(n.app, Batch(log, id));
    NextInOrder(log, start, k);
    assert Replay(log, id) == m.app;
    assert Contiguous(log, start, id) <==> (Known(log, id) ==> FollowsOn(log, start, id));
  }

  lemma RunKeepsTasks(log: Log, n: Node)
    requires FuturesOk(log, n) && ListOk(n) && TasksOk(log, n) && n.queue != []
    ensures FuturesOk(log, RunNext(n)) && ListOk(RunNext(n)) && TasksOk(log, RunNext(n))
  {
    hide Applied, Fulfil, Waiting;
    var m := RunNext(n);
    forall i | 0 <= i < |m.queue| ensures IsEntry(log, m.queue[i], |m.done| + i + 1) {
      assert m.queue[i] == n.queue[i + 1];
    }
    assert IsEntry(log, n.queue[0], |n.done| + 1);
  }

  lemma FulfilKeeps(log: Log, k: nat, asked: seq<LogId>, answers: map<nat, Answer>, waiting: seq<nat>, a: Answer)
    requires forall p <- answers :: p < |asked| && AnswerOk(log, k, asked[p], answers[p])
    requires forall p <- waiting :: p < |asked| && asked[p] == k + 1
    requires AnswerOk(log, k + 1, k + 1, a)
    ensures forall p <- Fulfil(answers, waiting, a) ::
              p < |asked| && AnswerOk(log, k + 1, asked[p], Fulfil(answers, waiting, a)[p])
  {
    hide Applied, Replay, Batch;
  }

  lemma WaitersAsked(n: Node, id: LogId)
    requires forall other <- n.promises :: forall p <- n.promises[other] :: p < |n.asked| && n.asked[p] == other
    ensures forall p <- Waiting(n.promises, id) :: p < |n.asked| && n.asked[p] == id
  {
  }

  /** What a task changes for the callers. */
  lemma RunNextCallers(n: Node)
    requires n.queue != []
    ensures var m, task := RunNext(n), n.queue[0];
            var values := Applied(n.app, task.batch).1;
            && m.asked == n.asked && |m.done| == |n.done| + 1
            && (values.Err? ==> m.answers == n.answers && m.promises == n.promises)
            && (values.Ok? ==> m.promises == n.promises - {task.logId})
            && (values.Ok? ==>
                  var a := Answer(task.logId, values.value);
                  m.answers == Fulfil(n.answers, Waiting(n.promises, task.logId), a))
  {
    hide Applied, Fulfil, Waiting;
  }

  lemma RunKeepsPromises(log: Log, start: LogId, n: Node)
    requires TasksOk(log, n) && CountersOk(log, start, n) && PromisesOk(log, n) && n.queue != []
    ensures PromisesOk(log, RunNext(n))
  {
    hide Applied, Contiguous, LastKnown, Fulfil, RunNext, Waiting;
    RunNextCallers(n);
    var k := |n.done|;
    assert n.queue[0] == Fetched(k + 1, Batch(log, k + 1));
    assert Replay(log, k) == n.app;
    var values := Applied(n.app, Batch(log, k + 1)).1;
    if values.Ok? {
      WaitersAsked(n, k + 1);
      FulfilKeeps(log, k, n.asked, n.answers, Waiting(n.promises, k + 1), Answer(k + 1, values.value));
    } else {
      FulfilKeepsNone(log, k, n.asked, n.answers);
    }
  }

  lemma FulfilKeepsNone(log: Log, k: nat, asked: seq<LogId>, answers: map<nat, Answer>)
    requires forall p <- answers :: p < |asked| && AnswerOk(log, k, asked[p], answers[p])
    ensures forall p <- answers :: p < |asked| && AnswerOk(log, k + 1, asked[p], answers[p])
  {
    hide Applied, Replay, Batch;
  }

  lemma StepInv(log: Log, start: LogId, n: Node, step: Step)
    requires Inv(log, start, n) && Enabled(log, n, step)
    ensures Inv(log, start, After(log, n, step))
  {
    if step.RunTask? {
      RunKeepsTasks(log, n);
      RunKeepsApplied(log, start, n);
      RunKeepsPromises(log, start, n);
    } else if step.AppendReturned? || step.SyncReturned? {
      RegisteredInv(log, start, n, step.logId);
    } else if step.Take? {
      TakeInv(log, start, n);
    } else if step.Hand? {
      if n.futures[n.taken.value].status.Ready? {
        HandReadyInv(log, start, n);
      } else {
        HandBrokenInv(log, start, n);
      }
    } else if step.FetchNext? {
      FetchInv(log, start, n);
    } else if step.FetchDone? {
      var id := n.futures[step.future].logId;
      FutureInv(log, start, n, step.future, Ready(Fetched(id, log[id])));
    } else if step.FetchFailed? {
      FutureInv(log, start, n, step.future, Broken);
    }
  }

  lemma RegisteredInv(log: Log, start: LogId, n: Node, id: LogId)
    requires Inv(log, start, n)
    ensures Inv(log, start, Registered(n, id))
  {
    hide Contiguous, Replay, LastKnown, IsEntry, AnswerOk;
    var m := Registered(n, id);
    assert CountersOk(log, start, m) && ListOk(m) && FuturesOk(log, m) && TasksOk(log, m);
    forall p | p in m.answers ensures p < |m.asked| && AnswerOk(log, |m.done|, m.asked[p], m.answers[p]) {
      assert m.asked[p] == n.asked[p];
    }
  }

  lemma FetchInv(log: Log, start: LogId, n: Node)
    requires Inv(log, start, n)
    ensures Inv(log, start, Fetch(n))
  {
    hide Contiguous, Replay, LastKnown, IsEntry, AnswerOk;
    var m := Fetch(n);
    assert CountersOk(log, start, m) && PromisesOk(log, m) && TasksOk(log, m) && ListOk(m);
    assert FuturesOk(log, m);
  }

  lemma FutureInv(log: Log, start: LogId, n: Node, k: nat, status: Status)
    requires Inv(log, start, n) && k < |n.futures|
    requires status.Ready? ==> IsEntry(log, status.result, n.futures[k].logId)
    ensures Inv(log, start, n.(futures := n.futures[k := Future(n.futures[k].logId, status)]))
  {
    hide Contiguous, Replay, LastKnown, IsEntry, AnswerOk;
    var m := n.(futures := n.futures[k := Future(n.futures[k].logId, status)]);
    assert CountersOk(log, start, m) && PromisesOk(log, m) && TasksOk(log, m) && ListOk(m);
    assert FuturesOk(log, m);
  }

  lemma TakeInv(log: Log, start: LogId, n: Node)
    requires Inv(log, start, n) && Enabled(log, n, Take)
    ensures Inv(log, start, After(log, n, Take))
  {
    hide Contiguous, Replay, LastKnown, IsEntry, AnswerOk;
    var m := After(log, n, Take);
    assert CountersOk(log, start, m) && PromisesOk(log, m) && FuturesOk(log, m) && TasksOk(log, m);
    assert forall i | 0 <= i < |m.list| :: m.list[i] == n.list[i + 1];
    assert ListOk(m);
  }

  lemma HandTasks(log: Log, n: Node)
    requires FuturesOk(log, n) && ListOk(n) && TasksOk(log, n)
    requires n.taken.Some? && n.taken.value < |n.futures| && n.futures[n.taken.value].status.Ready?
    ensures var m := n.(taken := None, queue := n.queue + [n.futures[n.taken.value].status.result]);
            ListOk(m) && TasksOk(log, m)
  {
    hide IsEntry;
    var result := n.futures[n.taken.value].status.result;
    assert IsEntry(log, result, |n.done| + |n.queue| + 1);
  }

  lemma HandReadyInv(log: Log, start: LogId, n: Node)
    requires Inv(log, start, n)
    requires n.taken.Some? && n.taken.value < |n.futures| && n.futures[n.taken.value].status.Ready?
    ensures Inv(log, start, n.(taken := None, queue := n.queue + [n.futures[n.taken.value].status.result]))
  {
    hide Contiguous, Replay, LastKnown, IsEntry, AnswerOk;
    HandTasks(log, n);
    var m := n.(taken := None, queue := n.queue + [n.futures[n.taken.value].status.result]);
    assert CountersOk(log, start, m) && PromisesOk(log, m) && FuturesOk(log, m);
  }

  lemma HandBrokenInv(log: Log, start: LogId, n: Node)
    requires Inv(log, start, n)
    ensures Inv(log, start, n.(consuming := false))
  {
    hide Contiguous, Replay, LastKnown, IsEntry, AnswerOk;
    var m := n.(consuming := false);
    assert CountersOk(log, start, m) && PromisesOk(log, m) && FuturesOk(log, m) && TasksOk(log, m) && ListOk(m);
  }

  lemma {:induction false} RunInv(log: Log, start: LogId, run: seq<Node>, i: nat)
    requires IsRun(log, start, run) && i < |run|
    ensures Inv(log, start, run[i])
  {
    if i > 0 {
      hide Inv, Enabled, After;
      RunInv(log, start, run, i - 1);
      assert Next(log, run[i - 1], run[i - 1 + 1]);
      var step :| Enabled(log, run[i - 1], step) && run[i] == After(log, run[i - 1], step);
      StepInv(log, start, run[i - 1], step);
    }
  }

  // ---- Main results ----

  /** Every node applies log ids 1, 2, 3, … in order and nothing else, and holds their replay. */
  lemma InOrderApply(log: Log, start: LogId, n: Node)
    requires Reachable(log, start, n)
    ensures forall i | 0 <= i < |n.done| :: IsEntry(log, n.done[i], i + 1)
    ensures n.app == Replay(log, |n.done|)
  {
    var run :| IsRun(log, start, run) && run[|run| - 1] == n;
    RunInv(log, start, run, |run| - 1);
  }

  /** The consecutive-id assertion fails exactly when an applicable batch follows neither the start nor another one. */
  lemma AssertionIsExact(log: Log, start: LogId, n: Node)
    requires Reachable(log, start, n)
    ensures n.aborted <==> !Contiguous(log, start, |n.done|)
    ensures !n.aborted ==> n.lastAppliedLogId == LastKnown(log, start, |n.done|)
  {
    var run :| IsRun(log, start, run) && run[|run| - 1] == n;
    RunInv(log, start, run, |run| - 1);
  }

  /** From the default start, with known commands, it never fails and the last applied id counts the tasks. */
  lemma DefaultStartNeverAborts(log: Log, n: Node)
    requires Reachable(log, 0, n)
    requires forall id | 1 <= id <= |n.done| :: Known(log, id)
    ensures !n.aborted && n.lastAppliedLogId == |n.done|
  {
    AssertionIsExact(log, 0, n);
    assert Contiguous(log, 0, |n.done|);
  }

  /** From any other start the first batch that can be applied at id 1 fails it. */
  lemma OtherStartsAbort(log: Log, start: LogId, n: Node)
    requires Reachable(log, start, n) && n.done != [] && Known(log, 1)
    ensures start != 0 ==> n.aborted
  {
    AssertionIsExact(log, start, n);
    if start != 0 {
      assert !FollowsOn(log, start, 1);
    }
  }

  /** A fulfilled promise carries the result of applying its own id to the counters just before that id. */
  lemma PromisesGetTheirOwnResult(log: Log, start: LogId, n: Node, p: nat)
    requires Reachable(log, start, n) && p in n.answers
    ensures p < |n.asked| && 1 <= n.asked[p] <= |n.done|
    ensures Applied(Replay(log, n.asked[p] - 1), Batch(log, n.asked[p])).1 == Ok(n.answers[p].values)
  {
    var run :| IsRun(log, start, run) && run[|run| - 1] == n;
    RunInv(log, start, run, |run| - 1);
    assert AnswerOk(log, |n.done|, n.asked[p], n.answers[p]);
  }

  /** No id is fetched twice by one node. */
  lemma EachIdFetchedOnce(log: Log, start: LogId, n: Node, j: nat, k: nat)
    requires Reachable(log, start, n) && j < |n.futures| && k < |n.futures|
    requires n.futures[j].logId == n.futures[k].logId
    ensures j == k
  {
    var run :| IsRun(log, start, run) && run[|run| - 1] == n;
    RunInv(log, start, run, |run| - 1);
  }

  /** Two nodes read the same batches up to id `k`. */
  ghost predicate SameUpto(log: Log, log': Log, k: nat) {
    forall id | 1 <= id <= k :: id in log && id in log' ==> log[id] == log'[id]
  }

  lemma {:induction false} SameReplay(log: Log, log': Log, k: nat)
    requires SameUpto(log, log', k) && forall id | 1 <= id <= k :: id in log && id in log'
    ensures Replay(log, k) == Replay(log', k)
  {
    if k > 0 {
      SameReplay(log, log', k - 1);
      assert k in log && k in log';
    }
  }

  /** Nodes that read the same batches: the shorter history is a prefix, and at equal length the counters are equal. */
  lemma NodesAgree(log: Log, start: LogId, a: Node, log': Log, start': LogId, b: Node)
    requires Reachable(log, start, a) && Reachable(log', start', b) && |a.done| <= |b.done|
    requires SameUpto(log, log', |a.done|)
    ensures a.done <= b.done
    ensures |a.done| == |b.done| ==> a.app == b.app
  {
    InOrderApply(log, start, a);
    InOrderApply(log', start', b);
    forall i | 0 <= i < |a.done| ensures a.done[i] == b.done[i] {
      assert IsEntry(log, a.done[i], i + 1) && IsEntry(log', b.done[i], i + 1);
    }
    if |a.done| == |b.done| {
      forall id | 1 <= id <= |a.done| ensures id in log && id in log' {
        assert IsEntry(log, a.done[id - 1], id) && IsEntry(log', b.done[id - 1], id);
      }
      SameReplay(log, log', |a.done|);
    }
  }

  lemma {:induction false} ReplayIsSum(log: Log, k: nat, key: string)
    requires forall id | 1 <= id <= k :: Known(log, id)
    ensures Get(Replay(log, k), key) == SumTo(log, k, key)
  {
    if k > 0 {
      assert Known(log, k);
      ReplayIsSum(log, k - 1, key);
      AppliedIsSum(Replay(log, k - 1), Batch(log, k), key);
    }
  }

  /** Each counter is the signed sum of its key's entries in the ids applied so far. */
  lemma CountersAreSums(log: Log, start: LogId, n: Node, key: string)
    requires Reachable(log, start, n)
    requires forall id | 1 <= id <= |n.done| :: Known(log, id)
    ensures Get(n.app, key) == SumTo(log, |n.done|, key)
  {
    InOrderApply(log, start, n);
    ReplayIsSum(log, |n.done|, key);
  }

  lemma StepReaches(log: Log, start: LogId, n: Node, step: Step)
    requires Reachable(log, start, n) && Enabled(log, n, step)
    ensures Reachable(log, start, After(log, n, step))
  {
    var run :| IsRun(log, start, run) && run[|run| - 1] == n;
    var m := After(log, n, step);
    var longer := run + [m];
    forall i | 0 <= i < |longer| - 1 ensures Next(log, longer[i], longer[i + 1]) {
      if i < |run| - 1 {
        assert Next(log, run[i], run[i + 1]);
      } else {
        assert Enabled(log, longer[i], step) && longer[i + 1] == After(log, longer[i], step);
      }
    }
    assert IsRun(log, start, longer);
  }

  /** The producer's loop is a series of single fetches, so all of the above holds after it. */
  lemma {:induction false} FetchAllReaches(log: Log, start: LogId, n: Node)
    requires Reachable(log, start, n) && !n.aborted
    ensures Reachable(log, start, FetchAll(n))
    decreases n.to - n.lastFetchId
  {
    if n.lastFetchId + 1 <= n.to {
      StepReaches(log, start, n, FetchNext);
      FetchAllReaches(log, start, Fetch(n));
    }
  }

  lemma {:induction false} FetchAllShape(n: Node)
    ensures var m := FetchAll(n);
            && m.lastFetchId == (if n.lastFetchId < n.to then n.to else n.lastFetchId)
            && m.to == n.to && m.targetLogId == n.targetLogId && n.futures <= m.futures && n.list <= m.list
    decreases n.to - n.lastFetchId
  {
    if n.lastFetchId + 1 <= n.to {
      FetchAllShape(Fetch(n));
    }
  }

  /** Once woken, the producer's loop starts a fetch for every id up to the target. */
  lemma ProducerReachesTarget(log: Log, start: LogId, n: Node)
    requires Reachable(log, start, n) && Enabled(log, n, Wake)
    ensures var m := FetchAll(After(log, n, Wake));
            Reachable(log, start, m) && m.lastFetchId >= n.targetLogId && m.targetLogId == n.targetLogId
    ensures n.lastFetchId < n.targetLogId ==> FetchAll(After(log, n, Wake)).lastFetchId == n.targetLogId
  {
    hide Reachable;
    StepReaches(log, start, n, Wake);
    FetchAllReaches(log, start, After(log, n, Wake));
    FetchAllShape(After(log, n, Wake));
  }

  // ---- No caller is lost ----

  /** A promise is fulfilled, or still waits under the id it was registered for. */
  ghost predicate Kept(n: Node, p: nat)
    requires p < |n.asked|
  {
    p in n.answers || p in Waiting(n.promises, n.asked[p])
  }

  ghost predicate AllKept(n: Node) {
    forall p: nat | p < |n.asked| :: Kept(n, p)
  }

  /** A task whose batch can be applied answers everyone who waits for its id, and keeps all other answers. */
  lemma TaskAnswersAll(n: Node, p: nat)
    requires n.queue != [] && Applied(n.app, n.queue[0].batch).1.Ok?
    ensures var m, id := RunNext(n), n.queue[0].logId;
            && (p in Waiting(n.promises, id) ==>
                  p in m.answers && m.answers[p] == Answer(id, Applied(n.app, n.queue[0].batch).1.value))
            && (p !in Waiting(n.promises, id) ==>
                  (p in m.answers <==> p in n.answers) && (p in n.answers ==> m.answers[p] == n.answers[p]))
            && id !in m.promises
            && forall other | other != id :: Waiting(m.promises, other) == Waiting(n.promises, other)
  {
  }

  /** A batch that throws answers nobody, and its callers go on waiting. */
  lemma FailedTaskAnswersNone(n: Node)
    requires n.queue != [] && Applied(n.app, n.queue[0].batch).1.Err?
    ensures RunNext(n).answers == n.answers && RunNext(n).promises == n.promises
  {
  }

  lemma TaskKeeps(n: Node)
    requires AllKept(n) && n.queue != []
    ensures AllKept(RunNext(n))
  {
    hide Applied, Fulfil, Waiting;
    var m := RunNext(n);
    forall p: nat | p < |m.asked| ensures Kept(m, p) {
      assert Kept(n, p);
      if Applied(n.app, n.queue[0].batch).1.Ok? {
        TaskAnswersAll(n, p);
      }
    }
  }

  lemma RegisteredKeeps(n: Node, id: LogId)
    requires AllKept(n)
    ensures AllKept(Registered(n, id))
  {
    var m := Registered(n, id);
    forall p: nat | p < |m.asked| ensures Kept(m, p) {
      assert p < |n.asked| ==> Kept(n, p);
    }
  }

  lemma StepKept(log: Log, n: Node, step: Step)
    requires AllKept(n) && Enabled(log, n, step)
    ensures AllKept(After(log, n, step))
  {
    var m := After(log, n, step);
    if step.RunTask? {
      TaskKeeps(n);
    } else if m.asked != n.asked {
      RegisteredKeeps(n, step.logId);
    } else {
      hide Applied, Fulfil;
      forall p: nat | p < |m.asked| ensures Kept(m, p) {
        assert Kept(n, p);
      }
    }
  }

  lemma {:induction false} RunKept(log: Log, start: LogId, run: seq<Node>, i: nat)
    requires IsRun(log, start, run) && i < |run|
    ensures AllKept(run[i])
  {
    if i > 0 {
      hide AllKept, Enabled, After;
      RunKept(log, start, run, i - 1);
      assert Next(log, run[i - 1], run[i - 1 + 1]);
      var step :| Enabled(log, run[i - 1], step) && run[i] == After(log, run[i - 1], step);
      StepKept(log, run[i - 1], step);
    }
  }

  /** In every run each registered promise has been fulfilled or still waits for its id. */
  lemma NoPromiseIsLost(log: Log, start: LogId, n: Node, p: nat)
    requires Reachable(log, start, n) && p < |n.asked|
    ensures p in n.answers || (n.asked[p] in n.promises && p in n.promises[n.asked[p]])
  {
    var run :| IsRun(log, start, run) && run[|run| - 1] == n;
    RunKept(log, start, run, |run| - 1);
    assert Kept(n, p);
  }

  /** Callers may come at any time, and any fetch may fail, as long as the node runs. */
  lemma AlwaysEnabled(log: Log, n: Node, id: LogId, k: nat)
    ensures Enabled(log, n, AppendReturned(id)) <==> !n.aborted
    ensures Enabled(log, n, SyncReturned(id)) <==> !n.aborted
    ensures k < |n.futures| ==> (Enabled(log, n, FetchFailed(k)) <==> !n.aborted && n.futures[k].status.Running?)
  {
  }

  /** A sync waits exactly when its id has not been counted as applied. */
  lemma SyncWaitsIff(log: Log, n: Node, id: LogId)
    requires Enabled(log, n, SyncReturned(id))
    ensures var m := After(log, n, SyncReturned(id));
            if id <= n.lastAppliedLogId then m == n
            else |m.asked| == |n.asked| + 1 && m.asked[|n.asked|] == id && |n.asked| in Waiting(m.promises, id)
  {
  }

  /** From the default start a sync that does not wait finds the counters replayed up to its id. */
  lemma SyncSees(log: Log, n: Node, id: LogId)
    requires Reachable(log, 0, n) && !n.aborted && id <= n.lastAppliedLogId
    ensures id <= |n.done| && n.app == Replay(log, |n.done|)
  {
    InOrderApply(log, 0, n);
    AssertionIsExact(log, 0, n);
    LastKnownBound(log, 0, |n.done|);
  }

  // ---- Runs that fail the assertion ----

  ghost predicate AllIn(log: Log, k: nat) {
    forall id | 1 <= id <= k :: id in log
  }

  /** Everything asked for so far was fetched and applied. */
  ghost predicate Idle(n: Node, k: nat) {
    && n.to == k && n.lastFetchId == k && n.targetLogId <= k && |n.futures| == k && |n.done| == k
    && n.list == [] && n.taken == None && n.consuming && n.queue == [] && !n.aborted
  }

  /** One more id on its way from its caller to the single thread. */
  lemma DriveOne(log: Log, start: LogId, n: Node, k: nat) returns (m: Node)
    requires Reachable(log, start, n) && Idle(n, k) && k + 1 in log
    ensures Reachable(log, start, m) && |m.done| == k + 1 && (m.aborted || Idle(m, k + 1))
  {
    hide Reachable, Applied;
    StepReaches(log, start, n, AppendReturned(k + 1));
    var n1 := Registered(n, k + 1);
    StepReaches(log, start, n1, Wake);
    var n2 := n1.(to := k + 1);
    StepReaches(log, start, n2, FetchNext);
    var n3 := Fetch(n2);
    StepReaches(log, start, n3, FetchDone(k));
    var n4 := After(log, n3, FetchDone(k));
    StepReaches(log, start, n4, Take);
    var n5 := TakeFront(n4);
    StepReaches(log, start, n5, Hand);
    var n6 := HandOver(n5);
    StepReaches(log, start, n6, RunTask);
    m := RunNext(n6);
  }

  lemma InitialReached(log: Log, start: LogId)
    ensures Reachable(log, start, Initial(start))
  {
    var run := [Initial(start)];
    assert IsRun(log, start, run) && run[|run| - 1] == Initial(start);
  }

  /** The node that is asked for one id after the other, until it fails or has applied `k`. */
  lemma {:induction false} Drive(log: Log, start: LogId, k: nat) returns (n: Node)
    requires AllIn(log, k)
    ensures Reachable(log, start, n) && (n.aborted || Idle(n, k))
  {
    if k == 0 {
      n := Initial(start);
      InitialReached(log, start);
    } else {
      n := Drive(log, start, k - 1);
      if !n.aborted {
        n := DriveOne(log, start, n, k - 1);
      }
    }
  }

  ghost predicate MayAbort(log: Log, start: LogId) {
    exists n :: Reachable(log, start, n) && n.aborted
  }

  /** A run that fails the assertion exists exactly when the readable ids hold a batch out of order. */
  lemma MayAbortIff(log: Log, start: LogId)
    ensures MayAbort(log, start) <==> exists k: nat :: AllIn(log, k) && !Contiguous(log, start, k)
  {
    hide Reachable, Contiguous;
    if MayAbort(log, start) {
      var n :| Reachable(log, start, n) && n.aborted;
      InOrderApply(log, start, n);
      AssertionIsExact(log, start, n);
      var k := |n.done|;
      forall id | 1 <= id <= k ensures id in log {
        assert IsEntry(log, n.done[id - 1], id);
      }
      assert AllIn(log, k) && !Contiguous(log, start, k);
    }
    if k: nat :| AllIn(log, k) && !Contiguous(log, start, k) {
      var n := Drive(log, start, k);
      AssertionIsExact(log, start, n);
      assert n.aborted;
    }
  }

  /** From a start other than the default, a known batch at id 1 is enough. */
  lemma OtherStartsMayAbort(log: Log, start: LogId)
    requires start != 0 && 1 in log && Known(log, 1)
    ensures MayAbort(log, start)
  {
    assert !FollowsOn(log, start, 1);
    assert AllIn(log, 1) && !Contiguous(log, start, 1);
    MayAbortIff(log, start);
  }

  /** From the default start it takes a known batch right behind an unknown one. */
  lemma DefaultStartMayAbortIff(log: Log)
    ensures MayAbort(log, 0) <==>
            exists id: nat :: id >= 1 && AllIn(log, id + 1) && !Known(log, id) && Known(log, id + 1)
  {
    MayAbortIff(log, 0);
    if k: nat :| AllIn(log, k) && !Contiguous(log, 0, k) {
      var id :| 1 <= id <= k && Known(log, id) && !FollowsOn(log, 0, id);
      assert AllIn(log, id - 1 + 1) && !Known(log, id - 1);
    }
    if id: nat :| id >= 1 && AllIn(log, id + 1) && !Known(log, id) && Known(log, id + 1) {
      assert !FollowsOn(log, 0, id + 1);
      assert !Contiguous(log, 0, id + 1);
    }
  }

  // ---- The objects ----

  /** The list of futures between the producer and the consumer. */
  class FlatMapSequential {
    var futures: seq<Future>
    var list: seq<nat>
    var taken: Option<nat>

    constructor ()
      ensures futures == [] && list == [] && taken == None
    {
      futures, list, taken := [], [], None;
    }

    method Add(logId: LogId)
      modifies this
      ensures futures == old(futures) + [Future(logId, Running)]
      ensures list == old(list) + [|old(futures)|] && taken == old(taken)
    {
      futures := futures + [Future(logId, Running)];
      list := list + [|futures| - 1];
    }

    method PopFront()
      requires list != []
      modifies this
      ensures taken.Some? && old(list) == [taken.value] + list && futures == old(futures)
    {
      taken := Some(list[0]);
      list := list[1..];
    }

    /** A fetch ends, with what it read or without. */
    method Complete(future: nat, status: Status)
      requires future < |futures|
      modifies this`futures
      ensures futures == old(futures)[future := Future(old(futures)[future].logId, status)]
    {
      futures := futures[future := Future(futures[future].logId, status)];
    }

    /** The consumer's wait for the future it took is over. */
    method Await() returns (result: Option<Fetched>)
      requires taken.Some? && taken.value < |futures| && !futures[taken.value].status.Running?
      modifies this`taken
      ensures var status := futures[old(taken).value].status;
              if status.Ready? then result == Some(status.result) && taken == None
              else result == None && taken == old(taken)
    {
      var status := futures[taken.value].status;
      if status.Ready? {
        taken := None;
        return Some(status.result);
      }
      return None;
    }
  }

  class VirtualLogStateMachine {
    const flatMapSeq: FlatMapSequential
    const app: CounterApp
    var to: LogId
    var lastFetchId: LogId
    var targetLogId: LogId
    var lastAppliedLogId: LogId
    var promises: map<LogId, seq<nat>>
    var answers: map<nat, Answer>
    var registered: nat
    var queue: seq<Fetched>
    var consuming: bool
    var aborted: bool
    ghost var asked: seq<LogId>
    ghost var done: seq<Fetched>

    ghost predicate Valid()
      reads this
    {
      registered == |asked|
    }

    ghost function Abs(): Node
      reads this, flatMapSeq, app
    {
      Node(to, lastFetchId, targetLogId, flatMapSeq.futures, flatMapSeq.list, flatMapSeq.taken, consuming, queue, done,
           app.lookup, lastAppliedLogId, promises, asked, answers, aborted)
    }

    constructor (start: LogId)
      ensures Valid() && Abs() == Initial(start)
      ensures fresh(flatMapSeq) && fresh(app)
    {
      flatMapSeq := new FlatMapSequential();
      app := new CounterApp();
      to, lastFetchId, targetLogId, lastAppliedLogId := 0, 0, -1, start;
      promises, answers, registered, queue, consuming, aborted := map[], map[], 0, [], true, false;
      asked, done := [], [];
    }

    /** The part of append that follows the log's answer. */
    method Register(logId: LogId)
      requires Valid()
      modifies this
      ensures Valid() && Abs() == Registered(old(Abs()), logId)
      ensures registered == old(registered) + 1 && asked == old(asked) + [logId] && targetLogId >= logId
      ensures logId in promises && old(registered) in promises[logId]
    {
      promises := promises[logId := (if logId in promises then promises[logId] else []) + [registered]];
      registered := registered + 1;
      asked := asked + [logId];
      if logId >= targetLogId {
        targetLogId := logId;
      }
    }

    /** The part of sync that follows the log's answer; true when there is nothing to wait for. */
    method Sync(syncedTo: LogId) returns (already: bool)
      requires Valid()
      modifies this
      ensures Valid() && already == (syncedTo - 1 <= old(lastAppliedLogId))
      ensures Abs() == if already then old(Abs()) else Registered(old(Abs()), syncedTo - 1)
    {
      var logId := syncedTo - 1;
      if logId <= lastAppliedLogId {
        return true;
      }
      Register(logId);
      return false;
    }

    /** The producer, once woken: a fetch for every id up to the target, in order. */
    method Produce()
      requires Valid() && to < targetLogId
      modifies this, flatMapSeq
      ensures Valid() && Abs() == FetchAll(old(Abs()).(to := old(targetLogId)))
    {
      to := targetLogId;
      assert Abs() == old(Abs()).(to := old(targetLogId));
      while lastFetchId + 1 <= to
        invariant Valid() && to == old(targetLogId)
        invariant FetchAll(Abs()) == FetchAll(old(Abs()).(to := old(targetLogId)))
      {
        ghost var before := Abs();
        var nextLogId := lastFetchId + 1;
        flatMapSeq.Add(nextLogId);
        lastFetchId := nextLogId;
        assert Abs() == Fetch(before);
      }
    }

    /** The consumer, when a future is in the list and it waits for none. */
    method Take()
      requires Valid() && consuming && flatMapSeq.taken.None? && flatMapSeq.list != []
      modifies flatMapSeq
      ensures Valid() && Abs() == TakeFront(old(Abs()))
    {
      flatMapSeq.PopFront();
    }

    /** The consumer, when the future it waits for is over: a broken one throws out of the loop. */
    method Hand()
      requires Valid() && consuming && flatMapSeq.taken.Some? && flatMapSeq.taken.value < |flatMapSeq.futures|
      requires !flatMapSeq.futures[flatMapSeq.taken.value].status.Running?
      modifies this, flatMapSeq
      ensures Valid() && Abs() == HandOver(old(Abs()))
      ensures var status := flatMapSeq.futures[old(flatMapSeq.taken.value)].status;
              && (status.Ready? ==> queue == old(queue) + [status.result] && flatMapSeq.taken == None && consuming)
              && (!status.Ready? ==> queue == old(queue) && !consuming)
    {
      var result := flatMapSeq.Await();
      if result.Some? {
        queue := queue + [result.value];
      } else {
        consuming := false;
      }
    }

    /** The next task on the single thread: apply, answer the callers, check the order. */
    method RunTask()
      requires Valid() && queue != [] && !aborted
      modifies this, app
      ensures Valid() && Abs() == RunNext(old(Abs()))
      ensures var task, result := old(queue)[0], Applied(old(app.lookup), old(queue)[0].batch).1;
              && (result.Ok? ==> forall p <- Waiting(old(promises), task.logId) ::
                    p in answers && answers[p] == Answer(task.logId, result.value))
              && (forall p <- old(answers) | result.Ok? ==> p !in Waiting(old(promises), task.logId) ::
                    p in answers && answers[p] == old(answers)[p])
              && (result.Err? ==> answers == old(answers) && promises == old(promises))
    {
      hide Applied, Fulfil;
      var task := queue[0];
      queue := queue[1..];
      done := done + [task];
      // The id field of the entry is never set by append.
      var result := app.Apply(task.batch, 0);
      if result.Err? {
        return;
      }
      Conclude(task.logId, result.value);
    }

    /** The part of a task under the mutex: answer the callers, check the order, count the id as applied. */
    method Conclude(logId: LogId, values: Values)
      requires !aborted
      modifies this`answers, this`promises, this`aborted, this`lastAppliedLogId
      ensures answers == Fulfil(old(answers), Waiting(old(promises), logId), Answer(logId, values))
      ensures logId in old(promises) ==>
                forall p <- old(promises)[logId] :: p in answers && answers[p] == Answer(logId, values)
      ensures forall p <- old(answers) | logId in old(promises) ==> p !in old(promises)[logId] ::
                p in answers && answers[p] == old(answers)[p]
      ensures forall p <- answers :: p in old(answers) || (logId in old(promises) && p in old(promises)[logId])
      ensures promises == old(promises) - {logId}
      ensures aborted == (old(lastAppliedLogId) + 1 != logId)
      ensures lastAppliedLogId == if aborted then old(lastAppliedLogId) else logId
    {
      var waiting := if logId in promises then promises[logId] else [];
      SetValues(waiting, Answer(logId, values));
      promises := promises - {logId};
      if lastAppliedLogId + 1 == logId {
        lastAppliedLogId := logId;
      } else {
        aborted := true;
      }
    }

    /** Fulfils every promise waiting for one id. */
    method SetValues(waiting: seq<nat>, answer: Answer)
      modifies this`answers
      ensures answers == Fulfil(old(answers), waiting, answer)
    {
      for i := 0 to |waiting|
        invariant answers == Fulfil(old(answers), waiting[..i], answer)
      {
        assert waiting[..i + 1] == waiting[..i] + [waiting[i]];
        answers := answers[waiting[i] := answer];
      }
      assert waiting[..|waiting|] == waiting;
    }
  }
}
