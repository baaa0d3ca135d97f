/**
 * When reads of one id agree.  A read returns what some replica of the id's version stores, acknowledged or not
 * (log/impl/VirtualLogImpl.cc), and a reconfiguration may give an id that was never acknowledged to the next version.
 */
module LogReads {
  import opened Options
  import opened Quorums
  import opened MetadataStore
  import opened CompletionQueue
  import opened NanoLogs
  import opened LogProtocol
  import opened LogRuns
  import LogSafety

  /** At this moment `live` are all the replicas that acknowledged the id unsealed. */
  datatype Acked = Acked(moment: nat, live: set<nat>, version: int, id: int)

  /** A read that looks an id up in one moment and finds its payload in a later one. */
  datatype ReadAt = ReadAt(lookup: nat, found: nat, payload: string)

  ghost predicate IsRead(run: seq<State>, from: nat, x: int, r: ReadAt) {
    from <= r.lookup <= r.found < |run| && MayRead(run[r.lookup], run[r.found], x, r.payload)
  }

  /** After the acknowledgement, two reads look up an id at or below its id and return different payloads. */
  ghost predicate ReadsDiffer(run: seq<State>, n: nat, a: Acked, x: int, r: ReadAt, r': ReadAt) {
    && IsRun(run) && |run[0].replicas| == n && a.moment < |run|
    && LiveSet(run[a.moment], a.live, a.version, a.id) && x <= a.id && x < MAX_INDEX
    && IsRead(run, a.moment, x, r) && IsRead(run, a.moment, x, r') && r.payload != r'.payload
  }

  /** Some run of `n` replicas has such reads after `m` of them, and no others, acknowledged. */
  ghost predicate ReadsMayDiffer(n: nat, m: nat) {
    exists run, a: Acked, x, r, r' :: |a.live| == m && ReadsDiffer(run, n, a, x, r, r')
  }

  /** `m` replicas outside a majority completed all three ids; the others miss id 1, so they completed nothing. */
  ghost function Roles(n: nat, m: nat): seq<Role> {
    seq(n, i => if Quorum(n) <= i < Quorum(n) + m then Full else Low)
  }

  const REUSED := NanoLog(1, false, map[2 := "x"], Queue(1, {2}))

  lemma ReusedAppend()
    ensures Append(FreshLog(1), Some(1), 2, "x", false) == (REUSED, Enqueued)
  {
    AddAbove(Queue(1, {}), 2);
    assert Queue(1, {}).pending + {2} == {2};
    SettledBound(Queue(1, {2}), 1);
  }

  /** The sealed majority reports end 1, and version 2 numbers its entries from 1 again. */
  lemma Reused(s0: State, n: nat, m: nat) returns (s: State)
    requires n > 0 && Leads(s0, s0) && Fed(s0, Roles(n, m), n)
    ensures Leads(s0, s) && s.meta == Second(1) && |s.replicas| == n && 2 in s.replicas[0] && s.replicas[0][2] == REUSED
  {
    hide Leads, Upto, EndsOf;
    var q, logs := Quorum(n), LogsFor(Roles(n, m));
    var s1 := SealMajority(s0, s0, logs, q, 0, 0);
    var s2 := InstallSecond(s0, s1, 0);
    s := Renumbered(s0, s2, Wrap(Sealed(logs, q)));
  }

  lemma Renumbered(s0: State, s: State, replicas: seq<map<int, NanoLog>>) returns (s': State)
    requires Leads(s0, s) && s.meta == Second(1) && s.sequencers == map[1 := Sequencer(4, 1)]
    requires |s.reconfigurers| == 1 && s.reconfigurers[0].version == 1 && s.reconfigurers[0].phase == Installed(1)
    requires s.replicas == replicas && replicas != [] && 2 !in replicas[0]
    ensures Leads(s0, s') && s'.meta == Second(1) && |s'.replicas| == |replicas|
    ensures 2 in s'.replicas[0] && s'.replicas[0][2] == REUSED
  {
    hide Leads;
    Grow(s0, s, StartSequencer(0));
    var s1 := Apply(s, StartSequencer(0));
    var s2 := Assign(s0, s1, 2, "x");
    var s3 := Assign(s0, s2, 2, "x");
    ReusedAppend();
    hide Append;
    s' := Feed(s0, s3, 2, 0, 2, FreshLog(1), REUSED);
  }

  lemma FirstRead(s: State, n: nat, m: nat)
    requires n > 0 && Fed(s, Roles(n, m), n)
    ensures MayRead(s, s, 2, "b")
  {
    assert 0 < Quorum(n);
    assert Roles(n, m)[0] == Low && LogsFor(Roles(n, m))[0] == LOW;
    assert s.replicas[0] == map[1 := LOW];
    assert 1 in META.byLogId && META.byLogId[1] == BOOT;
    assert IsIndexed(META, 2, Some(BOOT));
    assert Stores(s.replicas, 0, BOOT.version, 2);
  }

  lemma SecondRead(s: State)
    requires s.meta == Second(1) && s.replicas != [] && 2 in s.replicas[0] && s.replicas[0][2] == REUSED
    ensures MayRead(s, s, 2, "x")
  {
    var c := NextConfig(1, 1, "s", []);
    assert 1 in s.meta.byLogId && s.meta.byLogId[1] == c;
    assert IsIndexed(s.meta, 2, Some(c));
    assert Stores(s.replicas, 0, c.version, 2);
  }

  /** A run with two different reads of id 2, after `m` replicas acknowledged id 3. */
  lemma DifferingRun(n: nat, m: nat)
    requires n > 0 && m + Quorum(n) <= n
    ensures ReadsMayDiffer(n, m)
  {
    hide Leads, MayRead, Fed;
    var s0 := FedReached(Roles(n, m), n);
    var s := Reused(s0, n, m);
    FirstRead(s0, n, m);
    SecondRead(s);
    var live := Beyond(Quorum(n), m);
    FullAcked(s0, n, m, live);
    WitnessRun(s0, s, n, m, live);
  }

  lemma FullAcked(s: State, n: nat, m: nat, live: set<nat>)
    requires Fed(s, Roles(n, m), n) && m + Quorum(n) <= n
    requires forall i: nat :: i in live <==> Quorum(n) <= i < Quorum(n) + m
    ensures LiveSet(s, live, 1, 3)
  {
    forall r: nat ensures r in live <==> Ack(r, 1, 3, Live) in s.acks {
      assert r < n ==> (Roles(n, m)[r].Full? <==> Quorum(n) <= r < Quorum(n) + m);
    }
  }

  lemma WitnessRun(s0: State, s: State, n: nat, m: nat, live: set<nat>)
    requires Leads(s0, s) && |s.replicas| == n && |live| == m && LiveSet(s0, live, 1, 3)
    requires MayRead(s0, s0, 2, "b") && MayRead(s, s, 2, "x")
    ensures ReadsMayDiffer(n, m)
  {
    var run: seq<State>, i: nat :| Passes(run, i, s0, s);
    hide IsRun, MayRead, LiveSet;
    var last := |run| - 1;
    LogSafety.RunKeeps(run, 0, last);
    var a := Acked(i, live, 1, 3);
    assert |a.live| == m && ReadsDiffer(run, n, a, 2, ReadAt(i, i, "b"), ReadAt(last, last, "x"));
  }

  /**
   * Two reads of an id, made after `m` unsealed replicas and no others acknowledged it or a later id, can return
   * different payloads in some run if and only if those replicas can miss a majority.
   */
  lemma ReadsDifferIff(n: nat, m: nat)
    requires n > 0
    ensures ReadsMayDiffer(n, m) <==> m + Quorum(n) <= n
  {
    if m + Quorum(n) <= n {
      DifferingRun(n, m);
    } else if ReadsMayDiffer(n, m) {
      hide IsRun, MayRead, LiveSet, ReadsDiffer;
      var run, a: Acked, x, r, r' :| |a.live| == m && ReadsDiffer(run, n, a, x, r, r');
      ReadsCannotDiffer(run, n, a, x, r, r');
    }
  }

  lemma LiveAcked(s: State, live: set<nat>, v: int, id: int)
    requires LiveSet(s, live, v, id)
    ensures AckedLive(s, live, v, id)
  {
  }

  lemma ReadsCannotDiffer(run: seq<State>, n: nat, a: Acked, x: int, r: ReadAt, r': ReadAt)
    requires ReadsDiffer(run, n, a, x, r, r')
    ensures |a.live| + Quorum(n) <= n
  {
    if |a.live| + Quorum(n) > n {
      hide IsRun, MayRead, LiveSet;
      LogSafety.RunKeeps(run, 0, a.moment);
      LiveAcked(run[a.moment], a.live, a.version, a.id);
      LogSafety.ReadsAgree(run, a.moment, a.live, a.version, a.id, x,
                           r.lookup, r.found, r.payload, r'.lookup, r'.found, r'.payload);
    }
  }

  lemma AllFull(n: nat) returns (s: State)
    requires n > 0
    ensures Leads(s, s) && |s.replicas| == n && MayRead(s, s, 2, "b") && Acknowledged(s, Upto(n), 1, 3)
  {
    hide Leads, Upto;
    var roles := seq(n, _ => Full);
    s := FedReached(roles, n);
    assert s.replicas[0] == map[1 := FULL];
    assert 1 in META.byLogId && META.byLogId[1] == BOOT;
    assert IsIndexed(META, 2, Some(BOOT));
    assert Stores(s.replicas, 0, BOOT.version, 2);
  }

  /** Reads that look their id up after an acknowledgement do happen: here every replica completed all three ids. */
  lemma SafeReadHappens(n: nat) returns (run: seq<State>)
    requires n > 0
    ensures IsRun(run) && |run[0].replicas| == n && LogSafety.SafeRead(run, 2, "b")
  {
    hide Leads, IsRun, MayRead, Acknowledged;
    var s := AllFull(n);
    run := RunTo(s);
    var last := |run| - 1;
    LogSafety.RunKeeps(run, 0, last);
    assert LogSafety.SafeReadAt(run, 2, "b", last, Upto(n), 1, 3, last, last);
  }

  lemma RunTo(s: State) returns (run: seq<State>)
    requires Leads(s, s)
    ensures IsRun(run) && run != [] && run[|run| - 1] == s
  {
    var i: nat;
    run, i :| Passes(run, i, s, s);
  }
}
