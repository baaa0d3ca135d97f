/**
 * The replicated counters (applications/counter/CounterApp.cc).
 */
module Counter {
  import opened Options

  /** The command byte of an entry may be one this version does not know. */
  datatype Command = Incr | Decr | Unknown

  datatype Entry = Entry(command: Command, key: string, val: int)

  datatype KeyValue = KeyValue(key: string, val: int)

  datatype Error = UnknownCommand

  datatype Operation = IncrOperation(key: string, amount: int) | DecrOperation(key: string, amount: int)

  type Lookup = map<string, int>

  type Values = seq<KeyValue>

  function Get(lookup: Lookup, key: string): int {
    if key in lookup then lookup[key] else 0
  }

  /** What an entry adds to its key. */
  function Delta(e: Entry): int {
    match e.command
    case Incr => e.val
    case Decr => -e.val
    case Unknown => 0
  }

  /** The counters after a batch, and the running values it reports; an unknown command stops it half way. */
  function Applied(lookup: Lookup, entries: seq<Entry>): (r: (Lookup, Result<Values, Error>))
    decreases |entries|
  {
    if entries == [] then (lookup, Ok([])) else
      var last := |entries| - 1;
      var (before, values) := Applied(lookup, entries[..last]);
      var e := entries[last];
      if values.Err? then (before, values)
      else
        var val := Get(before, e.key) + Delta(e);
        (before[e.key := val],
         if e.command.Unknown? then Err(UnknownCommand) else Ok(values.value + [KeyValue(e.key, val)]))
  }

  predicate AllKnown(entries: seq<Entry>) {
    forall e <- entries :: !e.command.Unknown?
  }

  /** The signed sum of what the entries of one key add. */
  function Sum(entries: seq<Entry>, key: string): int {
    if entries == [] then 0 else
      var last := |entries| - 1;
      Sum(entries[..last], key) + (if entries[last].key == key then Delta(entries[last]) else 0)
  }

  lemma {:induction false} AppliedOk(lookup: Lookup, entries: seq<Entry>)
    ensures Applied(lookup, entries).1.Ok? <==> AllKnown(entries)
  {
    if entries != [] {
      var last := |entries| - 1;
      AppliedOk(lookup, entries[..last]);
      assert entries == entries[..last] + [entries[last]];
      assert AllKnown(entries) <==> AllKnown(entries[..last]) && !entries[last].command.Unknown?;
    }
  }

  /** A batch of known commands moves every counter by its signed sum, and reports each running value. */
  lemma {:induction false} AppliedIsSum(lookup: Lookup, entries: seq<Entry>, key: string)
    requires AllKnown(entries)
    ensures Get(Applied(lookup, entries).0, key) == Get(lookup, key) + Sum(entries, key)
    ensures key in Applied(lookup, entries).0 <==> key in lookup || exists e <- entries :: e.key == key
  {
    AppliedOk(lookup, entries);
    if entries != [] {
      var last := |entries| - 1;
      assert entries == entries[..last] + [entries[last]];
      assert AllKnown(entries[..last]);
      AppliedOk(lookup, entries[..last]);
      AppliedIsSum(lookup, entries[..last], key);
    }
  }

  /** An unknown command stops the batch: what came before it has moved the counters, what comes behind it has not. */
  lemma {:induction false} AppliedPartly(lookup: Lookup, entries: seq<Entry>, i: nat, key: string)
    requires i < |entries| && AllKnown(entries[..i]) && entries[i].command.Unknown?
    ensures Get(Applied(lookup, entries).0, key) == Get(lookup, key) + Sum(entries[..i], key)
    ensures entries[i].key in Applied(lookup, entries).0
    ensures Applied(lookup, entries).1 == Err(UnknownCommand)
  {
    AppliedOk(lookup, entries[..i]);
    AppliedIsSum(lookup, entries[..i], key);
    assert entries[..i + 1][..i] == entries[..i];
    assert Applied(lookup, entries[..i + 1]).1 == Err(UnknownCommand);
    ErrorStays(lookup, entries, i + 1);
  }

  lemma {:induction false} ReportedValues(lookup: Lookup, entries: seq<Entry>, i: nat)
    requires AllKnown(entries) && i < |entries|
    ensures var r := Applied(lookup, entries).1;
            && r.Ok? && |r.value| == |entries|
            && r.value[i] == KeyValue(entries[i].key,
                                         Get(lookup, entries[i].key) + Sum(entries[..i + 1], entries[i].key))
    decreases |entries|
  {
    var last := |entries| - 1;
    assert entries == entries[..last] + [entries[last]];
    AppliedOk(lookup, entries);
    assert AllKnown(entries[..last]);
    AppliedOk(lookup, entries[..last]);
    if i < last {
      ReportedValues(lookup, entries[..last], i);
      assert entries[..last][..i + 1] == entries[..i + 1];
    } else {
      if last > 0 {
        ReportedValues(lookup, entries[..last], last - 1);
      }
      AppliedIsSum(lookup, entries[..last], entries[last].key);
      assert entries[..i + 1] == entries;
    }
  }

  class CounterApp {
    var lookup: Lookup
    var lastAppliedEntry: nat

    constructor ()
      ensures lookup == map[] && lastAppliedEntry == 0
    {
      lookup, lastAppliedEntry := map[], 0;
    }

    method Apply(entries: seq<Entry>, logId: nat) returns (result: Result<Values, Error>)
      modifies this
      ensures (lookup, result) == Applied(old(lookup), entries)
      ensures lastAppliedEntry == if result.Ok? then logId else old(lastAppliedEntry)
    {
      var counterValues := [];
      for i := 0 to |entries|
        invariant Applied(old(lookup), entries[..i]) == (lookup, Ok(counterValues))
        invariant lastAppliedEntry == old(lastAppliedEntry)
      {
        var e := entries[i];
        assert entries[..i + 1][..i] == entries[..i];
        var val := Get(lookup, e.key);
        match e.command {
          case Incr =>
            lookup := lookup[e.key := val + e.val];
            counterValues := counterValues + [KeyValue(e.key, lookup[e.key])];
          case Decr =>
            lookup := lookup[e.key := val - e.val];
            counterValues := counterValues + [KeyValue(e.key, lookup[e.key])];
          case Unknown =>
            lookup := lookup[e.key := val];
            ErrorStays(old(lookup), entries, i + 1);
            return Err(UnknownCommand);
        }
      }
      assert entries[..|entries|] == entries;
      lastAppliedEntry := logId;
      return Ok(counterValues);
    }
  }

  lemma {:induction false} ErrorStays(lookup: Lookup, entries: seq<Entry>, i: nat)
    requires i <= |entries| && Applied(lookup, entries[..i]).1.Err?
    ensures Applied(lookup, entries) == Applied(lookup, entries[..i])
    decreases |entries|
  {
    if i == |entries| {
      assert entries[..i] == entries;
    } else {
      assert entries[..|entries| - 1][..i] == entries[..i];
      ErrorStays(lookup, entries[..|entries| - 1], i);
    }
  }

  function ToEntry(op: Operation): (e: Entry)
    ensures !e.command.Unknown? && e.key == op.key
    ensures Delta(e) == if op.IncrOperation? then op.amount else -op.amount
  {
    match op
    case IncrOperation(key, amount) => Entry(Incr, key, amount)
    case DecrOperation(key, amount) => Entry(Decr, key, amount)
  }

  /** The log entry of a batch of operations: one known command each, in order. */
  method Serialize(operations: seq<Operation>) returns (entries: seq<Entry>)
    ensures |entries| == |operations| && AllKnown(entries)
    ensures forall i | 0 <= i < |operations| :: entries[i] == ToEntry(operations[i])
  {
    entries := [];
    for i := 0 to |operations|
      invariant |entries| == i && AllKnown(entries)
      invariant forall j | 0 <= j < i :: entries[j] == ToEntry(operations[j])
    {
      var op := operations[i];
      if op.IncrOperation? {
        entries := entries + [Entry(Incr, op.key, op.amount)];
      } else {
        entries := entries + [Entry(Decr, op.key, op.amount)];
      }
    }
  }
}
