/** The whole check of src/porcupine: partition, make the entries of every part, search every part. */
module OperationsCheck {
  import opened Checker
  import opened KvModel
  import opened KvOrders
  import opened LinearSearch
  import opened Operations
  import SearchState
  import opened Sorting

  datatype CheckResult = Unknown | Ok | Illegal

  /** checkParallel: the verdicts arrive in any order; a bad one ends the wait unless all are to be
      collected, and so does the timer, which fires after `patience` verdicts. */
  method CheckParallel<S(!new), I(!new), O(!new)>(
    m: Model<S, I, O>, histories: seq<seq<Event<I, O>>>, ghost hs: seq<History<I, O>>,
    verbose: bool, patience: nat)
    returns (result: CheckResult)
    requires |hs| == |histories| > 0
    requires forall i | 0 <= i < |hs| :: WellFormed(hs[i]) && hs[i].events == histories[i]
    ensures result.Ok? ==> forall i | 0 <= i < |hs| :: Linearizable(m, hs[i])
    ensures result.Illegal? && EqualRespectsStep(m) ==> exists i | 0 <= i < |hs| :: !Linearizable(m, hs[i])
    ensures result.Unknown? ==> patience < |histories|
  {
    var pending, count, ok := All(|histories|), 0, true;
    SearchState.AllSize(|histories|);
    while pending != {} && count < patience
      invariant pending <= All(|histories|)
      invariant |pending| + count == |histories|
      invariant ok ==> forall i | 0 <= i < |hs| && i !in pending :: Linearizable(m, hs[i])
      invariant !ok && EqualRespectsStep(m) ==> exists i | 0 <= i < |hs| :: !Linearizable(m, hs[i])
      decreases |pending|
    {
      var i :| i in pending;
      var result, order := CheckSingle(m, histories[i], hs[i]);
      pending, count, ok := pending - {i}, count + 1, ok && result;
      if !ok && !verbose {
        break;
      }
    }
    return if !ok then Illegal else if pending != {} then Unknown else Ok;
  }

  /** checkOperations for the key/value model: right whatever the history, the timer and the order of
      the verdicts. */
  method CheckOperations(ops: seq<KvOperation>, verbose: bool, patience: nat) returns (result: CheckResult)
    requires Timed(ops) && |ops| > 0
    ensures result.Ok? ==> OpsLinearizable(WHOLE_MAP, ops)
    ensures result.Illegal? ==> !OpsLinearizable(WHOLE_MAP, ops)
    ensures (result.Ok? ==> Explained(ops)) && (result.Illegal? ==> !Explained(ops))
    ensures result.Unknown? ==> patience < |Keys(ops)|
  {
    ghost var keys;
    var parts;
    parts, keys := Partition(ops);
    PartsDecide(ops, keys, parts);
    LinearizableIff(ops);
    PartsTimed(ops, keys, parts);
    var histories;
    ghost var hs;
    histories, hs := MakeHistories(parts);
    PartsChecked(parts, hs);
    assert ops[0].input.key in Keys(ops);
    result := CheckParallel(ONE_KEY, histories, hs, verbose, patience);
  }

  /** The entries of every part. */
  method MakeHistories(parts: seq<seq<KvOperation>>)
    returns (histories: seq<seq<Event<KvInput, KvOutput>>>, ghost hs: seq<History<KvInput, KvOutput>>)
    requires forall i | 0 <= i < |parts| :: Timed(parts[i])
    ensures |histories| == |hs| == |parts| && forall i | 0 <= i < |parts| :: |histories[i]| == 2 * |parts[i]|
    ensures forall i | 0 <= i < |parts| :: Times(parts[i], hs[i]) && hs[i].events == histories[i]
  {
    histories, hs := [], [];
    var i := 0;
    while i < |parts|
      invariant 0 <= i <= |parts| && |histories| == |hs| == i
      invariant forall j | 0 <= j < i :: |histories[j]| == 2 * |parts[j]|
      invariant forall j | 0 <= j < i :: Times(parts[j], hs[j]) && hs[j].events == histories[j]
    {
      ghost var h;
      var events;
      events, h := MakeEntries(parts[i]);
      histories, hs := histories + [events], hs + [h];
      i := i + 1;
    }
  }

  lemma PartsChecked(parts: seq<seq<KvOperation>>, hs: seq<History<KvInput, KvOutput>>)
    requires |hs| == |parts| && forall i | 0 <= i < |parts| :: Times(parts[i], hs[i])
    ensures EqualRespectsStep(ONE_KEY)
    ensures forall i | 0 <= i < |parts| ::
      WellFormed(hs[i]) && (Linearizable(ONE_KEY, hs[i]) <==> OpsLinearizable(ONE_KEY, parts[i]))
  {
    forall i | 0 <= i < |parts|
      ensures WellFormed(hs[i]) && (Linearizable(ONE_KEY, hs[i]) <==> OpsLinearizable(ONE_KEY, parts[i]))
    {
      HistoryDecides(ONE_KEY, parts[i], hs[i]);
    }
  }

  lemma PartsTimed(ops: seq<KvOperation>, keys: seq<string>, parts: seq<seq<KvOperation>>)
    requires Timed(ops) && Partitions(ops, keys, parts)
    ensures forall i | 0 <= i < |parts| :: Timed(parts[i])
  {
    forall i | 0 <= i < |parts| ensures Timed(parts[i]) {
      SubTimed(ops, keys[i]);
    }
  }

  lemma SubTimed(ops: seq<KvOperation>, key: string)
    requires Timed(ops)
    ensures Timed(Sub(ops, key))
  {
    forall a | 0 <= a < |Sub(ops, key)| ensures Sub(ops, key)[a].call <= Sub(ops, key)[a].ret {
      assert Sub(ops, key)[a] in ops;
    }
  }
}
