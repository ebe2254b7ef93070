/**
 * The fake-and-record bookkeeping of the console process factory
 * (`Illuminate\Console\Process\Factory`): a recording flag, the log of
 * recorded (process, result) pairs, the ordered table of fake handlers keyed
 * by command pattern (`*` catches every command), and the flag that forbids
 * stray (unfaked) processes. The assertions over the log are pure queries
 * that answer pass or fail.
 *
 * Processes, their results and the plain values a test may give as fake
 * results are opaque: the type parameters P, R and V.
 */
module ProcessFactory {
  import opened HandlerTable
  import opened NumericString

  /** Output of a fake process: PHP allows a string or an array of lines. */
  datatype Output = Text(text: string) | Lines(lines: seq<string>)

  datatype FakeProcessResult = FakeProcessResult(output: Output, errorOutput: Output, exitCode: int)

  /** `Factory::result`: a fake result with the given output, error output and exit code. */
  function Result(output: Output := Text(""), errorOutput: Output := Text(""), exitCode: int := 0): FakeProcessResult {
    FakeProcessResult(output, errorOutput, exitCode)
  }

  /** A stored fake handler. */
  datatype Handler<V> =
    | Callback(id: nat)      // a closure given by the test, known by its identity
    | Constant(value: V)     // `fn () => $value` wrapped around a plain value
    | DefaultResult          // `fn () => new FakeProcessResult`, installed by `fake()` with no argument

  /** A key of a PHP array: an integer or a string. */
  datatype Key = IntKey(n: int) | StrKey(s: string)

  /** A value in the array given to `fake`: a closure or any other value. */
  datatype Given<V> = GivenClosure(id: nat) | GivenValue(value: V)

  datatype Entry<V> = Entry(key: Key, given: Given<V>)

  /** The argument of `fake`: nothing (null), one closure, or an array of handlers. */
  datatype FakeCallback<V> = NoCallback | OneClosure(id: nat) | HandlerArray(entries: seq<Entry<V>>)

  datatype Recorded<P, R> = Recorded(process: P, result: R)

  predicate IsNumericKey(k: Key) {
    match k
    case IntKey(_) => true
    case StrKey(s) => IsNumericString(s)
  }

  /** The handler-table key an array key writes to: numeric keys collapse to `*`. */
  function Target(k: Key): string {
    if IsNumericKey(k) then "*" else k.s
  }

  /** A closure is stored as it is; any other value is wrapped as a constant handler. */
  function AsHandler<V>(g: Given<V>): Handler<V> {
    match g
    case GivenClosure(id) => Callback(id)
    case GivenValue(v) => Constant(v)
  }

  /** The assignments the `foreach` of `fake(array)` performs, one per entry, in order. */
  function Writes<V>(entries: seq<Entry<V>>): (ws: seq<(string, Handler<V>)>)
    ensures |ws| == |entries|
    ensures forall i :: 0 <= i < |entries| ==> ws[i] == (Target(entries[i].key), AsHandler(entries[i].given))
  {
    seq(|entries|, i requires 0 <= i < |entries| => (Target(entries[i].key), AsHandler(entries[i].given)))
  }

  /** The table after the `foreach` of `fake(array)` has processed `entries`. */
  function Merge<V>(t: Table<Handler<V>>, entries: seq<Entry<V>>): Table<Handler<V>> {
    PutAll(t, Writes(entries))
  }

  /** The catch-all table that `fake()` and `fake(closure)` install. */
  function CatchAll<V>(h: Handler<V>): (t: Table<Handler<V>>)
    ensures Keys(t) == ["*"]
    ensures forall key :: Lookup(t, key) == if key == "*" then Some(h) else None
  {
    [("*", h)]
  }

  /** The array key `*` and every numeric key, and no other key, write to the catch-all entry. */
  lemma TargetIsWildcard(k: Key)
    ensures Target(k) == "*" <==> IsNumericKey(k) || k == StrKey("*")
  {
    if k == StrKey("*") {
      // Not needed for soundness: without it the solver evaluates is_numeric on
      // "*" by unfolding and, on some seeds, runs out of resource.
      WithoutDigitsNotNumeric("*");
    }
  }

  /** Merging never leaves two entries for one pattern. */
  lemma MergeKeepsDistinct<V>(t: Table<Handler<V>>, entries: seq<Entry<V>>)
    requires Distinct(Keys(t))
    ensures Distinct(Keys(Merge(t, entries)))
  {
    PutAllKeepsDistinct(t, Writes(entries));
  }

  /** Patterns already in the table keep their place; new ones come after them. */
  lemma MergeKeepsOrder<V>(t: Table<Handler<V>>, entries: seq<Entry<V>>)
    ensures Keys(t) <= Keys(Merge(t, entries))
  {
    PutAllKeepsOrder(t, Writes(entries));
  }

  /** A pattern that no entry of the array writes to keeps its previous handler (or absence). */
  lemma MergeUntouched<V>(t: Table<Handler<V>>, entries: seq<Entry<V>>, key: string)
    requires forall j :: 0 <= j < |entries| ==> Target(entries[j].key) != key
    ensures Lookup(Merge(t, entries), key) == Lookup(t, key)
  {
    PutAllUntouched(t, Writes(entries), key);
  }

  /** The last entry of the array that writes to a pattern decides that pattern's handler. */
  lemma MergeLastWins<V>(t: Table<Handler<V>>, entries: seq<Entry<V>>, j: nat)
    requires j < |entries|
    requires forall k :: j < k < |entries| ==> Target(entries[k].key) != Target(entries[j].key)
    ensures Lookup(Merge(t, entries), Target(entries[j].key)) == Some(AsHandler(entries[j].given))
  {
    PutAllLastWins(t, Writes(entries), j);
  }

  /** Count of recorded pairs that satisfy `callback`: `filter(...)->count()`. */
  function CountMatching<P, R>(log: seq<Recorded<P, R>>, callback: (P, R) -> bool): nat
    decreases |log|
  {
    if log == [] then 0
    else
      var last := log[|log| - 1];
      CountMatching(log[..|log| - 1], callback) + (if callback(last.process, last.result) then 1 else 0)
  }

  /** The positions in the log whose pair satisfies `callback`. */
  ghost function MatchingIndices<P, R>(log: seq<Recorded<P, R>>, callback: (P, R) -> bool): set<nat> {
    set i: nat | i < |log| && callback(log[i].process, log[i].result)
  }

  /** The count is the number of matching positions. */
  lemma {:induction false} CountIsMatchingIndices<P, R>(log: seq<Recorded<P, R>>, callback: (P, R) -> bool)
    ensures CountMatching(log, callback) == |MatchingIndices(log, callback)|
    decreases |log|
  {
    if log != [] {
      var n := |log| - 1;
      var front := log[..n];
      CountIsMatchingIndices(front, callback);
      var last := if callback(log[n].process, log[n].result) then {n} else {};
      assert MatchingIndices(log, callback) == MatchingIndices(front, callback) + last;
      assert n !in MatchingIndices(front, callback);
    }
  }

  /** The count is positive exactly when some recorded pair satisfies `callback`. */
  lemma {:induction false} CountPositiveIffSome<P, R>(log: seq<Recorded<P, R>>, callback: (P, R) -> bool)
    ensures CountMatching(log, callback) > 0 <==>
            exists i :: 0 <= i < |log| && callback(log[i].process, log[i].result)
    decreases |log|
  {
    if log != [] {
      var n := |log| - 1;
      var front := log[..n];
      CountPositiveIffSome(front, callback);
      if exists i :: 0 <= i < |front| && callback(front[i].process, front[i].result) {
        var i :| 0 <= i < |front| && callback(front[i].process, front[i].result);
        assert log[i] == front[i];
      }
      if exists i :: 0 <= i < |log| && callback(log[i].process, log[i].result) {
        var i :| 0 <= i < |log| && callback(log[i].process, log[i].result);
        if i < n {
          assert front[i] == log[i];
        }
      }
    }
  }

  /** A callback that accepts every pair counts the whole log. */
  lemma {:induction false} CountEveryIsLength<P, R>(log: seq<Recorded<P, R>>, callback: (P, R) -> bool)
    requires forall p, r :: callback(p, r)
    ensures CountMatching(log, callback) == |log|
    decreases |log|
  {
    if log != [] {
      CountEveryIsLength(log[..|log| - 1], callback);
    }
  }

  /** Recording one more pair raises each count by one exactly when that pair matches. */
  lemma CountAfterRecord<P, R>(log: seq<Recorded<P, R>>, pair: Recorded<P, R>, callback: (P, R) -> bool)
    ensures CountMatching(log + [pair], callback) ==
            CountMatching(log, callback) + (if callback(pair.process, pair.result) then 1 else 0)
  {
  }

  class Factory<P, R, V> {
    /** Whether the factory has fake handlers and records the processes it runs. */
    var recording: bool
    /** Every process run while recording, with its result, in order. */
    var recorded: seq<Recorded<P, R>>
    /** The fake handlers, keyed by command pattern, in insertion order. */
    var fakeHandlers: Table<Handler<V>>
    /** Whether running a process that no handler fakes is an error. */
    var preventStrayProcesses: bool

    /** The handler table never holds two entries for one pattern. */
    ghost predicate Valid()
      reads this
    {
      Distinct(Keys(fakeHandlers))
    }

    constructor ()
      ensures Valid()
      ensures !recording && recorded == [] && fakeHandlers == [] && !preventStrayProcesses
      ensures !IsRecording() && !PreventingStrayProcesses() && AssertNothingRan()
    {
      recording := false;
      recorded := [];
      fakeHandlers := [];
      preventStrayProcesses := false;
    }

    /** `fake($callback)`: start recording and install or merge fake handlers. */
    method Fake(callback: FakeCallback<V>)
      requires Valid()
      modifies this
      ensures Valid()
      ensures IsRecording()
      ensures recorded == old(recorded) && preventStrayProcesses == old(preventStrayProcesses)
      ensures callback.NoCallback? ==> fakeHandlers == CatchAll(DefaultResult)
      ensures callback.OneClosure? ==> fakeHandlers == CatchAll(Callback(callback.id))
      ensures callback.HandlerArray? ==> fakeHandlers == Merge(old(fakeHandlers), callback.entries)
    {
      recording := true;
      match callback {
        case NoCallback =>
          fakeHandlers := CatchAll(DefaultResult);
        case OneClosure(id) =>
          fakeHandlers := CatchAll(Callback(id));
        case HandlerArray(entries) =>
          var i := 0;
          while i < |entries|
            invariant 0 <= i <= |entries|
            invariant recording && recorded == old(recorded)
            invariant preventStrayProcesses == old(preventStrayProcesses)
            invariant fakeHandlers == Merge(old(fakeHandlers), entries[..i])
            invariant Valid()
          {
            var e := entries[i];
            PutKeepsDistinct(fakeHandlers, Target(e.key), AsHandler(e.given));
            fakeHandlers := Put(fakeHandlers, Target(e.key), AsHandler(e.given));
            assert Writes(entries[..i + 1])[..i] == Writes(entries[..i]);
            i := i + 1;
          }
          assert entries[..i] == entries;
      }
    }

    function IsRecording(): bool
      reads this
    {
      recording
    }

    /** `recordIfRecording`: log the pair only while recording. */
    method RecordIfRecording(process: P, result: R)
      modifies this
      ensures recorded == if old(IsRecording()) then old(recorded) + [Recorded(process, result)] else old(recorded)
      ensures recording == old(recording) && fakeHandlers == old(fakeHandlers)
      ensures preventStrayProcesses == old(preventStrayProcesses)
    {
      if IsRecording() {
        Record(process, result);
      }
    }

    /** `record`: append the pair at the end of the log. */
    method Record(process: P, result: R)
      modifies this
      ensures recorded == old(recorded) + [Recorded(process, result)]
      ensures recording == old(recording) && fakeHandlers == old(fakeHandlers)
      ensures preventStrayProcesses == old(preventStrayProcesses)
    {
      recorded := recorded + [Recorded(process, result)];
    }

    /** `preventStrayProcesses($prevent = true)`. */
    method PreventStrayProcesses(prevent: bool := true)
      modifies this
      ensures PreventingStrayProcesses() == prevent
      ensures recording == old(recording) && recorded == old(recorded) && fakeHandlers == old(fakeHandlers)
    {
      preventStrayProcesses := prevent;
    }

    function PreventingStrayProcesses(): bool
      reads this
    {
      preventStrayProcesses
    }

    /** `assertRan`: passes when some recorded pair satisfies `callback`. */
    function AssertRan(callback: (P, R) -> bool): (pass: bool)
      reads this
      ensures pass <==> exists i :: 0 <= i < |recorded| && callback(recorded[i].process, recorded[i].result)
    {
      CountPositiveIffSome(recorded, callback);
      CountMatching(recorded, callback) > 0
    }

    /** `assertRanTimes`: passes when exactly `times` recorded pairs satisfy `callback`. */
    function AssertRanTimes(callback: (P, R) -> bool, times: int := 1): (pass: bool)
      reads this
      ensures pass <==> |MatchingIndices(recorded, callback)| == times
    {
      CountIsMatchingIndices(recorded, callback);
      CountMatching(recorded, callback) == times
    }

    /** `assertNotRan`: passes when no recorded pair satisfies `callback`. */
    function AssertNotRan(callback: (P, R) -> bool): (pass: bool)
      reads this
      ensures pass <==> forall i :: 0 <= i < |recorded| ==> !callback(recorded[i].process, recorded[i].result)
      ensures pass <==> !AssertRan(callback)
    {
      CountPositiveIffSome(recorded, callback);
      CountMatching(recorded, callback) == 0
    }

    /** `assertNothingRan`: passes when the log is empty. */
    function AssertNothingRan(): (pass: bool)
      reads this
      ensures pass <==> recorded == []
      ensures pass <==> AssertNotRan((p: P, r: R) => true)
      ensures pass <==> AssertRanTimes((p: P, r: R) => true, 0)
    {
      CountEveryIsLength(recorded, (p: P, r: R) => true);
      CountIsMatchingIndices(recorded, (p: P, r: R) => true);
      |recorded| == 0
    }
  }
}
