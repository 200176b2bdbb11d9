/** The scheduler callbacks: node filters, the selective gating of the
    task hooks, the first-write-wins timer with its per-name aggregation,
    and the throttling rule of the progress messages. Clock readings are
    parameters. */
module Callbacks {
  import opened Wrappers
  import opened Floats
  import Strings
  import Algorithm

  /** A dask graph key: a tuple whose first element is the array name, or a
      plain string. */
  datatype Key = Tuple(name: string, indices: seq<int>) | Text(s: string)

  /** `key[0]`: the name of a tuple key, the first character of a string
      key, and an `IndexError` (None) for the empty string. */
  function Head(key: Key): Option<string> {
    match key
    case Tuple(name, _) => Some(name)
    case Text(s) => if s == [] then None else Some(s[..1])
  }

  datatype NodeFilter = AcceptAlgorithmsOnly | AcceptAll | RejectAll

  /** The default filter of a selective callback. */
  const DefaultFilter: NodeFilter := RejectAll

  /** `NodeFilter.accept`; None when the key cannot be indexed. */
  function Accept(f: NodeFilter, key: Key): (r: Option<bool>)
    ensures f.AcceptAll? ==> r == Some(true)
    ensures f.RejectAll? ==> r == Some(false)
    ensures f.AcceptAlgorithmsOnly? && key.Tuple? ==>
              (r == Some(true) <==> Strings.StartsWith(key.name, Algorithm.Category))
  {
    match f
    case AcceptAll => Some(true)
    case RejectAll => Some(false)
    case AcceptAlgorithmsOnly =>
      var head :- Head(key);
      Some(Strings.StartsWith(head, Algorithm.Category))
  }

  /** Keys of the arrays that algorithms produce are accepted, and string
      keys never are. */
  lemma AlgorithmKeys(name: string, indices: seq<int>, s: string)
    requires s != []
    ensures Accept(AcceptAlgorithmsOnly, Tuple(Algorithm.TaskName(name), indices)) == Some(true)
    ensures Accept(AcceptAlgorithmsOnly, Text(s)) == Some(false)
  {
  }

  /** `SelectiveCallback._pretask` / `_posttask`: the implementation hook
      `hook` runs only for accepted keys. */
  function Gate<S>(f: NodeFilter, key: Key, state: S, hook: S -> S): (r: Option<S>)
    ensures r.Some? <==> Accept(f, key).Some?
    ensures Accept(f, key) == Some(false) ==> r == Some(state)
    ensures Accept(f, key) == Some(true) ==> r == Some(hook(state))
  {
    var accepted :- Accept(f, key);
    Some(if accepted then hook(state) else state)
  }

  /** With the default filter no hook ever runs. */
  lemma DefaultFilterRunsNoHook<S>(key: Key, state: S, hook: S -> S)
    ensures Gate(DefaultFilter, key, state, hook) == Some(state)
  {
  }

  /** The recorded start and stop times; `order` lists the stopped keys in
      the order they were first stopped, which is the iteration order of
      the `_stopped` dictionary. */
  datatype Timer = Timer(started: map<Key, real>, stopped: map<Key, real>, order: seq<Key>)

  predicate TimerOk(t: Timer) {
    && (forall i, j :: 0 <= i < j < |t.order| ==> t.order[i] != t.order[j])
    && (forall k :: k in t.order ==> k in t.stopped)
    && (forall k :: k in t.stopped ==> k in t.order)
  }

  const EmptyTimer: Timer := Timer(map[], map[], [])

  /** `AlgorithmTimer.start` at clock reading `now`. */
  function Start(t: Timer, key: Key, now: real): (r: Timer)
    ensures key in r.started
    ensures key in t.started ==> r == t
    ensures key !in t.started ==> r.started[key] == now
    ensures forall k :: k != key ==> (k in r.started <==> k in t.started)
    ensures forall k :: k in t.started ==> r.started[k] == t.started[k]
    ensures r.stopped == t.stopped && r.order == t.order
  {
    if key in t.started then t else t.(started := t.started[key := now])
  }

  /** `AlgorithmTimer.stop` at clock reading `now`. */
  function Stop(t: Timer, key: Key, now: real): (r: Timer)
    requires TimerOk(t)
    ensures TimerOk(r) && key in r.stopped
    ensures key in t.stopped ==> r == t
    ensures key !in t.stopped ==> r.stopped[key] == now && r.order == t.order + [key]
    ensures forall k :: k != key ==> (k in r.stopped <==> k in t.stopped)
    ensures forall k :: k in t.stopped ==> r.stopped[k] == t.stopped[k]
    ensures r.started == t.started
  {
    if key in t.stopped then t else Timer(t.started, t.stopped[key := now], t.order + [key])
  }

  /** Only the first start and the first stop of a key are recorded. */
  lemma FirstWriteWins(t: Timer, key: Key, a: real, b: real)
    requires TimerOk(t)
    ensures Start(Start(t, key, a), key, b) == Start(t, key, a)
    ensures Stop(Stop(t, key, a), key, b) == Stop(t, key, a)
  {
  }

  /** `AlgorithmTimer.process_time`. */
  function ProcessTime(t: Timer, key: Key): (r: Float)
    ensures r.NaN? <==> key !in t.started || key !in t.stopped
    ensures !r.NaN? ==> r == Finite(t.stopped[key] - t.started[key])
  {
    if key in t.stopped && key in t.started then Finite(t.stopped[key] - t.started[key]) else NaN
  }

  /** A key started at `a` and stopped at `b` took `b - a`, whatever later
      starts and stops of it say. */
  lemma StartThenStop(key: Key, a: real, b: real, c: real, d: real)
    ensures var t := Stop(Start(Stop(Start(EmptyTimer, key, a), key, b), key, c), key, d);
            ProcessTime(t, key) == Finite(b - a)
  {
  }

  /** `AlgorithmTimer._node_name` of a key name: the name up to its first
      "-"; without a "-", `find` returns -1 and the last character is cut. */
  function NodeName(first: string): (r: string)
    ensures '-' in first ==> r + "-" <= first && '-' !in r
    ensures '-' !in first && first != [] ==> r == first[..|first| - 1]
    ensures first == [] ==> r == []
  {
    Strings.PrefixUpTo(first, Strings.Find(first, '-'))
  }

  /** Every algorithm array has the node name "kaleidoscope": the category
      ends before the first "-" of the dask task name. */
  lemma AlgorithmNodesShareOneName(name: string)
    ensures NodeName(Algorithm.TaskName(name)) == Algorithm.Category
  {
    var t := Algorithm.TaskName(name);
    assert t[|Algorithm.Category|] == '-';
    assert '-' !in Algorithm.Category;
    assert t[..|Algorithm.Category|] == Algorithm.Category;
  }

  /** The accumulated times, one entry per node name in order of first appearance. */
  type Totals = seq<(string, Float)>

  /** The names that have an entry. */
  function Names(a: Totals): set<string> {
    if a == [] then {} else {a[0].0} + Names(a[1..])
  }

  /** No name has two entries, as in a dictionary. */
  predicate DistinctNames(a: Totals) {
    a == [] || (a[0].0 !in Names(a[1..]) && DistinctNames(a[1..]))
  }

  /** `accu[name] = accu[name] + secs`, or a new entry. */
  function AddTime(a: Totals, name: string, secs: Float): (r: Totals)
    requires DistinctNames(a)
    ensures Names(r) == Names(a) + {name}
    ensures DistinctNames(r)
    decreases |a|
  {
    if a == [] then [(name, secs)]
    else if a[0].0 == name then
      var r := [(name, Add(a[0].1, secs))] + a[1..];
      assert r[1..] == a[1..];
      r
    else
      var r := [a[0]] + AddTime(a[1..], name, secs);
      assert r[1..] == AddTime(a[1..], name, secs);
      r
  }

  /** The time of `name` in `a`, if any. */
  function TimeOf(a: Totals, name: string): Option<Float> {
    if a == [] then None else if a[0].0 == name then Some(a[0].1) else TimeOf(a[1..], name)
  }

  lemma {:induction false} TimeOfAddTime(a: Totals, name: string, secs: Float, n: string)
    requires DistinctNames(a)
    ensures TimeOf(AddTime(a, name, secs), n) ==
            if n != name then TimeOf(a, n)
            else Some(match TimeOf(a, name) case None => secs case Some(v) => Add(v, secs))
    decreases |a|
  {
    if a != [] && a[0].0 != name {
      TimeOfAddTime(a[1..], name, secs, n);
    }
  }

  /** The loop of `amassed_times` over the stopped keys `keys`. */
  function Accumulate(f: NodeFilter, t: Timer, keys: seq<Key>): (r: Option<Totals>)
    ensures r.Some? ==> DistinctNames(r.value)
    decreases |keys|
  {
    if keys == [] then Some([])
    else
      var a :- Accumulate(f, t, keys[..|keys| - 1]);
      var key := keys[|keys| - 1];
      var accepted :- Accept(f, key);
      if !accepted then Some(a)
      else
        var first :- Head(key);
        Some(AddTime(a, NodeName(first), ProcessTime(t, key)))
  }

  /** Reference: the left-to-right sum of the times of the accepted keys
      named `name`, None if there is none. */
  function TotalTime(f: NodeFilter, t: Timer, keys: seq<Key>, name: string): Option<Float>
    decreases |keys|
  {
    if keys == [] then None
    else
      var before := TotalTime(f, t, keys[..|keys| - 1], name);
      var key := keys[|keys| - 1];
      if Accept(f, key) == Some(true) && Head(key).Some? && NodeName(Head(key).value) == name then
        Some(match before case None => ProcessTime(t, key) case Some(v) => Add(v, ProcessTime(t, key)))
      else before
  }

  /** The accumulated time of every name is its reference total. */
  lemma {:induction false} AccumulateSumsPerName(f: NodeFilter, t: Timer, keys: seq<Key>, name: string)
    requires Accumulate(f, t, keys).Some?
    ensures TimeOf(Accumulate(f, t, keys).value, name) == TotalTime(f, t, keys, name)
    decreases |keys|
  {
    if keys != [] {
      var init := keys[..|keys| - 1];
      AccumulateSumsPerName(f, t, init, name);
      var key := keys[|keys| - 1];
      if Accept(f, key) == Some(true) {
        var a := Accumulate(f, t, init).value;
        TimeOfAddTime(a, NodeName(Head(key).value), ProcessTime(t, key), name);
      }
    }
  }

  /** Accumulation fails exactly when some key cannot be indexed by the filter
      or, once accepted, by `_node_name`. */
  lemma {:induction false} AccumulateFailsOnUnindexableKeys(f: NodeFilter, t: Timer, keys: seq<Key>)
    ensures Accumulate(f, t, keys).None? <==>
            exists i :: 0 <= i < |keys| && Accept(f, keys[i]) != Some(false) && Head(keys[i]).None?
    decreases |keys|
  {
    if keys != [] {
      var init := keys[..|keys| - 1];
      AccumulateFailsOnUnindexableKeys(f, t, init);
      var key := keys[|keys| - 1];
      if Accumulate(f, t, init).None? {
        var i :| 0 <= i < |init| && Accept(f, init[i]) != Some(false) && Head(init[i]).None?;
        assert keys[i] == init[i];
      } else if Accept(f, key) != Some(false) && Head(key).None? {
        assert Accumulate(f, t, keys).None?;
      } else {
        forall i | 0 <= i < |keys| && Accept(f, keys[i]) != Some(false)
          ensures Head(keys[i]).Some?
        {
          if i < |init| {
            assert keys[i] == init[i];
          }
        }
        if Accept(f, key) == Some(true) {
          assert Head(key).Some?;
        }
      }
    }
  }

  /** Non-increasing totals; NaN compares as neither smaller nor larger. */
  predicate Descending(a: Totals) {
    forall i, j :: 0 <= i < j < |a| ==> !Less(a[i].1, a[j].1)
  }

  predicate NoNaN(a: Totals) {
    forall i :: 0 <= i < |a| ==> !a[i].1.NaN?
  }

  /** Places `x` before the first entry whose total is not larger, so that
      earlier entries stay ahead of later ones of equal total. */
  function Insert(x: (string, Float), a: Totals): (r: Totals)
    ensures multiset(r) == multiset(a) + multiset{x}
    ensures |r| == |a| + 1
  {
    if a == [] || !Less(x.1, a[0].1) then [x] + a
    else
      assert a == [a[0]] + a[1..];
      [a[0]] + Insert(x, a[1..])
  }

  /** The sort of `amassed_times`: by total, descending. */
  function SortByTime(a: Totals): (r: Totals)
    ensures multiset(r) == multiset(a)
    ensures |r| == |a|
  {
    if a == [] then []
    else
      assert a == [a[0]] + a[1..];
      Insert(a[0], SortByTime(a[1..]))
  }

  /** Among non-NaN totals "not less" is a total order. */
  lemma NotLessTransitive(a: Float, b: Float, c: Float)
    requires !a.NaN? && !b.NaN? && !c.NaN?
    requires !Less(a, b) && !Less(b, c)
    ensures !Less(a, c)
  {
  }

  /** `y` is at least every total of `a`. */
  predicate Bounds(y: Float, a: Totals) {
    forall i :: 0 <= i < |a| ==> !Less(y, a[i].1)
  }

  lemma {:induction false} InsertKeepsBound(y: Float, x: (string, Float), a: Totals)
    requires Bounds(y, a) && !Less(y, x.1)
    ensures Bounds(y, Insert(x, a))
    decreases |a|
  {
    if a != [] && Less(x.1, a[0].1) {
      assert Bounds(y, a[1..]) by {
        forall i | 0 <= i < |a[1..]| ensures !Less(y, a[1..][i].1) { assert a[1..][i] == a[i + 1]; }
      }
      InsertKeepsBound(y, x, a[1..]);
    }
  }

  lemma {:induction false} InsertKeepsNoNaN(x: (string, Float), a: Totals)
    requires NoNaN(a) && !x.1.NaN?
    ensures NoNaN(Insert(x, a))
    decreases |a|
  {
    if a != [] && Less(x.1, a[0].1) {
      assert NoNaN(a[1..]) by {
        forall i | 0 <= i < |a[1..]| ensures !a[1..][i].1.NaN? { assert a[1..][i] == a[i + 1]; }
      }
      InsertKeepsNoNaN(x, a[1..]);
    }
  }

  lemma {:induction false} InsertDescending(x: (string, Float), a: Totals)
    requires Descending(a) && NoNaN(a) && !x.1.NaN?
    ensures Descending(Insert(x, a))
    decreases |a|
  {
    InsertKeepsNoNaN(x, a);
    var r := Insert(x, a);
    if a == [] || !Less(x.1, a[0].1) {
      forall i, j | 0 <= i < j < |r|
        ensures !Less(r[i].1, r[j].1)
      {
        assert r[j] == a[j - 1];
        if i == 0 {
          if j > 1 {
            NotLessTransitive(x.1, a[0].1, a[j - 1].1);
          }
        } else {
          assert r[i] == a[i - 1];
        }
      }
    } else {
      var tail := a[1..];
      assert Descending(tail) && NoNaN(tail) by {
        forall i | 0 <= i < |tail| ensures tail[i] == a[i + 1] { }
      }
      InsertDescending(x, tail);
      assert Bounds(a[0].1, tail) by {
        forall i | 0 <= i < |tail| ensures !Less(a[0].1, tail[i].1) { assert tail[i] == a[i + 1]; }
      }
      InsertKeepsBound(a[0].1, x, tail);
      var rest := Insert(x, tail);
      assert r == [a[0]] + rest;
      forall i, j | 0 <= i < j < |r|
        ensures !Less(r[i].1, r[j].1)
      {
        assert r[j] == rest[j - 1];
        if i > 0 {
          assert r[i] == rest[i - 1];
        }
      }
    }
  }

  /** Without NaN totals, the result is sorted in descending order. */
  lemma {:induction false} SortByTimeDescending(a: Totals)
    requires NoNaN(a)
    ensures Descending(SortByTime(a)) && NoNaN(SortByTime(a))
    decreases |a|
  {
    if a != [] {
      assert NoNaN(a[1..]) by {
        forall i | 0 <= i < |a[1..]| ensures !a[1..][i].1.NaN? { assert a[1..][i] == a[i + 1]; }
      }
      SortByTimeDescending(a[1..]);
      InsertDescending(a[0], SortByTime(a[1..]));
      InsertKeepsNoNaN(a[0], SortByTime(a[1..]));
    }
  }

  /** `AlgorithmTimer.amassed_times`. */
  function AmassedTimes(f: NodeFilter, t: Timer): (r: Option<Totals>)
    ensures r.Some? ==> Accumulate(f, t, t.order).Some?
                        && multiset(r.value) == multiset(Accumulate(f, t, t.order).value)
  {
    var a :- Accumulate(f, t, t.order);
    Some(SortByTime(a))
  }

  /** The dask scheduler state, reduced to the sizes of its task lists. */
  datatype SchedulerState = SchedulerState(ready: seq<Key>, waiting: seq<Key>, running: seq<Key>,
                                           finished: seq<Key>)

  /** `StatusLogger._pending_count`. */
  function PendingCount(s: SchedulerState): nat {
    |s.ready| + |s.waiting| + |s.running|
  }

  /** `StatusLogger._stopped_count`. */
  function StoppedCount(s: SchedulerState): nat {
    |s.finished|
  }

  /** The default number of progress messages per subgraph. */
  const DefaultMessages: int := 100

  /** Python's floor division `a // b`. */
  function FloorDiv(a: int, b: int): (q: int)
    requires b != 0
    ensures b > 0 ==> q == a / b
    ensures b < 0 ==> q * b >= a > q * b + b
  {
    if b > 0 then a / b
    else if a % (-b) == 0 then -(a / (-b))
    else -(a / (-b)) - 1
  }

  /** `StatusLogger._computation_status` with `n` messages per subgraph:
      the finished and the total number of tasks, or None for no message. */
  function ComputationStatus(n: int, s: SchedulerState): (r: Option<(nat, nat)>)
    requires n != 0
    ensures r.Some? ==> r.value == (StoppedCount(s), StoppedCount(s) + PendingCount(s))
  {
    var i := StoppedCount(s);
    var k := PendingCount(s) + i;
    var m := FloorDiv(k, n);
    if m < 10 then None
    else if i < k && i % m > 0 then None
    else Some((i, k))
  }

  /** A subgraph of fewer than ten tasks per message is never reported, and
      a larger one is reported when it completes and when the finished count
      is a multiple of the total over `n`. */
  lemma StatusIsThrottled(n: int, s: SchedulerState)
    requires n > 0
    ensures var i, k := StoppedCount(s), StoppedCount(s) + PendingCount(s);
            && (k < 10 * n ==> ComputationStatus(n, s).None?)
            && (k >= 10 * n ==>
                  (ComputationStatus(n, s).Some? <==> i == k || exists j: nat :: j <= i && i == j * (k / n)))
  {
    var i, k := StoppedCount(s), StoppedCount(s) + PendingCount(s);
    var m := k / n;
    assert FloorDiv(k, n) == m;
    TenMessagesOrMore(k, n);
    if k >= 10 * n {
      assert ComputationStatus(n, s).Some? <==> i == k || i % m == 0;
      MultipleIff(i, m);
    }
  }

  /** `k // n >= 10` exactly when `k >= 10 * n`. */
  lemma TenMessagesOrMore(k: nat, n: nat)
    requires n > 0
    ensures k / n >= 10 <==> k >= 10 * n
  {
    var q, r := k / n, k % n;
    assert k == q * n + r && 0 <= r < n;
    if q >= 10 {
      assert (q - 10) * n >= 0;
      assert q * n == (q - 10) * n + 10 * n;
    } else {
      assert (9 - q) * n >= 0;
      assert 9 * n == (9 - q) * n + q * n;
    }
  }

  /** Being a multiple, as `i % m == 0` tests it. */
  lemma MultipleIff(i: nat, m: nat)
    requires m > 0
    ensures i % m == 0 <==> exists j: nat :: j <= i && i == j * m
  {
    if i % m == 0 {
      MultipleOfZeroRemainder(i, m);
    }
    if exists j: nat :: j <= i && i == j * m {
      var j: nat :| j <= i && i == j * m;
      ZeroRemainderOfMultiple(j, m);
    }
  }

  lemma MultipleOfZeroRemainder(i: nat, m: nat)
    requires m > 0 && i % m == 0
    ensures i / m <= i && i == (i / m) * m
  {
    var q := i / m;
    assert i == q * m;
    MulAtLeast(q, m);
  }

  lemma ZeroRemainderOfMultiple(j: nat, m: nat)
    requires m > 0
    ensures (j * m) % m == 0
  {
    var x := j * m;
    var q, r := x / m, x % m;
    assert x == q * m + r;
    assert (j - q) * m == r;
    SmallMultipleIsZero(j - q, m, r);
  }

  lemma MulAtLeast(q: nat, m: nat)
    requires m >= 1
    ensures q * m >= q
  {
  }

  lemma SmallMultipleIsZero(d: int, m: nat, r: int)
    requires m > 0 && 0 <= r < m && d * m == r
    ensures d == 0
  {
    if d >= 1 {
      MulAtLeast(m, d);
      assert false;
    } else if d <= -1 {
      assert false;
    }
  }

  /** With a negative `n` nothing is ever reported. */
  lemma NegativeCountReportsNothing(n: int, s: SchedulerState)
    requires n < 0
    ensures ComputationStatus(n, s).None?
  {
  }
}
