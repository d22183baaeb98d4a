/** The two memoised views of src/App.jsx: the dashboard counters (`stats`)
    and the searched and filtered task list (`visibleTasks`). Both are pure
    functions of the task list, the search text and the filter mode. */
module Projection {
  import opened Text

  /** The store assigns row ids; the component only compares them. */
  type TaskId = int

  /** A row of the tasks table, as far as the component reads it. */
  datatype Task = Task(id: TaskId, title: string, isDone: bool)

  /** The three values the filter buttons set. */
  datatype FilterMode = All | Pending | Done

  /** The dashboard counters. */
  datatype Stats = Stats(total: nat, done: nat, pending: nat, percent: nat)

  /** a can be obtained from b by deleting elements, keeping the rest in order. */
  ghost predicate IsSubsequence<T>(a: seq<T>, b: seq<T>)
    decreases |b|
  {
    a == [] ||
    (b != [] && ((a[0] == b[0] && IsSubsequence(a[1..], b[1..])) || IsSubsequence(a, b[1..])))
  }

  /** Array.prototype.filter: the elements of s that satisfy p, in their
      original order. Each passing value keeps all its occurrences, so no
      passing element is omitted. */
  function Filter<T(!new)>(p: T -> bool, s: seq<T>): (r: seq<T>)
    ensures |r| <= |s|
    ensures IsSubsequence(r, s)
    ensures forall i :: 0 <= i < |r| ==> p(r[i])
    ensures forall x :: multiset(r)[x] == if p(x) then multiset(s)[x] else 0
  {
    if s == [] then []
    else
      var rest := Filter(p, s[1..]);
      assert s == [s[0]] + s[1..];
      assert forall i :: 1 <= i < |s| ==> s[i] == s[1..][i - 1];
      if p(s[0]) then
        assert ([s[0]] + rest)[1..] == rest;
        [s[0]] + rest
      else rest
  }

  /** Filtering distributes over concatenation: it never reorders. */
  lemma {:induction false} FilterAppend<T(!new)>(p: T -> bool, a: seq<T>, b: seq<T>)
    ensures Filter(p, a + b) == Filter(p, a) + Filter(p, b)
  {
    if a == [] {
      assert a + b == b;
    } else {
      assert (a + b)[0] == a[0];
      assert (a + b)[1..] == a[1..] + b;
      FilterAppend(p, a[1..], b);
    }
  }

  /** Filters by pointwise-equal predicates agree. */
  lemma {:induction false} FilterExt<T(!new)>(p: T -> bool, q: T -> bool, s: seq<T>)
    requires forall x :: p(x) == q(x)
    ensures Filter(p, s) == Filter(q, s)
  {
    if s != [] {
      FilterExt(p, q, s[1..]);
    }
  }

  /** A predicate and its negation split a sequence between them. */
  lemma {:induction false} FilterPartition<T(!new)>(p: T -> bool, q: T -> bool, s: seq<T>)
    requires forall x :: q(x) == !p(x)
    ensures |Filter(p, s)| + |Filter(q, s)| == |s|
  {
    if s != [] {
      FilterPartition(p, q, s[1..]);
    }
  }

  /** A predicate every element satisfies keeps the whole sequence. */
  lemma {:induction false} FilterKeepsAll<T(!new)>(p: T -> bool, s: seq<T>)
    requires forall i :: 0 <= i < |s| ==> p(s[i])
    ensures Filter(p, s) == s
  {
    if s != [] {
      FilterKeepsAll(p, s[1..]);
    }
  }

  predicate IsDone(t: Task) {
    t.isDone
  }

  /** Math.round(done / total * 100) in exact arithmetic, 0 for an empty
      list: the whole number nearest to 100 * done / total, halves rounded up. */
  function Percent(done: nat, total: nat): (p: nat)
    ensures total == 0 ==> p == 0
    ensures total > 0 ==> 2 * total * p <= 200 * done + total < 2 * total * p + 2 * total
    ensures done <= total ==> p <= 100
  {
    if total == 0 then 0
    else
      var p := (200 * done + total) / (2 * total);
      DivisionBounds(200 * done + total, 2 * total);
      assert done <= total ==> p <= 100 by {
        if done <= total && p > 100 {
          MultiplyMonotone(2 * total, 101, p);
        }
      }
      p
  }

  // The two nonlinear facts Percent's contract rests on. Each one alone is
  // within the solver's reach, but Percent runs out of resource without
  // them being stated separately.
  lemma DivisionBounds(a: nat, b: nat)
    requires b > 0
    ensures b * (a / b) <= a < b * (a / b) + b
  {
  }

  lemma MultiplyMonotone(x: nat, y: int, z: int)
    requires y <= z
    ensures x * y <= x * z
  {
  }

  /** The dashboard counters of src/App.jsx. */
  function StatsOf(tasks: seq<Task>): (s: Stats)
    ensures s.total == |tasks|
    ensures s.done <= s.total && s.done + s.pending == s.total
    ensures s.percent <= 100
    ensures s.total == 0 ==> s.percent == 0
    ensures s.total > 0 ==>
      2 * s.total * s.percent <= 200 * s.done + s.total < 2 * s.total * s.percent + 2 * s.total
  {
    var total := |tasks|;
    var done := |Filter(IsDone, tasks)|;
    Stats(total, done, total - done, Percent(done, total))
  }

  /** The search key: the query trimmed and lower-cased. */
  function SearchKey(query: string): (q: string)
    ensures |q| <= |query|
    ensures q == [] <==> Blank(query)
  {
    Lower(Trim(query))
  }

  /** An empty key matches every task; otherwise the key must occur in the
      lower-cased title. */
  function MatchesQuery(t: Task, q: string): (m: bool)
    ensures m <==> q == [] || exists i :: OccursAt(q, Lower(t.title), i)
  {
    if q != [] then Contains(Lower(t.title), q) else true
  }

  /** "all" keeps every task; "done" and "pending" split the list between
      them, each task passing exactly one of the two. */
  function MatchesFilter(t: Task, f: FilterMode): (m: bool)
    ensures f == All ==> m
    ensures f != All ==> (m <==> ((f == Done) == t.isDone))
  {
    match f
    case All => true
    case Done => t.isDone
    case Pending => !t.isDone
  }

  /** The test visibleTasks applies to each task, for a given key and mode:
      the key occurs in the lower-cased title (or is empty) and the task
      passes the filter. */
  function Shows(q: string, f: FilterMode): (test: Task -> bool)
    ensures forall t ::
      test(t) == ((q == [] || exists i :: OccursAt(q, Lower(t.title), i)) &&
                  (f == All || (f == Done) == t.isDone))
  {
    (t: Task) => MatchesQuery(t, q) && MatchesFilter(t, f)
  }

  /** The tasks the list shows: those matching both the search and the
      filter, in the order of the task list; no matching task is dropped. */
  function VisibleTasks(tasks: seq<Task>, query: string, f: FilterMode): (r: seq<Task>)
    ensures IsSubsequence(r, tasks)
    ensures forall i :: 0 <= i < |r| ==>
      MatchesQuery(r[i], SearchKey(query)) && MatchesFilter(r[i], f)
    ensures forall i :: 0 <= i < |tasks| ==>
      (MatchesQuery(tasks[i], SearchKey(query)) && MatchesFilter(tasks[i], f) ==> tasks[i] in r)
    ensures forall t ::
      multiset(r)[t] == (if MatchesQuery(t, SearchKey(query)) && MatchesFilter(t, f) then multiset(tasks)[t] else 0)
  {
    Filter(Shows(SearchKey(query), f), tasks)
  }

  /** The visible list of a concatenation is the concatenation of the
      visible lists: filtering never re-sorts. */
  lemma VisibleTasksAppend(a: seq<Task>, b: seq<Task>, query: string, f: FilterMode)
    ensures VisibleTasks(a + b, query, f) == VisibleTasks(a, query, f) + VisibleTasks(b, query, f)
  {
    FilterAppend(Shows(SearchKey(query), f), a, b);
  }

  /** With no search text and the "all" filter, every task is shown. */
  lemma ShowsEverythingByDefault(tasks: seq<Task>, query: string)
    requires Blank(query)
    ensures VisibleTasks(tasks, query, All) == tasks
  {
    FilterKeepsAll(Shows(SearchKey(query), All), tasks);
  }

  /** The positions from k on whose element passes p. */
  ghost function PositionsFrom(p: Task -> bool, tasks: seq<Task>, k: nat): set<int> {
    set i | k <= i < |tasks| && p(tasks[i])
  }

  /** Filter keeps one element per position from k on whose element passes. */
  lemma {:induction false} FilterCountsPositions(p: Task -> bool, tasks: seq<Task>, k: nat)
    requires k <= |tasks|
    ensures |Filter(p, tasks[k..])| == |PositionsFrom(p, tasks, k)|
    decreases |tasks| - k
  {
    if k == |tasks| {
      assert PositionsFrom(p, tasks, k) == {};
    } else {
      FilterCountsPositions(p, tasks, k + 1);
      FilterStep(p, tasks[k..]);
      assert tasks[k..][1..] == tasks[k + 1..];
      PositionsStep(p, tasks, k);
    }
  }

  lemma FilterStep<T(!new)>(p: T -> bool, s: seq<T>)
    requires s != []
    ensures |Filter(p, s)| == (if p(s[0]) then 1 else 0) + |Filter(p, s[1..])|
  {
  }

  lemma PositionsStep(p: Task -> bool, tasks: seq<Task>, k: nat)
    requires k < |tasks|
    ensures |PositionsFrom(p, tasks, k)| ==
      (if p(tasks[k]) then 1 else 0) + |PositionsFrom(p, tasks, k + 1)|
  {
    var here := PositionsFrom(p, tasks, k);
    var rest := PositionsFrom(p, tasks, k + 1);
    if p(tasks[k]) {
      assert here == rest + {k};
      assert k !in rest;
    } else {
      assert here == rest;
    }
  }

  /** The counters count positions of the list: done is the number of
      indices holding a done task, pending the number holding one not done. */
  lemma StatsCountDoneTasks(tasks: seq<Task>)
    ensures StatsOf(tasks).done == |set i | 0 <= i < |tasks| && tasks[i].isDone|
    ensures StatsOf(tasks).pending == |set i | 0 <= i < |tasks| && !tasks[i].isDone|
  {
    DoneCountsPositions(tasks);
    PendingCountsPositions(tasks);
  }

  lemma DoneCountsPositions(tasks: seq<Task>)
    ensures StatsOf(tasks).done == |set i | 0 <= i < |tasks| && tasks[i].isDone|
  {
    StatsAreFilterCounts(tasks);
    FilterCountsAllPositions(IsDone, tasks);
    assert PositionsFrom(IsDone, tasks, 0) == set i | 0 <= i < |tasks| && tasks[i].isDone;
  }

  lemma PendingCountsPositions(tasks: seq<Task>)
    ensures StatsOf(tasks).pending == |set i | 0 <= i < |tasks| && !tasks[i].isDone|
  {
    StatsAreFilterCounts(tasks);
    FilterCountsAllPositions(IsPending, tasks);
    FilterPartition(IsDone, IsPending, tasks);
    assert PositionsFrom(IsPending, tasks, 0) == set i | 0 <= i < |tasks| && !tasks[i].isDone;
  }

  predicate IsPending(t: Task) {
    !t.isDone
  }

  lemma StatsAreFilterCounts(tasks: seq<Task>)
    ensures StatsOf(tasks).done == |Filter(IsDone, tasks)|
    ensures StatsOf(tasks).pending == |tasks| - |Filter(IsDone, tasks)|
  {
  }

  lemma FilterCountsAllPositions(p: Task -> bool, tasks: seq<Task>)
    ensures |Filter(p, tasks)| == |PositionsFrom(p, tasks, 0)|
  {
    assert tasks[0..] == tasks;
    FilterCountsPositions(p, tasks, 0);
  }

  /** With no search text, the "done" and "pending" lists are as long as the
      dashboard's done and pending counters. */
  lemma FilteredCountsMatchStats(tasks: seq<Task>, query: string)
    requires Blank(query)
    ensures |VisibleTasks(tasks, query, Done)| == StatsOf(tasks).done
    ensures |VisibleTasks(tasks, query, Pending)| == StatsOf(tasks).pending
  {
    var key := SearchKey(query);
    FilterExt(Shows(key, Done), IsDone, tasks);
    FilterPartition(IsDone, Shows(key, Pending), tasks);
  }

  /** White space around the search text does not change what is shown. */
  lemma SearchIgnoresPadding(tasks: seq<Task>, pre: string, query: string, post: string, f: FilterMode)
    requires Blank(pre) && Blank(post)
    ensures VisibleTasks(tasks, pre + query + post, f) == VisibleTasks(tasks, query, f)
  {
    TrimIgnoresPadding(pre, query, post);
  }

  /** Two tasks, one pending and one done, under the "pending" filter. */
  lemma PendingFilterScenario()
    ensures var milk := Task(1, "buy milk", false);
            var rent := Task(2, "pay rent", true);
            VisibleTasks([milk, rent], "", Pending) == [milk] &&
            StatsOf([milk, rent]) == Stats(2, 1, 1, 50)
  {
    PendingView();
    TwoTaskStats();
  }

  lemma PendingView()
    ensures VisibleTasks([Task(1, "buy milk", false), Task(2, "pay rent", true)], "", Pending)
         == [Task(1, "buy milk", false)]
  {
    var milk := Task(1, "buy milk", false);
    var rent := Task(2, "pay rent", true);
    assert SearchKey("") == "";
    assert Filter(Shows("", Pending), [rent]) == [] by {
      assert [rent][1..] == [];
    }
    assert Filter(Shows("", Pending), [milk, rent]) == [milk] by {
      assert [milk, rent][1..] == [rent];
    }
  }

  lemma TwoTaskStats()
    ensures StatsOf([Task(1, "buy milk", false), Task(2, "pay rent", true)]) == Stats(2, 1, 1, 50)
  {
    var milk := Task(1, "buy milk", false);
    var rent := Task(2, "pay rent", true);
    assert Filter(IsDone, [milk, rent]) == [rent] by {
      assert [milk, rent][1..] == [rent];
      assert Filter(IsDone, [rent]) == [rent] by {
        assert [rent][1..] == [];
      }
    }
    assert Percent(1, 2) == 50;
  }

  /** The search is trimmed and case-insensitive. */
  lemma SearchScenario()
    ensures var milk := Task(1, "buy milk", false);
            var rent := Task(2, "pay rent", true);
            VisibleTasks([milk, rent], " MILK ", All) == [milk]
  {
    var milk := Task(1, "buy milk", false);
    var rent := Task(2, "pay rent", true);
    PaddedUpperKey();
    MilkMatches();
    RentDoesNotMatch();
    var p := Shows("milk", All);
    assert Filter(p, [rent]) == [] by {
      assert [rent][1..] == [];
    }
    assert Filter(p, [milk, rent]) == [milk] by {
      assert [milk, rent][1..] == [rent];
    }
  }

  lemma PaddedUpperKey()
    ensures SearchKey(" MILK ") == "milk"
  {
    assert TrimStart(" MILK ") == "MILK ";
    assert TrimEnd("MILK ") == "MILK";
    assert Lower("MILK") == "milk";
  }

  lemma MilkMatches()
    ensures Shows("milk", All)(Task(1, "buy milk", false))
  {
    LowerKeepsLowercase("buy milk");
    assert OccursAt("milk", "buy milk", 4);
  }

  lemma RentDoesNotMatch()
    ensures !Shows("milk", All)(Task(2, "pay rent", true))
  {
    LowerKeepsLowercase("pay rent");
    forall i ensures !OccursAt("milk", "pay rent", i) {
      if 0 <= i && i + 4 <= 8 {
        assert 'm' !in "pay rent";
        assert "pay rent"[i] in "pay rent";
        assert "pay rent"[i..i + 4][0] == "pay rent"[i];
      }
    }
  }
}
