/** The backward traversal of `NdArray.Backward`, over an explicit arena.
  * Every tensor of the graph is a node addressed by its index; every function
  * that produced one is a stage addressed by its index.  A stage keeps, oldest
  * first, the input lists of its forward calls whose backward has not run yet
  * (`PrevInputs`).  What a stage's own backward computes is not part of this
  * model: it enters as a parameter `step`, assumed to behave as
  * `StageConforms` states (pop the newest input list, decrement each captured
  * input's use count once per occurrence, touch no other gradient).
  * A node's `useCount` stands for the tensor's `UseCount` field
  * (`Tensors.NdArray.UseCount`), which the forward calls raise and the
  * stages' backward lowers; the tensor model itself only keeps it. */
module Backpropagation {
  import opened Errors

  /** One tensor: the stage that produced it (absent for a leaf), the number of
    * consumers whose backward has not run yet, and its gradient buffer. */
  datatype Node = Node(parent: Option<nat>, useCount: int, grad: seq<real>)

  /** The arena: the nodes, and for each stage its pending input lists. */
  datatype Graph = Graph(nodes: seq<Node>, prevInputs: seq<seq<seq<nat>>>)

  /** Every producer is a stage of the arena, every captured input a node. */
  ghost predicate WellFormed(g: Graph)
  {
    && (forall n :: 0 <= n < |g.nodes| && g.nodes[n].parent.Some? ==> g.nodes[n].parent.value < |g.prevInputs|)
    && (forall f, k, j :: 0 <= f < |g.prevInputs| && 0 <= k < |g.prevInputs[f]| && 0 <= j < |g.prevInputs[f][k]|
          ==> g.prevInputs[f][k][j] < |g.nodes|)
  }

  function Last<T>(xs: seq<T>): T
    requires |xs| > 0
  {
    xs[|xs| - 1]
  }

  function Pop<T>(xs: seq<T>): (r: seq<T>)
    requires |xs| > 0
    ensures |r| + 1 == |xs| && xs == r + [Last(xs)]
  {
    xs[..|xs| - 1]
  }

  /** The number of pending input lists over all stages. */
  function Entries(p: seq<seq<seq<nat>>>): nat
  {
    if |p| == 0 then 0 else |p[0]| + Entries(p[1..])
  }

  lemma {:induction false} EntriesUpdate(p: seq<seq<seq<nat>>>, f: nat, e: seq<seq<nat>>)
    requires f < |p|
    ensures Entries(p[f := e]) + |p[f]| == Entries(p) + |e|
    decreases f
  {
    if f == 0 {
      assert p[f := e][1..] == p[1..];
    } else {
      assert p[f := e][1..] == p[1..][f - 1 := e];
      EntriesUpdate(p[1..], f - 1, e);
    }
  }

  /** How many times `n` occurs in the input list `xs`. */
  function Occurrences(xs: seq<nat>, n: nat): nat
  {
    if |xs| == 0 then 0 else (if xs[0] == n then 1 else 0) + Occurrences(xs[1..], n)
  }

  lemma {:induction false} OccurrencesZero(xs: seq<nat>, n: nat)
    ensures Occurrences(xs, n) == 0 <==> n !in xs
  {
    if |xs| > 0 {
      OccurrencesZero(xs[1..], n);
      assert xs == [xs[0]] + xs[1..];
    }
  }

  /** The assumption about a stage's backward on stage `f`, from `g` to `h`:
    * it removes the newest input list `xs` of `f`, lowers every node's use
    * count by the number of times it occurs in `xs`, keeps producers and
    * gradient lengths, and leaves the gradient of every node outside `xs` as
    * it was. */
  ghost predicate StageConforms(g: Graph, h: Graph, f: nat)
    requires f < |g.prevInputs| && |g.prevInputs[f]| > 0
  {
    var xs := Last(g.prevInputs[f]);
    && h.prevInputs == g.prevInputs[f := Pop(g.prevInputs[f])]
    && |h.nodes| == |g.nodes|
    && forall n :: 0 <= n < |g.nodes| ==>
         && h.nodes[n].parent == g.nodes[n].parent
         && h.nodes[n].useCount == g.nodes[n].useCount - Occurrences(xs, n)
         && |h.nodes[n].grad| == |g.nodes[n].grad|
         && (n !in xs ==> h.nodes[n].grad == g.nodes[n].grad)
  }

  /** A stage's backward: the graph, the stage, and the output it is called on. */
  type StageStep = (Graph, nat, nat) -> Graph

  ghost predicate Sound(step: StageStep)
  {
    forall g: Graph, f: nat, y: nat {:trigger StageConforms(g, step(g, f, y), f)} :: WellFormed(g) && f < |g.prevInputs| && |g.prevInputs[f]| > 0 ==> StageConforms(g, step(g, f, y), f)
  }

  /** The graph after a traversal, and the nodes whose producing stage ran
    * backward, in the order it ran. */
  datatype Run = Run(graph: Graph, calls: seq<nat>)

  /** `n` occurs in some pending input list. */
  ghost predicate Captured(g: Graph, n: nat)
  {
    exists f, k :: 0 <= f < |g.prevInputs| && 0 <= k < |g.prevInputs[f]| && n in g.prevInputs[f][k]
  }

  /** What every traversal from `g` keeps and its termination rests on: the
    * arena stays well formed and of the same size, and each stage backward
    * that ran consumed exactly one pending input list. */
  ghost predicate Frame(g: Graph, run: Run)
  {
    var h := run.graph;
    && WellFormed(h)
    && |h.nodes| == |g.nodes| && |h.prevInputs| == |g.prevInputs|
    && Entries(h.prevInputs) + |run.calls| == Entries(g.prevInputs)
  }

  /** `Frame`, and: each stage backward that ran was the producer of the node
    * it ran for; producers and gradient lengths stay; use counts never rise;
    * a node no pending list captures is untouched. */
  ghost predicate Keeps(g: Graph, run: Run)
  {
    var h := run.graph;
    && Frame(g, run)
    && (forall k :: 0 <= k < |run.calls| ==> run.calls[k] < |g.nodes| && g.nodes[run.calls[k]].parent.Some?)
    && (forall n :: 0 <= n < |g.nodes| ==>
          && h.nodes[n].parent == g.nodes[n].parent
          && h.nodes[n].useCount <= g.nodes[n].useCount
          && |h.nodes[n].grad| == |g.nodes[n].grad|
          && (!Captured(g, n) ==> h.nodes[n] == g.nodes[n])
          && (Captured(h, n) ==> Captured(g, n)))
  }

  lemma KeepsRefl(g: Graph)
    requires WellFormed(g)
    ensures Keeps(g, Run(g, []))
  {
  }

  lemma KeepsTrans(g: Graph, first: Run, rest: Run)
    requires Keeps(g, first) && Keeps(first.graph, rest)
    ensures Keeps(g, Run(rest.graph, first.calls + rest.calls))
  {
    var calls := first.calls + rest.calls;
    forall k | 0 <= k < |calls|
      ensures calls[k] < |g.nodes| && g.nodes[calls[k]].parent.Some?
    {
      if k >= |first.calls| {
        assert calls[k] == rest.calls[k - |first.calls|];
      }
    }
  }

  /** After a stage backward the arena is still well formed. */
  lemma StepWellFormed(g: Graph, h: Graph, f: nat)
    requires WellFormed(g) && f < |g.prevInputs| && |g.prevInputs[f]| > 0 && StageConforms(g, h, f)
    ensures WellFormed(h) && |h.nodes| == |g.nodes| && |h.prevInputs| == |g.prevInputs|
  {
    forall f', k, j | 0 <= f' < |h.prevInputs| && 0 <= k < |h.prevInputs[f']| && 0 <= j < |h.prevInputs[f'][k]|
      ensures h.prevInputs[f'][k][j] < |h.nodes|
    {
      if f' == f {
        assert h.prevInputs[f'][k] == g.prevInputs[f][k];
      }
    }
  }

  /** One stage backward consumes one pending list and keeps the arena well
    * formed; the list it consumed names nodes of the arena. */
  lemma StepFrame(g: Graph, h: Graph, f: nat, y: nat)
    requires WellFormed(g) && f < |g.prevInputs| && |g.prevInputs[f]| > 0 && StageConforms(g, h, f)
    ensures Frame(g, Run(h, [y]))
    ensures forall j :: 0 <= j < |Last(g.prevInputs[f])| ==> Last(g.prevInputs[f])[j] < |h.nodes|
  {
    var xs := Last(g.prevInputs[f]);
    EntriesUpdate(g.prevInputs, f, Pop(g.prevInputs[f]));
    StepWellFormed(g, h, f);
    forall j | 0 <= j < |xs|
      ensures xs[j] < |h.nodes|
    {
      assert xs[j] == g.prevInputs[f][|g.prevInputs[f]| - 1][j];
    }
  }

  /** One stage backward, as `StageConforms` describes it, keeps the arena. */
  lemma StepKeeps(g: Graph, h: Graph, f: nat, y: nat)
    requires WellFormed(g) && y < |g.nodes| && g.nodes[y].parent == Some(f)
    requires f < |g.prevInputs| && |g.prevInputs[f]| > 0 && StageConforms(g, h, f)
    ensures Keeps(g, Run(h, [y]))
  {
    var xs := Last(g.prevInputs[f]);
    StepFrame(g, h, f, y);
    forall n | 0 <= n < |h.nodes| && Captured(h, n)
      ensures Captured(g, n)
    {
      var f', k :| 0 <= f' < |h.prevInputs| && 0 <= k < |h.prevInputs[f']| && n in h.prevInputs[f'][k];
      if f' == f {
        assert h.prevInputs[f'][k] == g.prevInputs[f][k];
      }
      assert n in g.prevInputs[f'][k];
    }
    forall n | 0 <= n < |g.nodes| && n in xs
      ensures Captured(g, n)
    {
      assert n in g.prevInputs[f][|g.prevInputs[f]| - 1];
    }
    forall n | 0 <= n < |g.nodes| && !Captured(g, n)
      ensures h.nodes[n] == g.nodes[n]
    {
      OccurrencesZero(xs, n);
    }
  }

  /** `r` with the stage backwards `calls` run before it. */
  function Then(calls: seq<nat>, r: Result<Run>): Result<Run>
  {
    match r
    case Err(e) => Err(e)
    case Ok(run) => Ok(Run(run.graph, calls + run.calls))
  }

  /** Static `NdArray.Backward(y)` as written: a leaf ends the walk; otherwise
    * the newest input list of `y`'s producer is read, that stage runs
    * backward once, and the walk enters the inputs of the list in order. */
  function Visit(step: StageStep, g: Graph, y: nat): (r: Result<Run>)
    requires Sound(step) && WellFormed(g) && y < |g.nodes|
    ensures r.Ok? ==> Frame(g, r.value)
    ensures r.Ok? && g.nodes[y].parent.Some? ==> |r.value.calls| > 0 && r.value.calls[0] == y
    decreases Entries(g.prevInputs), 0
  {
    match g.nodes[y].parent
    case None => Ok(Run(g, []))
    case Some(f) =>
      if |g.prevInputs[f]| == 0 then Err(ArgumentOutOfRange)
      else
        var xs := Last(g.prevInputs[f]);
        var h := step(g, f, y);
        StepFrame(g, h, f, y);
        Then([y], VisitEach(step, h, xs, 0))
  }

  /** The `foreach` over the captured list from position `i`: the filter
    * `UseCount == 0` is lazy, so each input is tested in the graph as the
    * walks into the inputs before it left it. */
  function VisitEach(step: StageStep, g: Graph, xs: seq<nat>, i: nat): (r: Result<Run>)
    requires Sound(step) && WellFormed(g) && i <= |xs|
    requires forall j :: 0 <= j < |xs| ==> xs[j] < |g.nodes|
    ensures r.Ok? ==> Frame(g, r.value)
    decreases Entries(g.prevInputs), 1, |xs| - i
  {
    if i == |xs| then Ok(Run(g, []))
    else if g.nodes[xs[i]].useCount != 0 then VisitEach(step, g, xs, i + 1)
    else
      match Visit(step, g, xs[i])
      case Err(e) => Err(e)
      case Ok(first) => Then(first.calls, VisitEach(step, first.graph, xs, i + 1))
  }

  /** Every walk keeps the arena as `Keeps` states. */
  lemma {:induction false} VisitKeeps(step: StageStep, g: Graph, y: nat)
    requires Sound(step) && WellFormed(g) && y < |g.nodes|
    ensures Visit(step, g, y).Ok? ==> Keeps(g, Visit(step, g, y).value)
    decreases Entries(g.prevInputs), 0
  {
    match g.nodes[y].parent
    case None => KeepsRefl(g);
    case Some(f) =>
      if |g.prevInputs[f]| > 0 {
        var xs := Last(g.prevInputs[f]);
        var h := step(g, f, y);
        StepKeeps(g, h, f, y);
        StepFrame(g, h, f, y);
        VisitEachKeeps(step, h, xs, 0);
        var r := VisitEach(step, h, xs, 0);
        if r.Ok? {
          KeepsTrans(g, Run(h, [y]), r.value);
        }
      }
  }

  lemma {:induction false} VisitEachKeeps(step: StageStep, g: Graph, xs: seq<nat>, i: nat)
    requires Sound(step) && WellFormed(g) && i <= |xs|
    requires forall j :: 0 <= j < |xs| ==> xs[j] < |g.nodes|
    ensures VisitEach(step, g, xs, i).Ok? ==> Keeps(g, VisitEach(step, g, xs, i).value)
    decreases Entries(g.prevInputs), 1, |xs| - i
  {
    if i == |xs| {
      KeepsRefl(g);
    } else if g.nodes[xs[i]].useCount != 0 {
      VisitEachKeeps(step, g, xs, i + 1);
    } else {
      VisitKeeps(step, g, xs[i]);
      var first := Visit(step, g, xs[i]);
      if first.Ok? {
        VisitEachKeeps(step, first.value.graph, xs, i + 1);
        var rest := VisitEach(step, first.value.graph, xs, i + 1);
        if rest.Ok? {
          KeepsTrans(g, first.value, rest.value);
        }
      }
    }
  }

  lemma {:induction false} EachIdle(step: StageStep, g: Graph, xs: seq<nat>, i: nat)
    requires Sound(step) && WellFormed(g) && i <= |xs|
    requires forall j :: 0 <= j < |xs| ==> xs[j] < |g.nodes|
    requires forall j :: i <= j < |xs| ==> g.nodes[xs[j]].useCount != 0
    ensures VisitEach(step, g, xs, i) == Ok(Run(g, []))
    decreases |xs| - i
  {
    if i < |xs| {
      EachIdle(step, g, xs, i + 1);
    }
  }

  /** When no captured input of `y` has all its consumers done after the
    * stage backward, the walk stops there: exactly one stage backward runs. */
  lemma NoneReady(step: StageStep, g: Graph, y: nat, f: nat)
    requires Sound(step) && WellFormed(g) && y < |g.nodes| && g.nodes[y].parent == Some(f)
    requires |g.prevInputs[f]| > 0
    requires forall x :: x in Last(g.prevInputs[f]) ==> g.nodes[x].useCount != Occurrences(Last(g.prevInputs[f]), x)
    ensures Visit(step, g, y) == Ok(Run(step(g, f, y), [y]))
  {
    var xs := Last(g.prevInputs[f]);
    var h := step(g, f, y);
    StepFrame(g, h, f, y);
    forall j | 0 <= j < |xs|
      ensures h.nodes[xs[j]].useCount != 0
    {
      assert xs[j] in xs;
    }
    EachIdle(step, h, xs, 0);
    assert [y] + [] == [y];
  }

  /** The inputs of `xs` whose use count is zero in `g`, each node once, in
    * order of first occurrence. */
  function Ready(g: Graph, xs: seq<nat>): (r: seq<nat>)
    requires forall j :: 0 <= j < |xs| ==> xs[j] < |g.nodes|
    ensures forall n :: n in r <==> n in xs && g.nodes[n].useCount == 0
    ensures forall a, b :: 0 <= a < b < |r| ==> r[a] != r[b]
    ensures forall k :: 0 <= k < |r| ==> r[k] < |g.nodes|
  {
    if |xs| == 0 then []
    else
      var r := Ready(g, Pop(xs));
      if g.nodes[Last(xs)].useCount == 0 && Last(xs) !in r then r + [Last(xs)] else r
  }

  /** Entering a node whose producer has no pending input list left reads
    * that list at index -1. */
  lemma Exhausted(step: StageStep, g: Graph, y: nat, f: nat)
    requires Sound(step) && WellFormed(g) && y < |g.nodes| && g.nodes[y].parent == Some(f)
    requires |g.prevInputs[f]| == 0
    ensures Visit(step, g, y) == Err(ArgumentOutOfRange)
  {
  }

  /** Sequence facts the examples below use, kept out of their larger contexts. */
  lemma ConsPair(a: nat, b: nat)
    ensures [a] + [b] == [a, b]
  {
  }

  lemma ConsTriple(a: nat, b: nat, c: nat)
    ensures [a] + [b, c] == [a, b, c]
  {
  }

  /** A ready list of one input. */
  lemma ReadyOne(g: Graph, a: nat)
    requires a < |g.nodes| && g.nodes[a].useCount == 0
    ensures Ready(g, [a]) == [a]
  {
    assert Pop([a]) == [] && Last([a]) == a;
  }

  /** Of two inputs only the first is ready. */
  lemma ReadyFirstOfTwo(g: Graph, a: nat, b: nat)
    requires a < |g.nodes| && b < |g.nodes| && g.nodes[a].useCount == 0 && g.nodes[b].useCount != 0
    ensures Ready(g, [a, b]) == [a]
  {
    ReadyOne(g, a);
    assert Pop([a, b]) == [a] && Last([a, b]) == b;
  }

  /** An input captured twice is ready once. */
  lemma ReadyRepeated(g: Graph, a: nat)
    requires a < |g.nodes| && g.nodes[a].useCount == 0
    ensures Ready(g, [a, a]) == [a]
  {
    ReadyOne(g, a);
    assert Pop([a, a]) == [a] && Last([a, a]) == a;
  }

  /** Static `Backward(y)` with the ready list taken right after the stage
    * backward and without repeats: every input whose consumers are all done
    * at that moment is entered exactly once. */
  function VisitEager(step: StageStep, g: Graph, y: nat): (r: Result<Run>)
    requires Sound(step) && WellFormed(g) && y < |g.nodes|
    ensures r.Ok? ==> Frame(g, r.value)
    ensures r.Ok? && g.nodes[y].parent.Some? ==> |r.value.calls| > 0 && r.value.calls[0] == y
    decreases Entries(g.prevInputs), 0
  {
    match g.nodes[y].parent
    case None => Ok(Run(g, []))
    case Some(f) =>
      if |g.prevInputs[f]| == 0 then Err(ArgumentOutOfRange)
      else
        var xs := Last(g.prevInputs[f]);
        var h := step(g, f, y);
        StepFrame(g, h, f, y);
        Then([y], VisitAll(step, h, Ready(h, xs), 0))
  }

  /** Enters every node of `zs` from position `i`, in order. */
  function VisitAll(step: StageStep, g: Graph, zs: seq<nat>, i: nat): (r: Result<Run>)
    requires Sound(step) && WellFormed(g) && i <= |zs|
    requires forall j :: 0 <= j < |zs| ==> zs[j] < |g.nodes|
    ensures r.Ok? ==> Frame(g, r.value)
    decreases Entries(g.prevInputs), 1, |zs| - i
  {
    if i == |zs| then Ok(Run(g, []))
    else
      match VisitEager(step, g, zs[i])
      case Err(e) => Err(e)
      case Ok(first) => Then(first.calls, VisitAll(step, first.graph, zs, i + 1))
  }


  /** Entering a node whose producer has a pending list runs that stage
    * backward, then walks its captured list, lazily or eagerly. */
  lemma StageUnfold(step: StageStep, g: Graph, y: nat, f: nat)
    requires Sound(step) && WellFormed(g) && y < |g.nodes| && g.nodes[y].parent == Some(f)
    requires |g.prevInputs[f]| > 0
    ensures StageConforms(g, step(g, f, y), f) && WellFormed(step(g, f, y))
    ensures forall j :: 0 <= j < |Last(g.prevInputs[f])| ==> Last(g.prevInputs[f])[j] < |step(g, f, y).nodes|
    ensures Visit(step, g, y) == Then([y], VisitEach(step, step(g, f, y), Last(g.prevInputs[f]), 0))
    ensures VisitEager(step, g, y) == Then([y], VisitAll(step, step(g, f, y), Ready(step(g, f, y), Last(g.prevInputs[f])), 0))
  {
    assert StageConforms(g, step(g, f, y), f);
    StepFrame(g, step(g, f, y), f, y);
  }

  /** A stage backward under a sound `step`, without the walk around it. */
  lemma StageApplies(step: StageStep, g: Graph, y: nat, f: nat)
    requires Sound(step) && WellFormed(g) && f < |g.prevInputs| && |g.prevInputs[f]| > 0
    ensures StageConforms(g, step(g, f, y), f) && WellFormed(step(g, f, y))
  {
    assert StageConforms(g, step(g, f, y), f);
    StepWellFormed(g, step(g, f, y), f);
  }

  /** One position of the lazy `foreach`: a counted input is passed over, a
    * ready one is entered and the rest walked in the graph it leaves. */
  lemma EachUnfold(step: StageStep, g: Graph, xs: seq<nat>, i: nat)
    requires Sound(step) && WellFormed(g) && i < |xs|
    requires forall j :: 0 <= j < |xs| ==> xs[j] < |g.nodes|
    ensures g.nodes[xs[i]].useCount != 0 ==> VisitEach(step, g, xs, i) == VisitEach(step, g, xs, i + 1)
    ensures g.nodes[xs[i]].useCount == 0 && Visit(step, g, xs[i]).Err? ==> VisitEach(step, g, xs, i) == Visit(step, g, xs[i])
    ensures g.nodes[xs[i]].useCount == 0 && Visit(step, g, xs[i]).Ok? ==>
      VisitEach(step, g, xs, i) == Then(Visit(step, g, xs[i]).value.calls, VisitEach(step, Visit(step, g, xs[i]).value.graph, xs, i + 1))
  {
  }

  /** A ready list of one node is walked as that node alone. */
  lemma AllSingle(step: StageStep, g: Graph, z: nat)
    requires Sound(step) && WellFormed(g) && z < |g.nodes|
    ensures VisitAll(step, g, [z], 0) == VisitEager(step, g, z)
  {
    match VisitEager(step, g, z)
    case Err(e) =>
    case Ok(first) =>
      assert VisitAll(step, first.graph, [z], 1) == Ok(Run(first.graph, []));
      assert first.calls + [] == first.calls;
  }

  /** One entered position of the lazy `foreach`: what is left of the walk
    * from the start is what the entered node's walk ran followed by the
    * rest of the list from the graph that walk left. */
  lemma EachEnter(step: StageStep, g: Graph, cur: Graph, next: Graph, xs: seq<nat>, i: nat, done: seq<nat>, calls: seq<nat>)
    requires Sound(step) && WellFormed(g) && WellFormed(cur) && i < |xs| && |cur.nodes| == |g.nodes|
    requires forall j :: 0 <= j < |xs| ==> xs[j] < |g.nodes|
    requires Entries(cur.prevInputs) + |done| == Entries(g.prevInputs)
    requires VisitEach(step, g, xs, 0) == Then(done, VisitEach(step, cur, xs, i))
    requires cur.nodes[xs[i]].useCount == 0 && Visit(step, cur, xs[i]) == Ok(Run(next, calls))
    ensures WellFormed(next) && |next.nodes| == |g.nodes|
    ensures Entries(next.prevInputs) + |done + calls| == Entries(g.prevInputs)
    ensures VisitEach(step, g, xs, 0) == Then(done + calls, VisitEach(step, next, xs, i + 1))
  {
    EachUnfold(step, cur, xs, i);
    ThenThen(done, calls, VisitEach(step, next, xs, i + 1));
  }

  /** One position of the lazy `foreach` that is passed over. */
  lemma EachSkip(step: StageStep, g: Graph, cur: Graph, xs: seq<nat>, i: nat, done: seq<nat>)
    requires Sound(step) && WellFormed(g) && WellFormed(cur) && i < |xs| && |cur.nodes| == |g.nodes|
    requires forall j :: 0 <= j < |xs| ==> xs[j] < |g.nodes|
    requires VisitEach(step, g, xs, 0) == Then(done, VisitEach(step, cur, xs, i))
    requires cur.nodes[xs[i]].useCount != 0
    ensures VisitEach(step, g, xs, 0) == Then(done, VisitEach(step, cur, xs, i + 1))
  {
    EachUnfold(step, cur, xs, i);
  }

  lemma ThenNothing(r: Result<Run>)
    ensures Then([], r) == r
  {
    if r.Ok? {
      assert [] + r.value.calls == r.value.calls;
    }
  }

  lemma ThenThen(a: seq<nat>, b: seq<nat>, r: Result<Run>)
    ensures Then(a, Then(b, r)) == Then(a + b, r)
  {
    if r.Ok? {
      assert a + (b + r.value.calls) == (a + b) + r.value.calls;
    }
  }

  /** The graph `Backward()` starts its walk from: the gradient of a non-leaf
    * `y` filled with ones; a leaf leaves the graph as it is. */
  function Seeded(g: Graph, y: nat): (r: Graph)
    requires y < |g.nodes|
    ensures |r.nodes| == |g.nodes| && r.prevInputs == g.prevInputs
    ensures g.nodes[y].parent.None? ==> r == g
    ensures g.nodes[y].parent.Some? ==>
      && r.nodes[y].parent == g.nodes[y].parent && r.nodes[y].useCount == g.nodes[y].useCount
      && |r.nodes[y].grad| == |g.nodes[y].grad| && (forall i :: 0 <= i < |r.nodes[y].grad| ==> r.nodes[y].grad[i] == 1.0)
    ensures forall n :: 0 <= n < |g.nodes| && n != y ==> r.nodes[n] == g.nodes[n]
  {
    if g.nodes[y].parent.None? then g
    else g.(nodes := g.nodes[y := g.nodes[y].(grad := seq(|g.nodes[y].grad|, _ => 1.0))])
  }

  lemma SeededWellFormed(g: Graph, y: nat)
    requires WellFormed(g) && y < |g.nodes|
    ensures WellFormed(Seeded(g, y))
  {
    var s := Seeded(g, y);
    forall n | 0 <= n < |s.nodes| && s.nodes[n].parent.Some?
      ensures s.nodes[n].parent.value < |s.prevInputs|
    {
      assert s.nodes[n].parent == g.nodes[n].parent;
    }
  }

  /** The tensors of one graph and their producers' pending input lists, as
    * the objects hold them: the walk updates them in place. */
  class Arena {
    var nodes: seq<Node>
    var prevInputs: seq<seq<seq<nat>>>

    function State(): Graph
      reads this
    {
      Graph(nodes, prevInputs)
    }

    constructor (g: Graph)
      ensures State() == g
    {
      nodes := g.nodes;
      prevInputs := g.prevInputs;
    }

    /** Static `NdArray.Backward(y)`: returns the nodes whose producer ran
      * backward, in the order it ran, or the error the walk ends with. */
    method Propagate(step: StageStep, y: nat) returns (r: Result<seq<nat>>)
      requires Sound(step) && WellFormed(State()) && y < |nodes|
      modifies this
      ensures match Visit(step, old(State()), y)
        case Ok(run) => r == Ok(run.calls) && State() == run.graph
        case Err(e) => r == Err(e)
      ensures r.Ok? ==> Keeps(old(State()), Run(State(), r.value))
      decreases Entries(prevInputs), 0
    {
      ghost var g := State();
      VisitKeeps(step, g, y);
      match nodes[y].parent
      case None =>
        return Ok([]);
      case Some(f) =>
        if |prevInputs[f]| == 0 {
          return Err(ArgumentOutOfRange);
        }
        var xs := Last(prevInputs[f]);
        var h := step(State(), f, y);
        StepFrame(g, h, f, y);
        nodes, prevInputs := h.nodes, h.prevInputs;
        var rest := PropagateEach(step, xs);
        match rest
        case Err(e) =>
          return Err(e);
        case Ok(calls) =>
          return Ok([y] + calls);
    }

    /** The `foreach` of static `NdArray.Backward` over the captured list
      * `xs`, with its lazy `UseCount == 0` filter. */
    method PropagateEach(step: StageStep, xs: seq<nat>) returns (r: Result<seq<nat>>)
      requires Sound(step) && WellFormed(State()) && forall j :: 0 <= j < |xs| ==> xs[j] < |nodes|
      modifies this
      ensures match VisitEach(step, old(State()), xs, 0)
        case Ok(run) => r == Ok(run.calls) && State() == run.graph
        case Err(e) => r == Err(e)
      decreases Entries(prevInputs), 1
    {
      ghost var g := State();
      var done: seq<nat> := [];
      var i := 0;
      ThenNothing(VisitEach(step, g, xs, 0));
      while i < |xs|
        invariant 0 <= i <= |xs|
        invariant WellFormed(State()) && |nodes| == |g.nodes|
        invariant Entries(prevInputs) + |done| == Entries(g.prevInputs)
        invariant VisitEach(step, g, xs, 0) == Then(done, VisitEach(step, State(), xs, i))
      {
        if nodes[xs[i]].useCount == 0 {
          ghost var cur := State();
          var sub := Propagate(step, xs[i]);
          match sub
          case Err(e) =>
            return Err(e);
          case Ok(calls) =>
            EachEnter(step, g, cur, State(), xs, i, done, calls);
            done := done + calls;
        } else {
          EachSkip(step, g, State(), xs, i, done);
        }
        i := i + 1;
      }
      assert done + [] == done;
      return Ok(done);
    }

    /** Instance `Backward()` on `y`: a leaf changes nothing; otherwise every
      * gradient entry of `y` is set to one and the walk starts at `y`. */
    method Backward(step: StageStep, y: nat) returns (r: Result<seq<nat>>)
      requires Sound(step) && WellFormed(State()) && y < |nodes|
      modifies this
      ensures old(nodes[y].parent).None? ==> r == Ok([]) && State() == old(State())
      ensures match Visit(step, Seeded(old(State()), y), y)
        case Ok(run) => r == Ok(run.calls) && State() == run.graph
        case Err(e) => r == Err(e)
    {
      if nodes[y].parent.None? {
        return Ok([]);
      }
      var grad := nodes[y].grad;
      for i := 0 to |grad|
        invariant |grad| == |nodes[y].grad|
        invariant forall k :: 0 <= k < i ==> grad[k] == 1.0
      {
        grad := grad[i := 1.0];
      }
      ghost var g := State();
      assert grad == seq(|grad|, _ => 1.0);
      nodes := nodes[y := nodes[y].(grad := grad)];
      assert State() == Seeded(g, y);
      SeededWellFormed(g, y);
      r := Propagate(step, y);
    }
  }

  /** A residual-style diamond: leaf `x` (0) feeds stage 0 giving `t` (1);
    * `t` feeds stage 1 giving `p` (2); stage 2 takes `[p, t]` and gives `y`
    * (3).  Use counts are as the forward calls left them. */
  function Diamond(): Graph
  {
    Graph([Node(None, 1, [0.0]), Node(Some(0), 2, [0.0]), Node(Some(1), 1, [0.0]), Node(Some(2), 0, [1.0])],
          [[[0]], [[1]], [[2, 1]]])
  }

  /** A stage reading one non-leaf input twice: leaf `x` (0) feeds stage 0
    * giving `t` (1); stage 1 takes `[t, t]` and gives `y` (2). */
  function Square(): Graph
  {
    Graph([Node(None, 1, [0.0]), Node(Some(0), 2, [0.0]), Node(Some(1), 0, [1.0])],
          [[[0]], [[1, 1]]])
  }

  lemma DiamondWellFormed()
    ensures WellFormed(Diamond()) && WellFormed(Square())
  {
    var d := Diamond();
    forall f, k, j | 0 <= f < |d.prevInputs| && 0 <= k < |d.prevInputs[f]| && 0 <= j < |d.prevInputs[f][k]|
      ensures d.prevInputs[f][k][j] < |d.nodes|
    {
      assert f == 0 || f == 1 || f == 2;
    }
    var q := Square();
    forall f, k, j | 0 <= f < |q.prevInputs| && 0 <= k < |q.prevInputs[f]| && 0 <= j < |q.prevInputs[f][k]|
      ensures q.prevInputs[f][k][j] < |q.nodes|
    {
      assert f == 0 || f == 1;
    }
  }

  /** The bottom of both example graphs: leaf 0 feeds stage 0 giving node 1.
    * A stage backward on stage 0 changes no node but the leaf. */
  lemma TailStep(step: StageStep, g: Graph)
    requires Sound(step) && WellFormed(g) && 2 <= |g.nodes| && 1 <= |g.prevInputs|
    requires g.nodes[0].parent == None && g.nodes[1].parent == Some(0) && g.prevInputs[0] == [[0]]
    ensures var h := step(g, 0, 1);
      && WellFormed(h) && |h.nodes| == |g.nodes| && h.prevInputs == g.prevInputs[0 := []]
      && h.nodes[0].parent == None
      && (forall n :: 1 <= n < |g.nodes| ==> h.nodes[n] == g.nodes[n])
  {
    StageApplies(step, g, 1, 0);
    var h := step(g, 0, 1);
    assert Last(g.prevInputs[0]) == [0];
    forall n | 1 <= n < |g.nodes|
      ensures h.nodes[n] == g.nodes[n]
    {
      OccurrencesZero([0], n);
    }
  }

  /** Entering node 1 runs stage 0 once. */
  lemma TailChain(step: StageStep, g: Graph)
    requires Sound(step) && WellFormed(g) && 2 <= |g.nodes| && 1 <= |g.prevInputs|
    requires g.nodes[0].parent == None && g.nodes[1].parent == Some(0) && g.prevInputs[0] == [[0]]
    ensures var h := step(g, 0, 1);
      && Visit(step, g, 1) == Ok(Run(h, [1]))
      && WellFormed(h) && |h.nodes| == |g.nodes| && h.prevInputs == g.prevInputs[0 := []]
      && (forall n :: 1 <= n < |g.nodes| ==> h.nodes[n] == g.nodes[n])
  {
    TailStep(step, g);
    StageUnfold(step, g, 1, 0);
    assert Last(g.prevInputs[0]) == [0];
    var h := step(g, 0, 1);
    assert Visit(step, h, 0) == Ok(Run(h, []));
    EachUnfold(step, h, [0], 0);
    assert [1] + [] == [1];
  }

  /** Entering node 1 with the ready list taken eagerly runs stage 0 once. */
  lemma TailChainEager(step: StageStep, g: Graph)
    requires Sound(step) && WellFormed(g) && 2 <= |g.nodes| && 1 <= |g.prevInputs|
    requires g.nodes[0].parent == None && g.nodes[1].parent == Some(0) && g.prevInputs[0] == [[0]]
    ensures VisitEager(step, g, 1) == Ok(Run(step(g, 0, 1), [1]))
  {
    TailStep(step, g);
    StageUnfold(step, g, 1, 0);
    assert Last(g.prevInputs[0]) == [0];
    var h := step(g, 0, 1);
    assert VisitEager(step, h, 0) == Ok(Run(h, []));
    if h.nodes[0].useCount == 0 {
      ReadyOne(h, 0);
      AllSingle(step, h, 0);
    } else {
      assert Ready(h, [0]) == [];
    }
    assert [1] + [] == [1];
  }

  /** The middle of the diamond: node 1 (count 1 once stage 2 has run) feeds
    * stage 1 giving node 2.  A stage backward on stage 1 brings node 1's
    * count to zero. */
  lemma MiddleStep(step: StageStep, g: Graph)
    requires Sound(step) && WellFormed(g) && |g.nodes| == 4 && |g.prevInputs| == 3
    requires g.nodes[0].parent == None && g.nodes[1].parent == Some(0) && g.nodes[2].parent == Some(1)
    requires g.nodes[1].useCount == 1 && g.prevInputs[0] == [[0]] && g.prevInputs[1] == [[1]]
    ensures var m := step(g, 1, 2);
      && WellFormed(m) && |m.nodes| == 4 && |m.prevInputs| == 3 && m.prevInputs[0] == [[0]]
      && m.nodes[0].parent == None && m.nodes[1].parent == Some(0) && m.nodes[1].useCount == 0
      && Visit(step, g, 2) == Then([2], VisitEach(step, m, [1], 0))
      && VisitEager(step, g, 2) == Then([2], VisitAll(step, m, Ready(m, [1]), 0))
  {
    StageUnfold(step, g, 2, 1);
    assert Last(g.prevInputs[1]) == [1];
  }

  /** Entering node 2 of the diamond runs stages 1 and 0, in that order. */
  lemma DiamondMiddle(step: StageStep, g: Graph)
    requires Sound(step) && WellFormed(g) && |g.nodes| == 4 && |g.prevInputs| == 3
    requires g.nodes[0].parent == None && g.nodes[1].parent == Some(0) && g.nodes[2].parent == Some(1)
    requires g.nodes[1].useCount == 1 && g.prevInputs[0] == [[0]] && g.prevInputs[1] == [[1]]
    ensures var h := step(step(g, 1, 2), 0, 1);
      && Visit(step, g, 2) == Ok(Run(h, [2, 1]))
      && h.prevInputs[0] == [] && h.nodes[1].parent == Some(0) && h.nodes[1].useCount == 0
  {
    MiddleStep(step, g);
    var m := step(g, 1, 2);
    TailChain(step, m);
    var h := step(m, 0, 1);
    EachUnfold(step, m, [1], 0);
    assert VisitEach(step, h, [1], 1) == Ok(Run(h, []));
    assert [1] + [] == [1];
    ConsPair(2, 1);
  }

  /** The same with the ready list taken eagerly. */
  lemma DiamondMiddleEager(step: StageStep, g: Graph)
    requires Sound(step) && WellFormed(g) && |g.nodes| == 4 && |g.prevInputs| == 3
    requires g.nodes[0].parent == None && g.nodes[1].parent == Some(0) && g.nodes[2].parent == Some(1)
    requires g.nodes[1].useCount == 1 && g.prevInputs[0] == [[0]] && g.prevInputs[1] == [[1]]
    ensures VisitEager(step, g, 2) == Ok(Run(step(step(g, 1, 2), 0, 1), [2, 1]))
  {
    MiddleStep(step, g);
    var m := step(g, 1, 2);
    TailChainEager(step, m);
    ReadyOne(m, 1);
    AllSingle(step, m, 1);
    ConsPair(2, 1);
  }

  /** The first stage backward on the diamond, stage 2 for `y`: `p`'s count
    * drops to zero and `t`'s to one. */
  lemma DiamondTop(step: StageStep)
    requires Sound(step)
    ensures WellFormed(Diamond())
    ensures var g := step(Diamond(), 2, 3);
      && WellFormed(g) && |g.nodes| == 4 && |g.prevInputs| == 3
      && g.nodes[0].parent == None && g.nodes[1].parent == Some(0) && g.nodes[2].parent == Some(1)
      && g.nodes[1].useCount == 1 && g.nodes[2].useCount == 0
      && g.prevInputs[0] == [[0]] && g.prevInputs[1] == [[1]]
  {
    DiamondWellFormed();
    StageApplies(step, Diamond(), 3, 2);
    DiamondAfterTop(step(Diamond(), 2, 3));
  }

  /** Any graph a conforming stage 2 leaves from the diamond. */
  lemma DiamondAfterTop(h: Graph)
    requires StageConforms(Diamond(), h, 2)
    ensures |h.nodes| == 4 && |h.prevInputs| == 3
    ensures h.nodes[0].parent == None && h.nodes[1].parent == Some(0) && h.nodes[2].parent == Some(1)
    ensures h.nodes[1].useCount == 1 && h.nodes[2].useCount == 0
    ensures h.prevInputs[0] == [[0]] && h.prevInputs[1] == [[1]]
  {
    assert Last(Diamond().prevInputs[2]) == [2, 1];
  }

  /** The first stage backward on the square, stage 1 for `y`: `t`'s count
    * drops to zero. */
  lemma SquareTop(step: StageStep)
    requires Sound(step)
    ensures WellFormed(Square())
    ensures var g := step(Square(), 1, 2);
      && WellFormed(g) && |g.nodes| == 3 && |g.prevInputs| == 2
      && g.nodes[0].parent == None && g.nodes[1].parent == Some(0) && g.nodes[1].useCount == 0
      && g.prevInputs[0] == [[0]]
  {
    DiamondWellFormed();
    StageApplies(step, Square(), 2, 1);
    SquareAfterTop(step(Square(), 1, 2));
  }

  /** Any graph a conforming stage 1 leaves from the square. */
  lemma SquareAfterTop(h: Graph)
    requires StageConforms(Square(), h, 1)
    ensures |h.nodes| == 3 && |h.prevInputs| == 2
    ensures h.nodes[0].parent == None && h.nodes[1].parent == Some(0) && h.nodes[1].useCount == 0
    ensures h.prevInputs[0] == [[0]]
  {
    assert Last(Square().prevInputs[1]) == [1, 1];
  }

  /** Entering `t` of the square runs stage 0 once and leaves `t` with no
    * pending consumer and its producer with no pending input list. */
  lemma SquareBottom(step: StageStep, g: Graph)
    requires Sound(step) && WellFormed(g) && |g.nodes| == 3 && |g.prevInputs| == 2
    requires g.nodes[0].parent == None && g.nodes[1].parent == Some(0) && g.nodes[1].useCount == 0
    requires g.prevInputs[0] == [[0]]
    ensures var h := step(g, 0, 1);
      && Visit(step, g, 1) == Ok(Run(h, [1]))
      && WellFormed(h) && |h.nodes| == 3 && h.prevInputs[0] == []
      && h.nodes[1].parent == Some(0) && h.nodes[1].useCount == 0
  {
    TailChain(step, g);
  }

  /** As written, whatever the stages compute: on the diamond the lazy filter
    * tests `t` after the walk into `p` has already run `t`'s producer, so `t`
    * is entered a second time and its producer's empty `PrevInputs` is read
    * at index -1. */
  lemma LazyFilterRevisitsShared(step: StageStep)
    requires Sound(step)
    ensures Visit(step, Diamond(), 3) == Err(ArgumentOutOfRange)
  {
    DiamondTop(step);
    var g1 := step(Diamond(), 2, 3);
    StageUnfold(step, Diamond(), 3, 2);
    assert Last(Diamond().prevInputs[2]) == [2, 1];
    DiamondMiddle(step, g1);
    var h := step(step(g1, 1, 2), 0, 1);
    EachUnfold(step, g1, [2, 1], 0);
    Exhausted(step, h, 1, 0);
    EachUnfold(step, h, [2, 1], 1);
  }

  /** As written, on the square `t` passes the filter once per occurrence, so
    * it is entered twice and the second entry fails the same way. */
  lemma LazyFilterRepeatsInput(step: StageStep)
    requires Sound(step)
    ensures Visit(step, Square(), 2) == Err(ArgumentOutOfRange)
  {
    SquareTop(step);
    var g1 := step(Square(), 1, 2);
    StageUnfold(step, Square(), 2, 1);
    assert Last(Square().prevInputs[1]) == [1, 1];
    SquareBottom(step, g1);
    var h := step(g1, 0, 1);
    EachUnfold(step, g1, [1, 1], 0);
    Exhausted(step, h, 1, 0);
    EachUnfold(step, h, [1, 1], 1);
  }

  /** With the ready list taken eagerly and without repeats, the diamond is
    * walked with every producer's backward running exactly once. */
  lemma EagerReadyVisitsDiamondOnce(step: StageStep)
    requires Sound(step)
    ensures VisitEager(step, Diamond(), 3).Ok? && VisitEager(step, Diamond(), 3).value.calls == [3, 2, 1]
  {
    DiamondTop(step);
    var g1 := step(Diamond(), 2, 3);
    StageUnfold(step, Diamond(), 3, 2);
    assert Last(Diamond().prevInputs[2]) == [2, 1];
    ReadyFirstOfTwo(g1, 2, 1);
    DiamondMiddleEager(step, g1);
    AllSingle(step, g1, 2);
    ConsTriple(3, 2, 1);
  }

  /** With the ready list taken eagerly and without repeats, the square is
    * walked with every producer's backward running exactly once. */
  lemma EagerReadyVisitsSquareOnce(step: StageStep)
    requires Sound(step)
    ensures VisitEager(step, Square(), 2).Ok? && VisitEager(step, Square(), 2).value.calls == [2, 1]
  {
    SquareTop(step);
    var g1 := step(Square(), 1, 2);
    StageUnfold(step, Square(), 2, 1);
    assert Last(Square().prevInputs[1]) == [1, 1];
    ReadyRepeated(g1, 1);
    TailChainEager(step, g1);
    AllSingle(step, g1, 1);
    ConsPair(2, 1);
  }
}
