/**
  The CommonJS loader: recursive loading over a module graph that may be cyclic, with a shared
  cache and an error path that evicts.

  What user code does is not fixed: a module body is an oracle that sees everything that has
  happened so far (the trace) and answers with its next action. `Expected` is the loader's
  meaning, one small step at a time over the trace; `Loader.LoadModule` is the recursive code,
  proved to produce only legal traces and to agree with the cache they stand for.
 */
module CjsLoader {
  import opened Wrappers

  type Spec = string
  type Value = int
  type Error = int

  /** `module.exports` before the body runs: a fresh object. */
  const FRESH: Value := 0

  datatype Module = Module(exports: Value, loaded: bool)

  type Outcome = Result<Value, Error>

  /** What `op_cjs_read_source` yields: JSON and native sources give exports or an error at once. */
  datatype Source = Immediate(outcome: Outcome) | Script

  /** The next thing a module body does. Catching the error of a `require` is going on after it.
      The require function used may be any module's, hence `parent`. */
  datatype Action =
    | Require(parent: Option<Spec>, request: string)
    | SetExports(value: Value)
    | Throw(error: Error)
    | Finish

  datatype Event =
    | Called(caller: Option<Spec>, parent: Option<Spec>, request: string)   // a require; caller None is the host
    | Answered(outcome: Outcome)                                        // what that require returned or threw
    | Began(spec: Spec)                                                 // cached as not loaded
    | Exported(spec: Spec, value: Value)
    | Loaded(spec: Spec)
    | Evicted(spec: Spec, error: Error)

  type Trace = seq<Event>

  /** The world around the loader: resolution, sources and user code. */
  datatype World = World(
    specs: set<Spec>,
    resolve: (Option<Spec>, string) -> Result<Spec, Error>,
    read: Spec -> Result<Source, Error>,
    act: (Spec, Trace) -> Action,
    patience: Spec -> nat)

  /** Finitely many modules, and no body goes on for ever by itself: after `patience` actions it ends. */
  ghost predicate Finite(w: World) {
    && (forall p, r :: w.resolve(p, r).Ok? ==> w.resolve(p, r).value in w.specs)
    && (forall s, t {:trigger w.act(s, t)} ::
          Steps(s, t) >= w.patience(s) ==> w.act(s, t).Finish? || w.act(s, t).Throw?)
  }

  /** How many actions the current evaluation of `s` has taken. */
  function Steps(s: Spec, t: Trace): nat {
    if t == [] then 0 else StepsAfter(s, Steps(s, t[..|t| - 1]), t[|t| - 1])
  }

  function StepsAfter(s: Spec, n: nat, e: Event): nat {
    if e == Began(s) then 0
    else if (e.Called? && e.caller == Some(s)) || (e.Exported? && e.spec == s) then n + 1
    else n
  }

  // ---------------------------------------------------------------- what a trace stands for

  /** The load stack, innermost last. */
  function Stack(t: Trace): seq<Spec> {
    if t == [] then [] else StackAfter(Stack(t[..|t| - 1]), t[|t| - 1])
  }

  function StackAfter(stack: seq<Spec>, e: Event): seq<Spec> {
    match e
    case Began(s) => stack + [s]
    case Loaded(_) => Pop(stack)
    case Evicted(_, _) => Pop(stack)
    case _ => stack
  }

  function Pop(stack: seq<Spec>): seq<Spec> { if stack == [] then [] else stack[..|stack| - 1] }

  function Top(t: Trace): Option<Spec> {
    var stack := Stack(t);
    if stack == [] then None else Some(stack[|stack| - 1])
  }

  /** The cache. */
  function Replay(t: Trace): map<Spec, Module> {
    if t == [] then map[] else CacheAfter(Replay(t[..|t| - 1]), t[|t| - 1])
  }

  function CacheAfter(cache: map<Spec, Module>, e: Event): map<Spec, Module> {
    match e
    case Began(s) => cache[s := Module(FRESH, false)]
    case Exported(s, v) => if s in cache then cache[s := cache[s].(exports := v)] else cache
    case Loaded(s) => if s in cache then cache[s := cache[s].(loaded := true)] else cache
    case Evicted(s, _) => cache - {s}
    case _ => cache
  }

  // ---------------------------------------------------------------- the loader, step by step

  /** User code (or, with an empty stack, the host) decides what happens next. */
  predicate UserTurn(w: World, t: Trace) {
    t == [] ||
    (match t[|t| - 1]
     case Answered(_) => true
     case Began(s) => w.read(s) == Ok(Script)
     case Exported(s, _) => w.read(s) == Ok(Script)
     case _ => false)
  }

  predicate HostTurn(w: World, t: Trace) { UserTurn(w, t) && Stack(t) == [] }

  /** The one event that may follow, when it is not the host's turn. */
  function Expected(w: World, t: Trace): Event
    requires !HostTurn(w, t)
  {
    if UserTurn(w, t) then
      var s := Top(t).value;
      match w.act(s, t)
      case Require(p, r) => Called(Some(s), p, r)
      case SetExports(v) => Exported(s, v)
      case Throw(e) => Evicted(s, e)
      case Finish => Loaded(s)
    else
      match t[|t| - 1]
      case Called(_, p, r) => Response(w, Replay(t), p, r)
      case Began(s) => Given(w, s)
      case Exported(s, _) => Loaded(s)
      case Loaded(s) => Answered(if s in Replay(t) then Ok(Replay(t)[s].exports) else Err(0))
      case Evicted(_, e) => Answered(Err(e))
      case Answered(o) => t[|t| - 1]
  }

  /** A require is answered from the cache, with the exports as they are now, or begins an evaluation. */
  function Response(w: World, cache: map<Spec, Module>, p: Option<Spec>, r: string): Event {
    match w.resolve(p, r)
    case Err(e) => Answered(Err(e))
    case Ok(s) =>
      if s in cache then Answered(Ok(cache[s].exports))
      else if w.read(s).Err? then Answered(Err(w.read(s).error))
      else Began(s)
  }

  /** A JSON or native source. */
  function Given(w: World, s: Spec): Event {
    match w.read(s)
    case Ok(Immediate(Ok(v))) => Exported(s, v)
    case Ok(Immediate(Err(e))) => Evicted(s, e)
    case _ => Loaded(s)
  }

  ghost predicate Legal(w: World, t: Trace) {
    t == [] || (Legal(w, t[..|t| - 1]) && Follows(w, t[..|t| - 1], t[|t| - 1]))
  }

  ghost predicate Follows(w: World, t: Trace, e: Event) {
    if HostTurn(w, t) then e.Called? && e.caller == None else e == Expected(w, t)
  }

  // ---------------------------------------------------------------- invariants of every legal trace

  /** The modules cached but not loaded. */
  function Loading(cache: map<Spec, Module>): set<Spec> { set s | s in cache && !cache[s].loaded }

  function Elements(stack: seq<Spec>): set<Spec> { set s | s in stack }

  ghost predicate Distinct(stack: seq<Spec>) {
    forall i, j :: 0 <= i < j < |stack| ==> stack[i] != stack[j]
  }

  /** The module whose evaluation the last event belongs to is on top of the stack. */
  ghost predicate Focused(w: World, t: Trace) {
    t == [] ||
    (match t[|t| - 1]
     case Began(s) => Top(t) == Some(s)
     case Exported(s, _) => Top(t) == Some(s)
     case Loaded(s) => s in Replay(t)
     case _ => true)
  }

  ghost predicate CacheInv(t: Trace) {
    Distinct(Stack(t)) && Loading(Replay(t)) == Elements(Stack(t))
  }

  lemma Snoc(t: Trace, e: Event)
    ensures (t + [e])[..|t|] == t && (t + [e])[|t|] == e
    ensures Stack(t + [e]) == StackAfter(Stack(t), e)
    ensures Replay(t + [e]) == CacheAfter(Replay(t), e)
    ensures forall s :: Steps(s, t + [e]) == StepsAfter(s, Steps(s, t), e)
  {
    assert (t + [e])[..|t|] == t;
  }

  lemma StackPop(stack: seq<Spec>)
    requires stack != [] && Distinct(stack)
    ensures Elements(Pop(stack)) == Elements(stack) - {stack[|stack| - 1]} && Distinct(Pop(stack))
  {}

  lemma StackPush(stack: seq<Spec>, s: Spec)
    requires Distinct(stack) && s !in stack
    ensures Elements(stack + [s]) == Elements(stack) + {s} && Distinct(stack + [s])
  {}

  /** At every moment the modules cached but not loaded are exactly those on the load stack, none twice. */
  lemma {:induction false} LoadingIsStack(w: World, t: Trace)
    requires Legal(w, t)
    ensures CacheInv(t) && Focused(w, t)
  {
    if t != [] {
      var before, e := t[..|t| - 1], t[|t| - 1];
      LoadingIsStack(w, before);
      LoadingStep(w, before, e);
      assert t == before + [e];
    }
  }

  lemma BeganIsNew(w: World, t: Trace, s: Spec)
    requires CacheInv(t) && Follows(w, t, Began(s))
    ensures s !in Replay(t) && s !in Stack(t)
  {
    assert s !in Replay(t);
    assert s !in Loading(Replay(t));
    assert s !in Elements(Stack(t));
  }

  lemma EndedIsTop(w: World, t: Trace, s: Spec, e: Event)
    requires CacheInv(t) && Focused(w, t) && Follows(w, t, e)
    requires e == Loaded(s) || (e.Evicted? && e.spec == s) || (e.Exported? && e.spec == s)
    ensures Stack(t) != [] && Top(t) == Some(s) && s in Replay(t) && !Replay(t)[s].loaded
  {
    var stack := Stack(t);
    assert Top(t) == Some(s);
    assert s in Elements(stack);
    assert s in Loading(Replay(t));
  }

  lemma LoadingStep(w: World, t: Trace, e: Event)
    requires CacheInv(t) && Focused(w, t) && Follows(w, t, e)
    ensures CacheInv(t + [e]) && Focused(w, t + [e])
  {
    Snoc(t, e);
    var stack := Stack(t);
    match e
    case Began(s) =>
      BeganIsNew(w, t, s);
      StackPush(stack, s);
    case Loaded(s) =>
      EndedIsTop(w, t, s, e);
      StackPop(stack);
    case Evicted(s, _) =>
      EndedIsTop(w, t, s, e);
      StackPop(stack);
    case Exported(s, _) =>
      EndedIsTop(w, t, s, e);
    case Called(_, _, _) =>
    case Answered(_) =>
  }

  lemma {:induction false} LegalPrefix(w: World, t: Trace, n: nat)
    requires Legal(w, t) && n <= |t|
    ensures Legal(w, t[..n])
    ensures n < |t| ==> Follows(w, t[..n], t[n])
  {
    if n == |t| {
      assert t[..n] == t;
    } else if n + 1 < |t| {
      LegalPrefix(w, t[..|t| - 1], n);
      assert t[..|t| - 1][..n] == t[..n];
    }
  }

  lemma LoadedStep(w: World, t: Trace, e: Event, s: Spec)
    requires Legal(w, t) && Follows(w, t, e)
    requires s in Replay(t) && Replay(t)[s].loaded
    ensures e != Began(s) && s in Replay(t + [e]) && Replay(t + [e])[s] == Replay(t)[s]
  {
    LoadingIsStack(w, t);
    Snoc(t, e);
    match e
    case Began(s') => BeganIsNew(w, t, s');
    case Loaded(s') => EndedIsTop(w, t, s', e);
    case Evicted(s', _) => EndedIsTop(w, t, s', e);
    case Exported(s', _) => EndedIsTop(w, t, s', e);
    case Called(_, _, _) =>
    case Answered(_) =>
  }

  /** Once loaded, a module stays in the cache with the exports it was loaded with. */
  lemma {:induction false} LoadedStays(w: World, t: Trace, i: nat, n: nat)
    requires Legal(w, t) && i < n <= |t| && t[i].Loaded?
    ensures var s := t[i].spec;
      && s in Replay(t[..n]) && Replay(t[..n])[s].loaded
      && s in Replay(t[..i + 1]) && Replay(t[..n])[s] == Replay(t[..i + 1])[s]
    decreases n
  {
    var s := t[i].spec;
    var before := t[..n - 1];
    LegalPrefix(w, t, n - 1);
    assert t[..n] == before + [t[n - 1]];
    if n == i + 1 {
      JustLoaded(w, before, s);
    } else {
      LoadedStays(w, t, i, n - 1);
      LoadedStep(w, before, t[n - 1], s);
    }
  }

  lemma JustLoaded(w: World, t: Trace, s: Spec)
    requires Legal(w, t) && Follows(w, t, Loaded(s))
    ensures s in Replay(t + [Loaded(s)]) && Replay(t + [Loaded(s)])[s].loaded
  {
    LoadingIsStack(w, t);
    EndedIsTop(w, t, s, Loaded(s));
    Snoc(t, Loaded(s));
  }

  /** The body of a module that has loaded is never evaluated again. */
  lemma NeverEvaluatedAgain(w: World, t: Trace, i: nat, j: nat)
    requires Legal(w, t) && i < j < |t| && t[i].Loaded?
    ensures t[j] != Began(t[i].spec)
  {
    LoadedStays(w, t, i, j);
    LegalPrefix(w, t, j);
    LoadedStep(w, t[..j], t[j], t[i].spec);
  }

  /** A module on the load stack is not evaluated inside itself: a cycle gets the exports made so far. */
  lemma CycleGetsPartialExports(w: World, t: Trace, p: Option<Spec>, r: string, s: Spec)
    requires Legal(w, t) && t != [] && t[|t| - 1].Called? && t[|t| - 1].parent == p && t[|t| - 1].request == r
    requires w.resolve(p, r) == Ok(s) && s in Stack(t)
    ensures s in Replay(t) && !Replay(t)[s].loaded && Expected(w, t) == Answered(Ok(Replay(t)[s].exports))
  {
    LoadingIsStack(w, t);
    assert s in Elements(Stack(t));
    assert s in Loading(Replay(t));
  }

  // ---------------------------------------------------------------- the cache and the answers, from the events alone

  predicate Evicts(e: Event, s: Spec) { e.Evicted? && e.spec == s }

  /** An evaluation of s began at moment i and has not been evicted since. */
  ghost predicate HeldSince(t: Trace, s: Spec, i: nat) {
    i < |t| && t[i] == Began(s) && forall k :: i < k < |t| ==> !Evicts(t[k], s)
  }

  ghost predicate Held(t: Trace, s: Spec) { exists i: nat :: HeldSince(t, s, i) }

  /** The exports of s: what was last set since its evaluation last began. */
  function ExportsIn(t: Trace, s: Spec): Value {
    if t == [] then FRESH else
      match t[|t| - 1]
      case Began(s') => if s' == s then FRESH else ExportsIn(t[..|t| - 1], s)
      case Exported(s', v) => if s' == s then v else ExportsIn(t[..|t| - 1], s)
      case _ => ExportsIn(t[..|t| - 1], s)
  }

  lemma HeldAfter(t: Trace, e: Event, s: Spec)
    ensures Held(t + [e], s) <==> e == Began(s) || (Held(t, s) && !Evicts(e, s))
  {
    var t' := t + [e];
    if Held(t', s) {
      var i: nat :| HeldSince(t', s, i);
      if i < |t| {
        assert t'[|t|] == e;
        assert forall k :: i < k < |t| ==> t'[k] == t[k];
        assert HeldSince(t, s, i);
      }
    }
    if e == Began(s) {
      assert HeldSince(t', s, |t|);
    } else if Held(t, s) && !Evicts(e, s) {
      var i: nat :| HeldSince(t, s, i);
      assert HeldSince(t', s, i);
    }
  }

  /**
    A module is cached exactly if an evaluation of it has begun that no throw has evicted since,
    with the exports last set in that evaluation.
   */
  lemma {:induction false} CachedIffHeld(t: Trace, s: Spec)
    ensures s in Replay(t) <==> Held(t, s)
    ensures s in Replay(t) ==> Replay(t)[s].exports == ExportsIn(t, s)
  {
    if t != [] {
      var before, e := t[..|t| - 1], t[|t| - 1];
      assert t == before + [e];
      CachedIffHeld(before, s);
      HeldAfter(before, e, s);
    }
  }

  lemma EventFollows(w: World, t: Trace, j: nat)
    requires Legal(w, t) && j + 1 < |t| && !HostTurn(w, t[..j + 1])
    ensures t[j + 1] == Expected(w, t[..j + 1]) && t[..j + 1][j] == t[j]
  {
    LegalPrefix(w, t, j + 1);
  }

  /** What a require leads to: a resolution error, the exports held, a read error, or a new evaluation. */
  lemma RequireLeadsTo(w: World, t: Trace, j: nat)
    requires Legal(w, t) && j + 1 < |t| && t[j].Called?
    ensures var (p, r, before) := (t[j].parent, t[j].request, t[..j + 1]);
      match w.resolve(p, r)
      case Err(e) => t[j + 1] == Answered(Err(e))
      case Ok(s) =>
        if Held(before, s) then t[j + 1] == Answered(Ok(ExportsIn(before, s)))
        else if w.read(s).Err? then t[j + 1] == Answered(Err(w.read(s).error))
        else t[j + 1] == Began(s)
  {
    EventFollows(w, t, j);
    var resolved := w.resolve(t[j].parent, t[j].request);
    if resolved.Ok? {
      CachedIffHeld(t[..j + 1], resolved.value);
    }
  }

  /** Where it is a body's turn, the innermost one acts: its throw evicts it, its end loads it. */
  lemma BodyLeadsTo(w: World, t: Trace, j: nat)
    requires Legal(w, t) && 0 < j < |t| && Stack(t[..j]) != []
    requires t[j - 1].Answered? || ((t[j - 1].Began? || t[j - 1].Exported?) && w.read(t[j - 1].spec) == Ok(Script))
    ensures var s := Top(t[..j]).value;
      match w.act(s, t[..j])
      case Require(p, r) => t[j] == Called(Some(s), p, r)
      case SetExports(v) => t[j] == Exported(s, v)
      case Throw(e) => t[j] == Evicted(s, e)
      case Finish => t[j] == Loaded(s)
  {
    LegalPrefix(w, t, j);
    assert t[..j][j - 1] == t[j - 1];
  }

  /** Where no body is being evaluated, once what was required has been answered, the host may require anything. */
  lemma HostMayRequire(w: World, t: Trace, parent: Option<Spec>, request: string)
    requires Legal(w, t) && Stack(t) == [] && (t == [] || t[|t| - 1].Answered?)
    ensures Legal(w, t + [Called(None, parent, request)])
  {
    LegalSnoc(w, t, Called(None, parent, request));
  }

  /** A throw reaches the code that called require, as it is. */
  lemma EvictedIsRethrown(w: World, t: Trace, j: nat)
    requires Legal(w, t) && j + 1 < |t| && t[j].Evicted?
    ensures t[j + 1] == Answered(Err(t[j].error))
  {
    EventFollows(w, t, j);
  }

  /** A module that has loaded answers the require that began it with the exports it has then. */
  lemma LoadedIsAnswered(w: World, t: Trace, j: nat)
    requires Legal(w, t) && j + 1 < |t| && t[j].Loaded?
    ensures t[j + 1] == Answered(Ok(ExportsIn(t[..j + 1], t[j].spec)))
  {
    EventFollows(w, t, j);
    LegalPrefix(w, t, j + 1);
    LoadingIsStack(w, t[..j + 1]);
    CachedIffHeld(t[..j + 1], t[j].spec);
  }

  /** A JSON or native source is answered with what it yields, by way of the cache or of an eviction. */
  lemma ImmediateIsAnswered(w: World, t: Trace, j: nat)
    requires Legal(w, t) && j + 1 < |t| && t[j].Began? && w.read(t[j].spec).Ok? && w.read(t[j].spec).value.Immediate?
    ensures var (s, outcome) := (t[j].spec, w.read(t[j].spec).value.outcome);
      match outcome
      case Err(e) => t[j + 1] == Evicted(s, e) && (j + 2 < |t| ==> t[j + 2] == Answered(outcome))
      case Ok(v) =>
        && t[j + 1] == Exported(s, v) && (j + 2 < |t| ==> t[j + 2] == Loaded(s))
        && (j + 3 < |t| ==> t[j + 3] == Answered(outcome))
  {
    EventFollows(w, t, j);
    if j + 2 < |t| {
      EventFollows(w, t, j + 1);
    }
    if j + 3 < |t| && t[j + 1].Exported? {
      LoadedIsAnswered(w, t, j + 2);
      assert t[..j + 3][..j + 2] == t[..j + 2];
    }
  }

  /** A module evicted by a throw is evaluated again before any require of it succeeds. */
  lemma EvictedIsEvaluatedAgain(w: World, t: Trace, i: nat, j: nat, s: Spec) returns (k: nat)
    requires Legal(w, t) && i < j && j + 1 < |t| && Evicts(t[i], s)
    requires t[j].Called? && w.resolve(t[j].parent, t[j].request) == Ok(s) && t[j + 1].Answered? && t[j + 1].outcome.Ok?
    ensures i < k < j && t[k] == Began(s)
  {
    RequireLeadsTo(w, t, j);
    var n: nat :| HeldSince(t[..j + 1], s, n);
    assert t[..j + 1][i] == t[i];
    k := n;
  }

  // ---------------------------------------------------------------- the loader itself

  lemma LegalSnoc(w: World, t: Trace, e: Event)
    requires Legal(w, t) && Follows(w, t, e)
    ensures Legal(w, t + [e])
  {
    Snoc(t, e);
  }

  ghost predicate IsRequire(w: World, t: Trace, parent: Option<Spec>, request: string) {
    t != [] && t[|t| - 1].Called? && t[|t| - 1].parent == parent && t[|t| - 1].request == request
  }

  lemma RequireTurn(w: World, t: Trace, parent: Option<Spec>, request: string)
    requires IsRequire(w, t, parent, request)
    ensures Follows(w, t, Response(w, Replay(t), parent, request))
  {}

  /** How much of the graph is not being loaded: what bounds the depth of the recursion. */
  ghost function Room(w: World, t: Trace): nat { |w.specs - Elements(Stack(t))| }

  /** A nested load leaves the step counts of everything below it alone. */
  ghost predicate StepsKept(before: Trace, after: Trace, stack: seq<Spec>) {
    forall s :: s in stack ==> Steps(s, after) == Steps(s, before)
  }

  lemma BeginLemma(w: World, t: Trace, s: Spec)
    requires Finite(w) && Legal(w, t) && Follows(w, t, Began(s)) && s in w.specs
    ensures Stack(t + [Began(s)]) == Stack(t) + [s] && Top(t + [Began(s)]) == Some(s)
    ensures Pop(Stack(t + [Began(s)])) == Stack(t)
    ensures Room(w, t + [Began(s)]) < Room(w, t)
    ensures s !in Stack(t)
  {
    LoadingIsStack(w, t);
    BeganIsNew(w, t, s);
    Snoc(t, Began(s));
    StackPush(Stack(t), s);
    var free := w.specs - Elements(Stack(t));
    assert s in free;
    assert w.specs - Elements(Stack(t) + [s]) == free - {s};
  }

  ghost predicate StepsFollow(before: Trace, after: Trace, e: Event) {
    forall s :: Steps(s, after) == StepsAfter(s, Steps(s, before), e)
  }

  lemma TopIsNotBelow(stack: seq<Spec>)
    requires Distinct(stack) && stack != []
    ensures stack[|stack| - 1] in stack && stack[|stack| - 1] !in Pop(stack)
    ensures forall s :: s in Pop(stack) ==> s in stack
  {}

  /** How an evaluation ends: loaded, or evicted by the error it threw. */
  function Ending(s: Spec, thrown: Option<Error>): Event {
    if thrown.None? then Loaded(s) else Evicted(s, thrown.value)
  }

  class Loader {
    var cache: map<Spec, Module>
    var trace: Trace

    ghost predicate Valid(w: World)
      reads this
    {
      Finite(w) && Legal(w, trace) && cache == Replay(trace)
    }

    constructor (w: World)
      requires Finite(w)
      ensures Valid(w) && trace == []
    {
      cache, trace := map[], [];
    }

    method LoadModule(w: World, parent: Option<Spec>, request: string) returns (r: Outcome)
      requires Valid(w) && IsRequire(w, trace, parent, request)
      modifies this
      ensures Valid(w)
      ensures old(trace) < trace && trace[|trace| - 1] == Answered(r)
      ensures Stack(trace) == old(Stack(trace)) && StepsKept(old(trace), trace, Stack(trace))
      decreases Room(w, trace), 0, 0
    {
      RequireTurn(w, trace, parent, request);
      var resolved := w.resolve(parent, request);
      if resolved.Err? {
        r := Err(resolved.error);
        Answer(w, r);
        return;
      }
      var specifier := resolved.value;
      if specifier in cache {
        r := Ok(cache[specifier].exports);
        Answer(w, r);
        return;
      }
      var source := w.read(specifier);
      if source.Err? {
        r := Err(source.error);
        Answer(w, r);
        return;
      }
      Begin(w, specifier);
      r := Run(w, specifier, source.value);
      Answer(w, r);
    }

    /** Returning to, or throwing into, the code that called require. */
    method Answer(w: World, r: Outcome)
      requires Valid(w) && Follows(w, trace, Answered(r))
      modifies this
      ensures Valid(w) && trace == old(trace) + [Answered(r)]
      ensures Stack(trace) == old(Stack(trace)) && StepsKept(old(trace), trace, Stack(trace))
    {
      Log(w, Answered(r));
    }

    /** `cache.set(specifier, module)`. */
    method Begin(w: World, specifier: Spec)
      requires Valid(w) && Follows(w, trace, Began(specifier)) && specifier in w.specs
      modifies this
      ensures Valid(w) && trace == old(trace) + [Began(specifier)]
      ensures Top(trace) == Some(specifier) && Pop(Stack(trace)) == old(Stack(trace))
      ensures StepsKept(old(trace), trace, old(Stack(trace))) && Room(w, trace) < Room(w, old(trace))
    {
      BeginLemma(w, trace, specifier);
      cache := cache[specifier := Module(FRESH, false)];
      Log(w, Began(specifier));
    }

    /** The `try` block of `loadModule` and its `catch`. */
    method Run(w: World, specifier: Spec, source: Source) returns (r: Outcome)
      requires Valid(w) && trace != [] && trace[|trace| - 1] == Began(specifier) && w.read(specifier) == Ok(source)
      requires Top(trace) == Some(specifier)
      modifies this
      ensures Valid(w) && old(trace) <= trace && Stack(trace) == Pop(old(Stack(trace)))
      ensures StepsKept(old(trace), trace, Stack(trace))
      ensures trace != [] && !UserTurn(w, trace) && Expected(w, trace) == Answered(r)
      decreases Room(w, trace), 2
    {
      var thrown := Body(w, specifier, source);
      r := Settle(w, specifier, thrown);
    }

    /** The three kinds of source. What follows is the module's load or its eviction. */
    method Body(w: World, specifier: Spec, source: Source) returns (thrown: Option<Error>)
      requires Valid(w) && trace != [] && trace[|trace| - 1] == Began(specifier) && w.read(specifier) == Ok(source)
      requires Top(trace) == Some(specifier)
      modifies this
      ensures Valid(w) && old(trace) <= trace && Stack(trace) == old(Stack(trace))
      ensures StepsKept(old(trace), trace, Pop(Stack(trace)))
      ensures Follows(w, trace, Ending(specifier, thrown))
      decreases Room(w, trace), 1
    {
      match source {
        case Immediate(outcome) =>
          if outcome.Err? {
            return Some(outcome.error);
          }
          Export(w, specifier, outcome.value);
          return None;
        case Script =>
          thrown := Evaluate(w, specifier);
      }
    }

    method Settle(w: World, specifier: Spec, thrown: Option<Error>) returns (r: Outcome)
      requires Valid(w) && Follows(w, trace, Ending(specifier, thrown))
      modifies this
      ensures Valid(w) && trace == old(trace) + [Ending(specifier, thrown)]
      ensures Stack(trace) == Pop(old(Stack(trace))) && StepsKept(old(trace), trace, Stack(trace))
      ensures !UserTurn(w, trace) && Expected(w, trace) == Answered(r)
    {
      LoadingIsStack(w, trace);
      EndedIsTop(w, trace, specifier, Ending(specifier, thrown));
      if thrown.None? {
        cache := cache[specifier := cache[specifier].(loaded := true)];
        Log(w, Loaded(specifier));
        r := Ok(cache[specifier].exports);
      } else {
        cache := cache - {specifier};
        Log(w, Evicted(specifier, thrown.value));
        r := Err(thrown.value);
      }
    }

    /** `module.exports = value`. */
    method Export(w: World, spec: Spec, value: Value)
      requires Valid(w) && Follows(w, trace, Exported(spec, value))
      modifies this
      ensures Valid(w) && trace == old(trace) + [Exported(spec, value)]
      ensures Stack(trace) == old(Stack(trace)) && StepsFollow(old(trace), trace, Exported(spec, value))
      ensures StepsKept(old(trace), trace, Pop(Stack(trace)))
    {
      LoadingIsStack(w, trace);
      EndedIsTop(w, trace, spec, Exported(spec, value));
      TopIsNotBelow(Stack(trace));
      cache := cache[spec := cache[spec].(exports := value)];
      Log(w, Exported(spec, value));
    }

    /** Records an event once the cache has been brought in line with it. */
    method Log(w: World, e: Event)
      requires Finite(w) && Legal(w, trace) && Follows(w, trace, e) && cache == CacheAfter(Replay(trace), e)
      modifies this`trace
      ensures Valid(w) && trace == old(trace) + [e]
      ensures Stack(trace) == StackAfter(old(Stack(trace)), e)
      ensures StepsFollow(old(trace), trace, e)
    {
      LegalSnoc(w, trace, e);
      Snoc(trace, e);
      trace := trace + [e];
    }

    /** Running `fn(module.exports, require, module, ...)`: the body acts until it returns or throws. */
    method Evaluate(w: World, spec: Spec) returns (thrown: Option<Error>)
      requires Valid(w) && trace != [] && trace[|trace| - 1] == Began(spec) && w.read(spec) == Ok(Script)
      requires Top(trace) == Some(spec)
      modifies this
      ensures Valid(w) && UserTurn(w, trace) && old(trace) <= trace && Stack(trace) == old(Stack(trace))
      ensures w.act(spec, trace) == if thrown.None? then Finish else Throw(thrown.value)
      ensures StepsKept(old(trace), trace, Pop(Stack(trace)))
      decreases Room(w, trace), 0, 2
    {
      while true
        invariant Valid(w) && UserTurn(w, trace) && old(trace) <= trace && Stack(trace) == old(Stack(trace))
        invariant StepsKept(old(trace), trace, Pop(Stack(trace)))
        decreases w.patience(spec) - Steps(spec, trace)
      {
        match w.act(spec, trace) {
          case Finish => return None;
          case Throw(e) => return Some(e);
          case SetExports(v) => Export(w, spec, v);
          case Require(parent, request) => CallRequire(w, spec, parent, request);
        }
      }
    }

    /** A body calling a require function; whether it catches an error is the body's next action. */
    method CallRequire(w: World, spec: Spec, parent: Option<Spec>, request: string)
      requires Valid(w) && UserTurn(w, trace) && Top(trace) == Some(spec)
      requires w.act(spec, trace) == Require(parent, request)
      modifies this
      ensures Valid(w) && UserTurn(w, trace) && old(trace) <= trace && Stack(trace) == old(Stack(trace))
      ensures StepsKept(old(trace), trace, Pop(Stack(trace))) && Steps(spec, trace) == old(Steps(spec, trace)) + 1
      decreases Room(w, trace), 0, 1
    {
      LoadingIsStack(w, trace);
      TopIsNotBelow(Stack(trace));
      Log(w, Called(Some(spec), parent, request));
      var _ := LoadModule(w, parent, request);
    }
  
    /** `require` called by the host: it returns, whatever the graph and whatever bodies throw, and leaves
        nothing half loaded behind. */
    method HostRequire(w: World, parent: Option<Spec>, request: string) returns (r: Outcome)
      requires Valid(w) && HostTurn(w, trace)
      modifies this
      ensures Valid(w) && HostTurn(w, trace) && Loading(cache) == {}
      ensures old(trace) + [Called(None, parent, request)] < trace && trace[|trace| - 1] == Answered(r)
    {
      Log(w, Called(None, parent, request));
      r := LoadModule(w, parent, request);
      LoadingIsStack(w, trace);
    }
  }
}
