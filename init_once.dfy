/** A generated module initializer: a process-wide guard plus an ordered,
    short-circuiting walk over the initializers of the module's imports.

    The guard is checked first; if it is already set the call succeeds at once.
    Otherwise the guard is set, unconditionally and before any import is
    initialized, and the imports are initialized one after the other in their
    declared order. The first import that fails stops the walk and its error is
    handed back unchanged; if none fails the call succeeds with a unit value.

    The initializers of the imports are foreign code: each is modelled by an
    oracle, a function from the import to the outcome its initializer reports.
 */
module InitOnce {

  /** The outcome of an IO action: a value, or the error it raised. */
  datatype IoResult<+T, +E> = Ok(value: T) | Error(err: E)

  /** What an initializer does that an observer can see: setting the guard, or
      calling the initializer of one import, together with the value the guard
      had at that moment (what a re-entrant call from that import would see). */
  datatype Event<+M> = SetGuard | Invoke(dep: M, guard: bool)

  /** The outcome of the walk over the imports, and the imports whose
      initializers it called, in call order. */
  datatype WalkResult<M, E> = WalkResult(result: IoResult<(), E>, invoked: seq<M>)

  /** One call of the initializer: the guard afterwards, the result returned,
      and the events of the call in order. */
  datatype Step<M, E> = Step(guard: bool, result: IoResult<(), E>, events: seq<Event<M>>)

  /** A run of several calls of the initializer: the guard afterwards, the
      result of every call, and all events of all calls in order. */
  datatype Session<M, E> = Session(guard: bool, results: seq<IoResult<(), E>>, events: seq<Event<M>>)

  /** No import is listed twice. */
  predicate NoDuplicates<M(==)>(s: seq<M>) {
    forall i, j :: 0 <= i < j < |s| ==> s[i] != s[j]
  }

  /** The events of calling the initializers of `ms`, in that order, with the
      guard set. */
  function Invocations<M>(ms: seq<M>): (es: seq<Event<M>>)
    ensures |es| == |ms|
    ensures forall i :: 0 <= i < |ms| ==> es[i] == Invoke(ms[i], true)
  {
    seq(|ms|, i requires 0 <= i < |ms| => Invoke(ms[i], true))
  }

  /** Every import in `log` was called while the guard was set. */
  predicate CalledUnderGuard<M>(log: seq<Event<M>>) {
    forall k :: 0 <= k < |log| && log[k].Invoke? ==> log[k].guard
  }

  /** The imports whose initializers were called in `log`, in call order. */
  function Invoked<M>(log: seq<Event<M>>): (ms: seq<M>)
  {
    if log == [] then []
    else
      var rest := Invoked(log[1..]);
      match log[0]
      case SetGuard => rest
      case Invoke(m, _) => [m] + rest
  }

  lemma {:induction false} InvokedAppend<M>(a: seq<Event<M>>, b: seq<Event<M>>)
    ensures Invoked(a + b) == Invoked(a) + Invoked(b)
    decreases |a|
  {
    if a != [] {
      assert (a + b)[0] == a[0] && (a + b)[1..] == a[1..] + b;
      InvokedAppend(a[1..], b);
      match a[0]
      case SetGuard =>
      case Invoke(m, _) =>
        assert Invoked(a + b) == [m] + (Invoked(a[1..]) + Invoked(b));
    } else {
      assert a + b == b;
    }
  }

  lemma {:induction false} InvokedInvocations<M>(ms: seq<M>)
    ensures Invoked(Invocations(ms)) == ms
    decreases |ms|
  {
    if ms != [] {
      assert Invocations(ms)[1..] == Invocations(ms[1..]);
      InvokedInvocations(ms[1..]);
    }
  }

  /** The walk over `deps` from position `i` on, the imports before `i` having
      all been initialized successfully. An import whose initializer fails ends
      the walk with that error; reaching the end of the list ends it with a
      unit success. `invoked` counts the imports before `i` too. */
  function WalkFrom<M, P, E>(deps: seq<M>, oracle: M -> IoResult<P, E>, i: nat): (w: WalkResult<M, E>)
    requires i <= |deps|
    ensures i <= |w.invoked| <= |deps|
    ensures w.invoked == deps[..|w.invoked|]
    decreases |deps| - i
  {
    if i == |deps| then WalkResult(Ok(()), deps)
    else
      match oracle(deps[i])
      case Error(e) => WalkResult(Error(e), deps[..i + 1])
      case Ok(_) => WalkFrom(deps, oracle, i + 1)
  }

  /** The whole walk over the imports, in declared order. */
  function Walk<M, P, E>(deps: seq<M>, oracle: M -> IoResult<P, E>): (w: WalkResult<M, E>)
    ensures w.invoked <= deps
  {
    WalkFrom(deps, oracle, 0)
  }

  lemma {:induction false} WalkFromStopsAtFirstError<M, P, E>(deps: seq<M>, oracle: M -> IoResult<P, E>, i: nat, k: nat)
    requires i <= k < |deps|
    requires forall j :: i <= j < k ==> oracle(deps[j]).Ok?
    requires oracle(deps[k]).Error?
    ensures WalkFrom(deps, oracle, i) == WalkResult(Error(oracle(deps[k]).err), deps[..k + 1])
    decreases k - i
  {
    if i < k {
      WalkFromStopsAtFirstError(deps, oracle, i + 1, k);
    }
  }

  /** Short-circuit: when the k-th import is the first to fail, the walk
      returns its error unchanged and has called exactly the first k + 1
      initializers, in order. */
  lemma WalkStopsAtFirstError<M, P, E>(deps: seq<M>, oracle: M -> IoResult<P, E>, k: nat)
    requires k < |deps|
    requires forall j :: 0 <= j < k ==> oracle(deps[j]).Ok?
    requires oracle(deps[k]).Error?
    ensures Walk(deps, oracle).result == Error(oracle(deps[k]).err)
    ensures Walk(deps, oracle).invoked == deps[..k + 1]
  {
    WalkFromStopsAtFirstError(deps, oracle, 0, k);
  }

  lemma {:induction false} WalkFromAllOk<M, P, E>(deps: seq<M>, oracle: M -> IoResult<P, E>, i: nat)
    requires i <= |deps|
    requires forall j :: i <= j < |deps| ==> oracle(deps[j]).Ok?
    ensures WalkFrom(deps, oracle, i) == WalkResult(Ok(()), deps)
    decreases |deps| - i
  {
    if i < |deps| {
      WalkFromAllOk(deps, oracle, i + 1);
    }
  }

  /** When every import initializes successfully, the walk succeeds with a
      unit value and has called every initializer once, in declared order. */
  lemma WalkAllOk<M, P, E>(deps: seq<M>, oracle: M -> IoResult<P, E>)
    requires forall j :: 0 <= j < |deps| ==> oracle(deps[j]).Ok?
    ensures Walk(deps, oracle) == WalkResult(Ok(()), deps)
  {
    WalkFromAllOk(deps, oracle, 0);
  }

  lemma {:induction false} WalkFromOutcome<M, P, E>(deps: seq<M>, oracle: M -> IoResult<P, E>, i: nat)
    requires i <= |deps|
    ensures var w := WalkFrom(deps, oracle, i);
      w.result.Error? ==>
        i < |w.invoked| &&
        oracle(deps[|w.invoked| - 1]) == Error(w.result.err) &&
        forall j :: i <= j < |w.invoked| - 1 ==> oracle(deps[j]).Ok?
    ensures var w := WalkFrom(deps, oracle, i);
      w.result.Ok? ==>
        w.invoked == deps &&
        forall j :: i <= j < |deps| ==> oracle(deps[j]).Ok?
    decreases |deps| - i
  {
    if i < |deps| && oracle(deps[i]).Ok? {
      WalkFromOutcome(deps, oracle, i + 1);
    }
  }

  /** The walk never makes an error of its own: an error it returns is the
      error of the last import it called, every earlier import succeeded, and
      it succeeds exactly when every import does. */
  lemma WalkPassesErrorThrough<M, P, E>(deps: seq<M>, oracle: M -> IoResult<P, E>)
    ensures var w := Walk(deps, oracle);
      w.result.Error? ==>
        w.invoked != [] &&
        oracle(w.invoked[|w.invoked| - 1]) == Error(w.result.err) &&
        forall j :: 0 <= j < |w.invoked| - 1 ==> oracle(w.invoked[j]).Ok?
    ensures Walk(deps, oracle).result.Ok? <==> forall j :: 0 <= j < |deps| ==> oracle(deps[j]).Ok?
  {
    WalkFromOutcome(deps, oracle, 0);
    var w := Walk(deps, oracle);
    if !w.result.Ok? {
      // the walk stopped before the end, at an import that failed
      assert oracle(deps[|w.invoked| - 1]).Error?;
    }
  }

  /** One call of the initializer, starting from guard `initialized`. */
  function Initialize<M(==), P, E>(initialized: bool, deps: seq<M>, oracle: M -> IoResult<P, E>): (s: Step<M, E>)
    // the guard is set by every call and never cleared
    ensures s.guard
    // when anything happens, the first thing is setting the guard, and it is set once
    ensures s.events == [] || (s.events[0] == SetGuard && SetGuard !in s.events[1..])
    // the imports called are a prefix of the declared list
    ensures Invoked(s.events) <= deps
    // every import is called after the guard has been set
    ensures CalledUnderGuard(s.events)
    // a call that finds the guard set reports success and calls nothing
    ensures initialized ==> s.result.Ok? && Invoked(s.events) == []
    // a first call calls at least one import unless there are none
    ensures !initialized ==> (Invoked(s.events) == [] <==> deps == [])
  {
    if initialized then Step(true, Ok(()), [])
    else
      var w := Walk(deps, oracle);
      InvokedAppend([SetGuard], Invocations(w.invoked));
      InvokedInvocations(w.invoked);
      assert ([SetGuard] + Invocations(w.invoked))[1..] == Invocations(w.invoked);
      Step(true, w.result, [SetGuard] + Invocations(w.invoked))
  }

  /** A first call whose k-th import is the first to fail returns that error
      unchanged, after setting the guard and calling exactly the first k + 1
      imports in order. */
  lemma InitializeStopsAtFirstError<M, P, E>(deps: seq<M>, oracle: M -> IoResult<P, E>, k: nat)
    requires k < |deps|
    requires forall j :: 0 <= j < k ==> oracle(deps[j]).Ok?
    requires oracle(deps[k]).Error?
    ensures Initialize(false, deps, oracle).result == Error(oracle(deps[k]).err)
    ensures Initialize(false, deps, oracle).events == [SetGuard] + Invocations(deps[..k + 1])
    ensures Invoked(Initialize(false, deps, oracle).events) == deps[..k + 1]
  {
    WalkStopsAtFirstError(deps, oracle, k);
    InvokedAppend([SetGuard], Invocations(deps[..k + 1]));
    InvokedInvocations(deps[..k + 1]);
  }

  /** A first call in which every import succeeds returns a unit success,
      after setting the guard and calling every import once, in order. */
  lemma InitializeAllOk<M, P, E>(deps: seq<M>, oracle: M -> IoResult<P, E>)
    requires forall j :: 0 <= j < |deps| ==> oracle(deps[j]).Ok?
    ensures Initialize(false, deps, oracle).result == Ok(())
    ensures Initialize(false, deps, oracle).events == [SetGuard] + Invocations(deps)
    ensures Invoked(Initialize(false, deps, oracle).events) == deps
  {
    WalkAllOk(deps, oracle);
    InvokedAppend([SetGuard], Invocations(deps));
    InvokedInvocations(deps);
  }

  /** Why the guard is set first: a call made while some import of a call is
      being initialized (from that import, say) finds the guard set, so it
      reports success and calls nothing, instead of starting the walk again. */
  lemma ReentrantCallDoesNothing<M, P, Q, E>(initialized: bool, deps: seq<M>, oracle: M -> IoResult<P, E>,
                                                 inner: M -> IoResult<Q, E>, k: nat)
    requires k < |Initialize(initialized, deps, oracle).events|
    requires Initialize(initialized, deps, oracle).events[k].Invoke?
    ensures Initialize(Initialize(initialized, deps, oracle).events[k].guard, deps, inner) == Step(true, Ok(()), [])
  {
  }

  /** The calls of the initializer made with `oracles`, one after the other,
      starting from guard `initialized`. */
  function Run<M(==), P, E>(initialized: bool, deps: seq<M>, oracles: seq<M -> IoResult<P, E>>): (r: Session<M, E>)
    ensures |r.results| == |oracles|
    // once set, the guard stays set; any call sets it
    ensures r.guard == (initialized || oracles != [])
    decreases |oracles|
  {
    if oracles == [] then Session(initialized, [], [])
    else
      var s := Initialize(initialized, deps, oracles[0]);
      var rest := Run(s.guard, deps, oracles[1..]);
      Session(rest.guard, [s.result] + rest.results, s.events + rest.events)
  }

  /** Once the guard is set, every further call reports success and calls no
      import: a failed first call is never retried. */
  lemma {:induction false} RunWhenInitialized<M, P, E>(deps: seq<M>, oracles: seq<M -> IoResult<P, E>>)
    ensures Run(true, deps, oracles).events == []
    ensures forall i :: 0 <= i < |oracles| ==> Run(true, deps, oracles).results[i] == Ok(())
    decreases |oracles|
  {
    if oracles != [] {
      RunWhenInitialized(deps, oracles[1..]);
    }
  }

  /** Over any run of calls, only the first does any work: the run's events are
      those of its first call, and every later call reports success. */
  lemma RunOnlyFirstCallWorks<M, P, E>(initialized: bool, deps: seq<M>, oracles: seq<M -> IoResult<P, E>>)
    requires oracles != []
    ensures Run(initialized, deps, oracles).events == Initialize(initialized, deps, oracles[0]).events
    ensures Run(initialized, deps, oracles).results[0] == Initialize(initialized, deps, oracles[0]).result
    ensures forall i :: 1 <= i < |oracles| ==> Run(initialized, deps, oracles).results[i] == Ok(())
  {
    RunWhenInitialized(deps, oracles[1..]);
    var r := Run(initialized, deps, oracles);
    var rest := Run(true, deps, oracles[1..]);
    assert r.results == [Initialize(initialized, deps, oracles[0]).result] + rest.results;
    assert r.events == Initialize(initialized, deps, oracles[0]).events + rest.events;
  }

  lemma {:induction false} DistinctPrefixOnce<M>(p: seq<M>, deps: seq<M>)
    requires NoDuplicates(deps)
    requires p <= deps
    ensures forall m :: multiset(p)[m] <= 1
    decreases |p|
  {
    if p != [] {
      assert NoDuplicates(deps[1..]);
      assert p[1..] <= deps[1..];
      DistinctPrefixOnce(p[1..], deps[1..]);
      assert p == [p[0]] + p[1..];
      assert p[0] !in p[1..] by {
        forall j | 0 <= j < |p[1..]| ensures p[1..][j] != p[0] {
          assert p[1..][j] == deps[j + 1];
        }
      }
      assert multiset(p) == multiset{p[0]} + multiset(p[1..]);
    }
  }

  /** Over any run of calls, the imports called are a prefix of the declared
      list, each called while the guard was set. */
  lemma RunInvokesPrefix<M, P, E>(initialized: bool, deps: seq<M>, oracles: seq<M -> IoResult<P, E>>)
    ensures Invoked(Run(initialized, deps, oracles).events) <= deps
    ensures CalledUnderGuard(Run(initialized, deps, oracles).events)
  {
    if oracles != [] {
      RunOnlyFirstCallWorks(initialized, deps, oracles);
    }
  }

  /** At most once: with no import listed twice, over any run of calls every
      initializer is called at most once in the life of the process. */
  lemma RunAtMostOnce<M, P, E>(initialized: bool, deps: seq<M>, oracles: seq<M -> IoResult<P, E>>)
    requires NoDuplicates(deps)
    ensures forall m :: multiset(Invoked(Run(initialized, deps, oracles).events))[m] <= 1
  {
    RunInvokesPrefix(initialized, deps, oracles);
    DistinctPrefixOnce(Invoked(Run(initialized, deps, oracles).events), deps);
  }

  /** The initializer's process-wide state: the guard, and a record of what
      all calls so far have done. */
  class Initializer<M(==), E> {
    /** The imports, in the order their initializers are called. */
    const deps: seq<M>
    /** The guard: false until the first call, true from then on. */
    var initialized: bool
    /** Every event of every call so far, in order. */
    ghost var log: seq<Event<M>>

    /** Before the first call nothing has happened; after it the guard was set
        once, before anything else, every import was called with the guard
        field already set, and the imports called so far are a prefix of the
        declared list. */
    ghost predicate Valid()
      reads this
    {
      (!initialized ==> log == []) &&
      (initialized ==> log != [] && log[0] == SetGuard && SetGuard !in log[1..]) &&
      CalledUnderGuard(log) &&
      Invoked(log) <= deps
    }

    constructor (deps: seq<M>)
      ensures Valid()
      ensures this.deps == deps && !initialized && log == []
    {
      this.deps := deps;
      initialized := false;
      log := [];
    }

    /** Checks and sets the guard, then initializes the imports in order,
        stopping at the first that fails. */
    method InitializeAll<P>(oracle: M -> IoResult<P, E>) returns (r: IoResult<(), E>)
      requires Valid()
      modifies this
      ensures Valid() && initialized
      ensures var s := Initialize(old(initialized), deps, oracle);
        r == s.result && log == old(log) + s.events
    {
      if initialized {
        return Ok(());
      }
      initialized := true;
      log := log + [SetGuard];
      var i := 0;
      while i < |deps|
        invariant 0 <= i <= |deps|
        invariant initialized
        invariant Walk(deps, oracle) == WalkFrom(deps, oracle, i)
        invariant log == old(log) + [SetGuard] + Invocations(deps[..i])
      {
        // the event records the guard field as the import's initializer sees it
        log := log + [Invoke(deps[i], initialized)];
        var res := oracle(deps[i]);
        assert Invocations(deps[..i]) + [Invoke(deps[i], true)] == Invocations(deps[..i + 1]);
        if res.Error? {
          assert Walk(deps, oracle) == WalkResult(Error(res.err), deps[..i + 1]);
          assert log == Initialize(false, deps, oracle).events;
          return Error(res.err);
        }
        i := i + 1;
      }
      assert deps[..i] == deps;
      assert Walk(deps, oracle) == WalkResult(Ok(()), deps);
      assert log == Initialize(false, deps, oracle).events;
      return Ok(());
    }
  }
}
