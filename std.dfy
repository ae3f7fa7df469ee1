/** The initializer of the Lean module `Std`, whose imports are `Std.Data`,
    `Std.Sat` and `Std.Tactic`, initialized in that order. */
module Std {
  import opened InitOnce

  /** The imports of `Std`. */
  datatype StdImport = Data | Sat | Tactic

  /** The imports of `Std` in the order their initializers are called. */
  const StdImports: seq<StdImport> := [Data, Sat, Tactic]

  lemma StdImportsDistinct()
    ensures NoDuplicates(StdImports)
  {
  }

  /** A first call of the initializer of `Std`, case by case: `Std.Data` is
      initialized first and its error returned at once; otherwise `Std.Sat`,
      then `Std.Tactic`; when all three succeed the call succeeds with a unit
      value. The guard is set before anything else in every case. */
  lemma StdFirstCall<E>(oracle: StdImport -> IoResult<(), E>)
    ensures var s := Initialize(false, StdImports, oracle);
      oracle(Data).Error? ==>
        s == Step(true, Error(oracle(Data).err), [SetGuard, Invoke(Data, true)])
    ensures var s := Initialize(false, StdImports, oracle);
      oracle(Data).Ok? && oracle(Sat).Error? ==>
        s == Step(true, Error(oracle(Sat).err), [SetGuard, Invoke(Data, true), Invoke(Sat, true)])
    ensures var s := Initialize(false, StdImports, oracle);
      oracle(Data).Ok? && oracle(Sat).Ok? && oracle(Tactic).Error? ==>
        s == Step(true, Error(oracle(Tactic).err), [SetGuard, Invoke(Data, true), Invoke(Sat, true), Invoke(Tactic, true)])
    ensures var s := Initialize(false, StdImports, oracle);
      oracle(Data).Ok? && oracle(Sat).Ok? && oracle(Tactic).Ok? ==>
        s == Step(true, Ok(()), [SetGuard, Invoke(Data, true), Invoke(Sat, true), Invoke(Tactic, true)])
  {
  }

  /** Whatever the imports report, on any sequence of calls each of
      `Std.Data`, `Std.Sat` and `Std.Tactic` is initialized at most once. */
  lemma StdAtMostOnce<E>(oracles: seq<StdImport -> IoResult<(), E>>, m: StdImport)
    ensures multiset(Invoked(Run(false, StdImports, oracles).events))[m] <= 1
  {
    StdImportsDistinct();
    RunAtMostOnce(false, StdImports, oracles);
  }

  /** Two calls of the initializer of `Std` in one process, where `Std.Sat`
      fails on the first: the first call returns that error unchanged after
      initializing `Std.Data` and `Std.Sat` only, and the second call reports
      success without initializing anything, so the failure is not retried. */
  method StdNoRetryAfterSatFailure()
    returns (first: IoResult<(), string>, second: IoResult<(), string>,
             ghost firstEvents: seq<Event<StdImport>>, ghost secondEvents: seq<Event<StdImport>>)
    ensures first == Error("sat-init-error")
    ensures firstEvents == [SetGuard, Invoke(Data, true), Invoke(Sat, true)]
    ensures second == Ok(())
    ensures secondEvents == []
  {
    var std := new Initializer<StdImport, string>(StdImports);
    var oracle := (m: StdImport) => if m == Sat then Error("sat-init-error") else Ok(());
    StdFirstCall(oracle);
    first := std.InitializeAll(oracle);
    firstEvents := std.log;
    second := std.InitializeAll(oracle);
    secondEvents := std.log[|firstEvents|..];
  }
}
