# Module initializer of Lean's `Std`

A Dafny model of `initialize_Std`, the initializer the Lean compiler emits for
the module `Std`. The initializer keeps a process-wide guard, `_G_initialized`,
which starts false. A call that finds the guard set reports success at once. A
first call sets the guard, unconditionally and before anything else. It then
initializes the imports `Std.Data`, `Std.Sat` and `Std.Tactic`, in that order.
It stops at the first import whose initializer reports an error and returns
that error unchanged. When all three succeed it returns a unit success.
So a failed first call is never retried: a second call finds the guard set and
reports success.

The model has two modules.

- `InitOnce` (`init_once.dfy`) models the pattern for any fixed list of
  imports. The pure layer has `Walk`, the ordered short-circuiting walk, and
  `Initialize`, one call from a given guard value. `Run` gives the effect of a
  sequence of calls. Each call's observable behaviour is a list of events:
  `SetGuard`, or `Invoke(m, guard)` for a call of the initializer of import
  `m`. Here `guard` is the value the guard had at that moment, which is what a
  re-entrant call from that import would see. The class
  `Initializer` is the imperative form. It holds the guard as a `bool` field and
  records every event in a ghost `log`. Each `Invoke` event records the
  guard field itself. Its method `InitializeAll` walks the
  imports in a loop with early returns, and is proved equal to `Initialize`.
  Its invariant `Valid` says three things. The guard was set once, before
  anything else. Every import was called while the guard field was already
  true. The imports called so far form a prefix of the declared list.
- `Std` (`std.dfy`) is the concrete instance with the import list
  `[Data, Sat, Tactic]`.

The initializers of the imports are foreign code. Each is modelled as an
oracle: a function from the import to the `IoResult` its initializer returns.

## Model

| member | source | states |
|---|---|---|
| `InitOnce.WalkFrom` | stage0/stdlib/Std.c:24-32 | the imports called by the rest of the walk, together with those already called, always form a prefix of the declared list |
| `InitOnce.Walk` | stage0/stdlib/Std.c:24-32 | the imports the walk calls are a prefix of the declared list, so they are called in declared order |
| `InitOnce.WalkStopsAtFirstError` | stage0/stdlib/Std.c:24-31 | if the k-th import is the first to fail, the walk returns that exact error and calls exactly the first k+1 imports; later imports are not called |
| `InitOnce.WalkAllOk` | stage0/stdlib/Std.c:24-33 | if every import succeeds, the walk returns a unit success (not any import's payload) and calls every import once, in order |
| `InitOnce.WalkPassesErrorThrough` | stage0/stdlib/Std.c:25-33 | an error the walk returns is the last called import's own error, and every import before it succeeded; the walk succeeds exactly when every import succeeds |
| `InitOnce.Initialize` | stage0/stdlib/Std.c:19-34 | after any call the guard is set; a call that does anything sets the guard first and only once; every import is called with the guard already set; the imports it calls are a prefix of the list; a call that finds the guard set succeeds and calls nothing; a first call calls some import unless the list is empty |
| `InitOnce.InitializeStopsAtFirstError` | stage0/stdlib/Std.c:23-31 | a first call whose k-th import is the first to fail returns that exact error; its events are setting the guard, then calling exactly the first k+1 imports in order |
| `InitOnce.InitializeAllOk` | stage0/stdlib/Std.c:23-33 | a first call in which every import succeeds returns a unit success; its events are setting the guard, then calling every import once, in order |
| `InitOnce.ReentrantCallDoesNothing` | stage0/stdlib/Std.c:22-24 | a call made while any import of a call is being initialized finds the guard set, so it succeeds and calls nothing |
| `InitOnce.Run` | stage0/stdlib/Std.c:19-23 | over a sequence of calls, the guard afterwards is set exactly when it was set before or some call was made, so it is never reset |
| `InitOnce.RunWhenInitialized` | stage0/stdlib/Std.c:22 | once the guard is set, every further call succeeds and calls no import |
| `InitOnce.RunOnlyFirstCallWorks` | stage0/stdlib/Std.c:22-23 | in any sequence of calls only the first does work; every later call succeeds without calling an import, even after a failed first call |
| `InitOnce.RunInvokesPrefix` | stage0/stdlib/Std.c:19-32 | for any list, across any sequence of calls the imports called form a prefix of the list, each called with the guard set |
| `InitOnce.RunAtMostOnce` | stage0/stdlib/Std.c:19-23 | with no import listed twice, across any sequence of calls each import is called at most once |
| `InitOnce.Initializer.constructor` | stage0/stdlib/Std.c:19 | the guard starts false and nothing has happened yet |
| `InitOnce.Initializer.InitializeAll` | stage0/stdlib/Std.c:20-34 | the loop's result and events equal those of `Initialize` from the old guard; the guard field is true when each import's initializer is called and afterwards; the invariant `Valid` is kept (guard set first, calls made under the guard, called imports a prefix of the list) |
| `Std.StdImportsDistinct` | stage0/stdlib/Std.c:16-18 | the three imports of `Std` are distinct |
| `Std.StdFirstCall` | stage0/stdlib/Std.c:20-34 | first call of `initialize_Std`, case by case: an error from `Std.Data`, `Std.Sat` or `Std.Tactic` is returned unchanged after calling exactly that import and the ones before it; if all succeed the result is a unit success after calling all three in order |
| `Std.StdAtMostOnce` | stage0/stdlib/Std.c:19-33 | across any sequence of calls each of `Std.Data`, `Std.Sat`, `Std.Tactic` is initialized at most once |
| `Std.StdNoRetryAfterSatFailure` | stage0/stdlib/Std.c:22-28 | when `Std.Sat` fails with "sat-init-error", the first call returns that error after setting the guard and calling only `Std.Data` and `Std.Sat`; a second call returns success and calls nothing |

## Left out

- Reference counting and boxing of the runtime's objects (`lean_dec_ref`, `lean_box`, `lean_io_result_mk_ok`, `lean_io_mk_world`): results are the value type `IoResult`, and dropping a successful import's result is not modelled.
- The `builtin` flag: it is passed unchanged to each import's initializer and plays no part in this function's own logic.
- The initializers `initialize_Std_Data`, `initialize_Std_Sat` and `initialize_Std_Tactic`: they are foreign code, modelled only as an oracle giving each import's outcome. The oracle is a fixed function for one call. A reentrant call made from inside an import's initializer is not modelled.
- Concurrency: the guard is an unsynchronised global, and the model assumes calls happen one at a time.
- Compiler pragmas and the `extern "C"` wrappers: these are build plumbing.
