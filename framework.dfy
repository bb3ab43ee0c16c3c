/**
 * The `WebReconX` object: its configuration, the `results` dictionary and
 * timestamps that `run()` updates in place, and the report handoff. The
 * probes, the clock and the report writer are outside the model: `Run`
 * receives the clock readings and an oracle saying how each attempt ends,
 * and records each `save` call in a ghost trace.
 */
module Framework {
  import opened Wrappers
  import opened TargetNormalizer
  import opened ModuleRegistry
  import opened ScanSession

  /**
   * How `run()` ends: it returns `results`; `sys.exit(0)` after a
   * `KeyboardInterrupt`; or a `ValueError` from `_get_domain()` propagates.
   */
  datatype RunEnd = Finished(results: map<string, Entry>) | Exited | DomainError

  class WebReconX {
    /** `WebReconX.MODULES`, the registry the session consults. */
    const registry: seq<ModuleInfo>
    const target: string
    const selectedModules: seq<string>
    const output: Option<string>
    const timeout: int
    const threads: int
    const verbose: bool

    /** The keys of `results` in insertion order, as a Python dict keeps them. */
    var order: seq<string>
    var results: map<string, Entry>
    var startTime: Option<int>
    var endTime: Option<int>

    /** Every `ReportGenerator(...).save(path)` call made so far. */
    ghost var saves: seq<SaveCall>

    ghost predicate Valid()
      reads this
    {
      TableInvariant(registry, order, results)
    }

    /** `__init__`: normalise the target and fall back to every module. */
    constructor (rawTarget: string, modules: Option<seq<string>>, output: Option<string>,
                 timeout: int, threads: int, verbose: bool)
      ensures Valid()
      ensures registry == Modules
      ensures target == CleanTarget(rawTarget)
      ensures selectedModules == DefaultSelection(modules)
      ensures this.output == output && this.timeout == timeout
      ensures this.threads == threads && this.verbose == verbose
      ensures order == [] && results == map[]
      ensures startTime == None && endTime == None && saves == []
    {
      registry := Modules;
      target := CleanTarget(rawTarget);
      selectedModules := DefaultSelection(modules);
      this.output := output;
      this.timeout := timeout;
      this.threads := threads;
      this.verbose := verbose;
      order := [];
      results := map[];
      startTime := None;
      endTime := None;
      saves := [];
      EmptyTableInvariant(Modules);
    }

    /** The session state `run()` works on, as a value. */
    ghost function Current(): Progress
      reads this
    {
      Progress(order, results, false)
    }

    /** `self.results[key] = e`. */
    method Record(key: string, e: Entry)
      modifies this`order, this`results
      ensures Current() == Put(old(Current()), key, e)
    {
      if key !in order {
        order := order + [key];
      }
      results := results[key := e];
    }

    /**
     * One pass of the `for mod_key in self.selected_modules` loop body: an
     * unknown key is skipped with a warning; a known key's probe is built,
     * scanned and displayed inside the `try`, with an `Exception` turned
     * into a failed entry. Reports whether a `KeyboardInterrupt` arrived.
     */
    method RunModule(key: string, attempt: Attempt) returns (interrupted: bool)
      requires Valid()
      modifies this`order, this`results
      ensures Valid()
      ensures Progress(order, results, interrupted) == Step(registry, old(Current()), key, attempt)
    {
      StepKeepsInvariant(registry, Current(), key, attempt);
      var found := Find(registry, key);
      if found.None? {
        // "Unknown module" warning; the key gets no entry.
        return false;
      }
      var info := found.value;
      interrupted := false;
      match attempt
      case Returned(x) =>
        Record(key, CompletedEntry(info, x));
      case ScanRaised(m) =>
        Record(key, FailedEntry(info, m));
      case DisplayRaised(x, m) =>
        Record(key, CompletedEntry(info, x));
        Record(key, FailedEntry(info, m));
      case InterruptedInScan =>
        interrupted := true;
      case InterruptedInDisplay(x) =>
        Record(key, CompletedEntry(info, x));
        interrupted := true;
    }

    /**
     * The `for mod_key in self.selected_modules` loop of `run()`: leaves
     * exactly the state `Process` describes, and reports whether a
     * `KeyboardInterrupt` ended it early.
     */
    method RunModules(oracle: nat -> Attempt) returns (interrupted: bool)
      requires Valid()
      modifies this`order, this`results
      ensures Valid()
      ensures var p := Process(Plan(registry, selectedModules, oracle), old(Current()), |selectedModules|);
              order == p.order && results == p.results && (interrupted <==> p.cancelled)
    {
      ghost var plan := Plan(registry, selectedModules, oracle);
      ghost var init := Current();
      for i := 0 to |selectedModules|
        invariant Valid()
        invariant Current() == Process(plan, init, i)
      {
        ProcessUnfold(plan, init, i);
        interrupted := RunModule(selectedModules[i], oracle(i));
        assert Progress(order, results, interrupted) == Process(plan, init, i + 1);
        if interrupted {
          CancelSticks(plan, init, i + 1, |selectedModules|);
          return;
        }
      }
      interrupted := false;
    }

    /**
     * `run()`. `startClock` and `endClock` are the two `datetime.now()`
     * readings; `domainRaises` says whether `_get_domain()` raises (urllib
     * rejects some network locations with `ValueError`); `oracle(i)` is how
     * the attempt for the `i`-th selected key ends.
     *
     * A `ValueError` from `_get_domain()` leaves `run()` after `start_time`
     * is set and before any module runs. Otherwise the loop leaves `results`
     * as `Process` describes it. A `KeyboardInterrupt` ends the session
     * through `sys.exit(0)`: then `end_time` is not set and no report is
     * saved. Otherwise `run()` returns `results`, having saved the report
     * exactly once when `output` is a non-empty path, and not at all
     * otherwise.
     */
    method Run(startClock: int, endClock: int, domainRaises: bool, oracle: nat -> Attempt) returns (r: RunEnd)
      requires Valid()
      modifies this`order, this`results, this`startTime, this`endTime, this`saves
      ensures Valid()
      ensures startTime == Some(startClock)
      ensures r.DomainError? <==> domainRaises
      ensures domainRaises ==> order == old(order) && results == old(results)
      ensures !domainRaises ==>
                var p := Process(Plan(registry, selectedModules, oracle), old(Current()), |selectedModules|);
                order == p.order && results == p.results && (r.Exited? <==> p.cancelled)
      ensures !r.Finished? ==> endTime == old(endTime) && saves == old(saves)
      ensures r.Finished? ==> r.results == results && endTime == Some(endClock)
      ensures r.Finished? && !Truthy(output) ==> saves == old(saves)
      ensures r.Finished? && Truthy(output) ==>
                saves == old(saves) + [SaveCall(output.value, Report(target, order, results, endClock - startClock))]
    {
      startTime := Some(startClock);
      if domainRaises {
        return DomainError;
      }
      var interrupted := RunModules(oracle);
      if interrupted {
        return Exited;
      }
      endTime := Some(endClock);
      var duration := endClock - startClock;
      if Truthy(output) {
        saves := saves + [SaveCall(output.value, Report(target, order, results, duration))];
      }
      r := Finished(results);
    }
  }
}
