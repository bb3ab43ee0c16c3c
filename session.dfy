/**
 * The scan session of `WebReconX.run` as a specification on values: the
 * outcome of each probe attempt, one step of the module loop, the whole
 * loop over the selected keys, and the completed/failed counts. The class
 * in module `Framework` runs the loop on its own fields and is proved to
 * agree with `Process`; the lemmas here state what the loop guarantees.
 */
module ScanSession {
  import opened Wrappers
  import opened ModuleRegistry

  /** A probe's `scan()` result; its structure is opaque to the session. */
  datatype Payload = Payload(json: string)

  datatype Status = Completed | Failed

  /**
   * One `results[mod_key]` dictionary: the registry name, the status, and
   * the `data` key (completed) or the `error` key (failed).
   */
  datatype Entry = Entry(name: string, status: Status, data: Option<Payload>, error: Option<string>)

  /** A completed entry carries data and no error; a failed one the reverse. */
  predicate WellShaped(e: Entry)
  {
    match e.status
    case Completed => e.data.Some? && e.error.None?
    case Failed => e.data.None? && e.error.Some?
  }

  function CompletedEntry(info: ModuleInfo, data: Payload): (e: Entry)
    ensures WellShaped(e) && e.status == Completed && e.name == info.name
  {
    Entry(info.name, Completed, Some(data), None)
  }

  function FailedEntry(info: ModuleInfo, message: string): (e: Entry)
    ensures WellShaped(e) && e.status == Failed && e.name == info.name
  {
    Entry(info.name, Failed, None, Some(message))
  }

  /**
   * How one attempt at a known module ends, as the probe and the user
   * decide it: construction, `scan()` and `display()` all return; an
   * `Exception` from construction or `scan()`; `scan()` returns and
   * `display()` raises an `Exception`; a `KeyboardInterrupt` before
   * `scan()` returns; a `KeyboardInterrupt` inside `display()`.
   */
  datatype Attempt =
    | Returned(payload: Payload)
    | ScanRaised(message: string)
    | DisplayRaised(payload: Payload, message: string)
    | InterruptedInScan
    | InterruptedInDisplay(payload: Payload)

  predicate IsInterrupt(a: Attempt)
  {
    a.InterruptedInScan? || a.InterruptedInDisplay?
  }

  /**
   * The entry an attempt that is not interrupted leaves for its key:
   * completed exactly when every call returned normally.
   */
  function Outcome(info: ModuleInfo, a: Attempt): (e: Entry)
    requires !IsInterrupt(a)
    ensures WellShaped(e) && e.name == info.name
    ensures e.status == Completed <==> a.Returned?
  {
    match a
    case Returned(x) => CompletedEntry(info, x)
    case ScanRaised(m) => FailedEntry(info, m)
    case DisplayRaised(_, m) => FailedEntry(info, m)
  }

  /**
   * What a session runs: the registry table it consults, the selected keys
   * in the order given, and `oracle(i)`, how the attempt for `selected[i]`
   * ends.
   */
  datatype Plan = Plan(registry: seq<ModuleInfo>, selected: seq<string>, oracle: nat -> Attempt)

  /**
   * The session state the loop changes: the keys of `results` in insertion
   * order, the `results` dictionary, and whether a `KeyboardInterrupt`
   * ended the session.
   */
  datatype Progress = Progress(order: seq<string>, results: map<string, Entry>, cancelled: bool)

  predicate Distinct(s: seq<string>)
  {
    forall i, j :: 0 <= i < j < |s| ==> s[i] != s[j]
  }

  lemma DistinctSnoc(s: seq<string>, k: string)
    requires Distinct(s) && k !in s
    ensures Distinct(s + [k])
  {
    forall i, j | 0 <= i < j < |s| + 1 ensures (s + [k])[i] != (s + [k])[j] {
      if j == |s| {
        assert (s + [k])[i] == s[i];
      }
    }
  }

  /**
   * What always holds of `results`: `order` lists its keys once each, every
   * key is a registry key, and every entry is well shaped and carries its
   * module's registry name.
   */
  ghost predicate TableInvariant(registry: seq<ModuleInfo>, order: seq<string>, results: map<string, Entry>)
  {
    && Distinct(order)
    && (forall k :: k in results <==> k in order)
    && (forall k :: k in results ==>
          Knows(registry, k) && results[k].name == NameIn(registry, k) && WellShaped(results[k]))
  }

  /** An empty `results` dictionary satisfies the table invariant for any registry. */
  lemma EmptyTableInvariant(registry: seq<ModuleInfo>)
    ensures TableInvariant(registry, [], map[])
  {
  }

  /**
   * `results[key] = e` on a Python dictionary: the value is replaced, and
   * the key is appended to the insertion order only when it is new.
   */
  function Put(p: Progress, key: string, e: Entry): (q: Progress)
    ensures q.results == p.results[key := e] && q.cancelled == p.cancelled
    ensures key in p.order ==> q.order == p.order
    ensures key !in p.order ==> q.order == p.order + [key]
  {
    Progress(if key in p.order then p.order else p.order + [key], p.results[key := e], p.cancelled)
  }

  /**
   * The attempt at a known module `info` under `key`: an interrupt cancels
   * the session (keeping a completed entry already written before
   * `display()`); any other attempt leaves exactly its outcome under `key`.
   * Other keys and the insertion order so far are never disturbed.
   */
  function Attempted(info: ModuleInfo, p: Progress, key: string, a: Attempt): (q: Progress)
    ensures q.cancelled <==> p.cancelled || IsInterrupt(a)
    ensures !IsInterrupt(a) ==> q.results == p.results[key := Outcome(info, a)]
    ensures a.InterruptedInScan? ==> q.results == p.results
    ensures a.InterruptedInDisplay? ==> q.results == p.results[key := CompletedEntry(info, a.payload)]
    ensures q.results.Keys <= p.results.Keys + {key}
    ensures key in p.order || a.InterruptedInScan? ==> q.order == p.order
    ensures key !in p.order && !a.InterruptedInScan? ==> q.order == p.order + [key]
    ensures forall k :: k != key && k in p.results ==> k in q.results && q.results[k] == p.results[k]
  {
    match a
    case Returned(x) => Put(p, key, CompletedEntry(info, x))
    case ScanRaised(m) => Put(p, key, FailedEntry(info, m))
    case DisplayRaised(x, m) => Put(Put(p, key, CompletedEntry(info, x)), key, FailedEntry(info, m))
    case InterruptedInScan => p.(cancelled := true)
    case InterruptedInDisplay(x) => Put(p, key, CompletedEntry(info, x)).(cancelled := true)
  }

  /**
   * One iteration of the module loop for `key`: an unknown key changes
   * nothing; otherwise the session is cancelled exactly on an interrupt,
   * and an attempt that is not interrupted leaves its outcome under `key`.
   */
  function Step(registry: seq<ModuleInfo>, p: Progress, key: string, a: Attempt): (q: Progress)
    ensures !Knows(registry, key) ==> q == p
    ensures q.cancelled <==> p.cancelled || (Knows(registry, key) && IsInterrupt(a))
    ensures Knows(registry, key) && !IsInterrupt(a) ==>
              q.results == p.results[key := Outcome(Find(registry, key).value, a)]
    ensures q.results.Keys <= p.results.Keys + {key}
    ensures key in p.order ==> q.order == p.order
    ensures Knows(registry, key) && !IsInterrupt(a) && key !in p.order ==> q.order == p.order + [key]
  {
    match Find(registry, key)
    case None => p
    case Some(info) => Attempted(info, p, key, a)
  }

  /**
   * The state after the loop has handled `selected[..n]`, starting from
   * `init`; `oracle(i)` is how the attempt for `selected[i]` ends. Once
   * cancelled, nothing further happens.
   */
  function Process(plan: Plan, init: Progress, n: nat): Progress
    requires n <= |plan.selected|
  {
    if n == 0 then init
    else
      var p := Process(plan, init, n - 1);
      if p.cancelled then p else Step(plan.registry, p, plan.selected[n - 1], plan.oracle(n - 1))
  }

  /** The loop goes on from a session that is still running by one `Step`. */
  lemma ProcessUnfold(plan: Plan, init: Progress, i: nat)
    requires i < |plan.selected| && !Process(plan, init, i).cancelled
    ensures Process(plan, init, i + 1)
            == Step(plan.registry, Process(plan, init, i), plan.selected[i], plan.oracle(i))
  {
  }

  /** The keys among `keys` that the registry knows. */
  function KnownIn(registry: seq<ModuleInfo>, keys: seq<string>): set<string>
  {
    set k | k in keys && Knows(registry, k)
  }

  /** Writing a well-shaped entry under a known key keeps the table invariant. */
  lemma PutKeepsInvariant(registry: seq<ModuleInfo>, p: Progress, key: string, e: Entry)
    requires TableInvariant(registry, p.order, p.results)
    requires Knows(registry, key) && e.name == NameIn(registry, key) && WellShaped(e)
    ensures TableInvariant(registry, Put(p, key, e).order, Put(p, key, e).results)
  {
    if key !in p.order {
      DistinctSnoc(p.order, key);
    }
  }

  lemma StepKeepsInvariant(registry: seq<ModuleInfo>, p: Progress, key: string, a: Attempt)
    requires TableInvariant(registry, p.order, p.results)
    ensures TableInvariant(registry, Step(registry, p, key, a).order, Step(registry, p, key, a).results)
  {
    match Find(registry, key)
    case None =>
    case Some(info) =>
      match a
      case Returned(x) => PutKeepsInvariant(registry, p, key, CompletedEntry(info, x));
      case ScanRaised(m) => PutKeepsInvariant(registry, p, key, FailedEntry(info, m));
      case DisplayRaised(x, m) =>
        PutKeepsInvariant(registry, p, key, CompletedEntry(info, x));
        PutKeepsInvariant(registry, Put(p, key, CompletedEntry(info, x)), key, FailedEntry(info, m));
      case InterruptedInScan =>
      case InterruptedInDisplay(x) => PutKeepsInvariant(registry, p, key, CompletedEntry(info, x));
  }

  /**
   * Entry shape and key discipline hold throughout the session: every key
   * of `results` is a registry key listed once in `order`, and every entry
   * is completed-with-data or failed-with-error under its registry name.
   */
  lemma {:induction false} ProcessKeepsInvariant(plan: Plan, init: Progress, n: nat)
    requires n <= |plan.selected|
    requires TableInvariant(plan.registry, init.order, init.results)
    ensures var p := Process(plan, init, n);
            TableInvariant(plan.registry, p.order, p.results)
  {
    if n > 0 {
      ProcessKeepsInvariant(plan, init, n - 1);
      var p := Process(plan, init, n - 1);
      if !p.cancelled {
        StepKeepsInvariant(plan.registry, p, plan.selected[n - 1], plan.oracle(n - 1));
      }
    }
  }

  /**
   * Once the session is cancelled it stays as it is: no later key is
   * attempted and nothing more is recorded.
   */
  lemma {:induction false} CancelSticks(plan: Plan, init: Progress, m: nat, n: nat)
    requires m <= n <= |plan.selected|
    requires Process(plan, init, m).cancelled
    ensures Process(plan, init, n) == Process(plan, init, m)
  {
    if m < n {
      CancelSticks(plan, init, m, n - 1);
    }
  }

  /**
   * The `j`-th selected key is a registry key and its attempt, if it is
   * reached, ends in a `KeyboardInterrupt`.
   */
  predicate Interrupted(plan: Plan, j: nat)
    requires j < |plan.selected|
  {
    Knows(plan.registry, plan.selected[j]) && IsInterrupt(plan.oracle(j))
  }

  /**
   * The session ends cancelled exactly when the attempt for some known
   * selected key was interrupted.
   */
  lemma {:induction false} CancelledIffInterrupted(plan: Plan, init: Progress, n: nat)
    requires n <= |plan.selected| && !init.cancelled
    ensures Process(plan, init, n).cancelled <==> exists j :: 0 <= j < n && Interrupted(plan, j)
  {
    if n > 0 {
      CancelledIffInterrupted(plan, init, n - 1);
      if !Process(plan, init, n - 1).cancelled {
        ProcessUnfold(plan, init, n - 1);
      }
      if Interrupted(plan, n - 1) {
        assert exists j :: 0 <= j < n && Interrupted(plan, j);
      }
    }
  }

  /**
   * An interrupt at the `j`-th key ends the session there: the final state
   * is the state right after that attempt, which differs from the state
   * before it at most by a completed entry for that key (written before
   * `display()` was interrupted).
   */
  lemma InterruptStops(plan: Plan, init: Progress, j: nat)
    requires j < |plan.selected|
    requires !Process(plan, init, j).cancelled
    requires Interrupted(plan, j)
    ensures var last := Process(plan, init, |plan.selected|);
            var before := Process(plan, init, j);
            var key := plan.selected[j];
            && last == Process(plan, init, j + 1)
            && last.cancelled
            && (plan.oracle(j).InterruptedInScan? ==> last.results == before.results)
            && (plan.oracle(j).InterruptedInDisplay? ==>
                  last.results == before.results[key := CompletedEntry(Find(plan.registry, key).value, plan.oracle(j).payload)])
  {
    var key := plan.selected[j];
    ProcessUnfold(plan, init, j);
    assert Process(plan, init, j + 1)
        == Attempted(Find(plan.registry, key).value, Process(plan, init, j), key, plan.oracle(j));
    CancelSticks(plan, init, j + 1, |plan.selected|);
  }

  lemma KnownInSnoc(registry: seq<ModuleInfo>, keys: seq<string>, k: string)
    ensures KnownIn(registry, keys + [k]) == KnownIn(registry, keys) + (if Knows(registry, k) then {k} else {})
  {
  }

  /** The keys of `results` only ever come from `init` and the known keys handled so far. */
  lemma {:induction false} KeysBounded(plan: Plan, init: Progress, n: nat)
    requires n <= |plan.selected|
    ensures Process(plan, init, n).results.Keys <= init.results.Keys + KnownIn(plan.registry, plan.selected[..n])
  {
    if n > 0 {
      KeysBounded(plan, init, n - 1);
      var sel := plan.selected;
      var k := sel[n - 1];
      assert sel[..n] == sel[..n - 1] + [k];
      KnownInSnoc(plan.registry, sel[..n - 1], k);
    }
  }

  /**
   * After a run that was not cancelled, the keys of `results` are those it
   * started with plus exactly the selected keys that the registry knows;
   * unknown keys never get an entry.
   */
  lemma {:induction false} KeySetAfterRun(plan: Plan, init: Progress, n: nat)
    requires n <= |plan.selected|
    requires !Process(plan, init, n).cancelled
    ensures Process(plan, init, n).results.Keys == init.results.Keys + KnownIn(plan.registry, plan.selected[..n])
  {
    if n > 0 {
      var p := Process(plan, init, n - 1);
      assert !p.cancelled;
      KeySetAfterRun(plan, init, n - 1);
      var sel := plan.selected;
      var k := sel[n - 1];
      assert sel[..n] == sel[..n - 1] + [k];
      KnownInSnoc(plan.registry, sel[..n - 1], k);
    }
  }

  /**
   * Failure isolation and last-write-wins: if the run up to `n` was not
   * cancelled, a known key selected at position `i` and not selected again
   * before `n` holds exactly the outcome of its attempt at `i`, whatever
   * earlier attempts (of it or of other modules) did; it is completed
   * exactly when construction, `scan()` and `display()` all returned.
   */
  lemma {:induction false} LastWriteWins(plan: Plan, init: Progress, n: nat, i: nat)
    requires i < n <= |plan.selected|
    requires Knows(plan.registry, plan.selected[i])
    requires !Process(plan, init, n).cancelled
    requires forall j :: i < j < n ==> plan.selected[j] != plan.selected[i]
    ensures !IsInterrupt(plan.oracle(i))
    ensures var r := Process(plan, init, n).results;
            var key := plan.selected[i];
            && key in r
            && r[key] == Outcome(Find(plan.registry, key).value, plan.oracle(i))
            && (r[key].status == Completed <==> plan.oracle(i).Returned?)
  {
    assert !Process(plan, init, n - 1).cancelled;
    ProcessUnfold(plan, init, n - 1);
    if n - 1 > i {
      LastWriteWins(plan, init, n - 1, i);
    }
  }

  /**
   * The known keys of `keys` that are not in `exclude`, each at its first
   * occurrence, in the order of `keys`.
   */
  function FirstOccurrences(registry: seq<ModuleInfo>, exclude: seq<string>, keys: seq<string>): (r: seq<string>)
    ensures Distinct(r)
    ensures forall k :: k in r <==> k in keys && Knows(registry, k) && k !in exclude
  {
    if keys == [] then []
    else
      var prev := keys[..|keys| - 1];
      var k := keys[|keys| - 1];
      var r := FirstOccurrences(registry, exclude, prev);
      assert keys == prev + [k];
      if Knows(registry, k) && k !in exclude && k !in prev then
        DistinctSnoc(r, k);
        r + [k]
      else r
  }

  /**
   * Outcomes enter `results` in the order their keys were first attempted:
   * after an uninterrupted run, the insertion order is the starting order
   * followed by the known selected keys that were new, each at its first
   * occurrence. Unknown and repeated keys add nothing.
   */
  lemma {:induction false} OrderAfterRun(plan: Plan, init: Progress, n: nat)
    requires n <= |plan.selected|
    requires !Process(plan, init, n).cancelled
    ensures Process(plan, init, n).order
            == init.order + FirstOccurrences(plan.registry, init.order, plan.selected[..n])
  {
    if n > 0 {
      var sel := plan.selected;
      var p := Process(plan, init, n - 1);
      var prev := sel[..n - 1];
      var k := sel[n - 1];
      assert !p.cancelled;
      OrderAfterRun(plan, init, n - 1);
      ProcessUnfold(plan, init, n - 1);
      assert sel[..n][..n - 1] == prev && sel[..n][n - 1] == k;
      if Knows(plan.registry, k) {
        if k in p.order {
          assert k in init.order || k in prev;
        } else {
          assert k !in init.order && k !in prev;
        }
      }
    }
  }

  /**
   * Entries for keys that are not selected are left alone, and the
   * insertion order only grows.
   */
  lemma {:induction false} UntouchedKeysKept(plan: Plan, init: Progress, n: nat)
    requires n <= |plan.selected|
    ensures var p := Process(plan, init, n);
            && init.order <= p.order
            && forall k :: k in init.results && k !in plan.selected[..n] ==>
                 k in p.results && p.results[k] == init.results[k]
  {
    if n > 0 {
      UntouchedKeysKept(plan, init, n - 1);
      var sel := plan.selected;
      assert sel[..n] == sel[..n - 1] + [sel[n - 1]];
    }
  }

  /** `sum(1 for r in results.values() if r["status"] == s)`. */
  function CountStatus(entries: seq<Entry>, s: Status): (c: nat)
    ensures c <= |entries|
    ensures c == 0 <==> forall i :: 0 <= i < |entries| ==> entries[i].status != s
    ensures c == |entries| <==> forall i :: 0 <= i < |entries| ==> entries[i].status == s
  {
    if entries == [] then 0
    else (if entries[0].status == s then 1 else 0) + CountStatus(entries[1..], s)
  }

  /** `results.values()`, in insertion order. */
  function Values(order: seq<string>, results: map<string, Entry>): (vs: seq<Entry>)
    ensures |vs| <= |order|
    ensures (forall k :: k in order ==> k in results) ==>
              |vs| == |order| && forall i :: 0 <= i < |order| ==> vs[i] == results[order[i]]
  {
    if order == [] then []
    else if order[0] in results then [results[order[0]]] + Values(order[1..], results)
    else Values(order[1..], results)
  }

  function CompletedCount(order: seq<string>, results: map<string, Entry>): nat
  {
    CountStatus(Values(order, results), Completed)
  }

  function FailedCount(order: seq<string>, results: map<string, Entry>): nat
  {
    CountStatus(Values(order, results), Failed)
  }

  /** Every entry is counted once: as completed or as failed. */
  lemma {:induction false} CountsPartition(entries: seq<Entry>)
    ensures CountStatus(entries, Completed) + CountStatus(entries, Failed) == |entries|
  {
    if entries != [] {
      CountsPartition(entries[1..]);
    }
  }

  /** A list without repeats has as many elements as its set. */
  lemma {:induction false} DistinctCardinality(s: seq<string>)
    requires Distinct(s)
    ensures |set k | k in s| == |s|
  {
    if s != [] {
      DistinctCardinality(s[1..]);
      assert (set k | k in s) == (set k | k in s[1..]) + {s[0]};
      assert s[0] !in s[1..];
    }
  }

  /** `completed + failed == len(results)`. */
  lemma CountsCoverResults(registry: seq<ModuleInfo>, order: seq<string>, results: map<string, Entry>)
    requires TableInvariant(registry, order, results)
    ensures CompletedCount(order, results) + FailedCount(order, results) == |results|
  {
    CountsPartition(Values(order, results));
    DistinctCardinality(order);
    assert results.Keys == set k | k in order;
  }

  /** The keys of `order` whose entry has status `s`. */
  function KeysWithStatus(order: seq<string>, results: map<string, Entry>, s: Status): set<string>
  {
    set k | k in order && k in results && results[k].status == s
  }

  lemma CountStatusCons(e: Entry, rest: seq<Entry>, s: Status)
    ensures CountStatus([e] + rest, s) == (if e.status == s then 1 else 0) + CountStatus(rest, s)
  {
    assert ([e] + rest)[1..] == rest;
  }

  lemma KeysWithStatusCons(order: seq<string>, results: map<string, Entry>, s: Status)
    requires order != [] && Distinct(order) && order[0] in results
    ensures var here: set<string> := if results[order[0]].status == s then {order[0]} else {};
            var rest := KeysWithStatus(order[1..], results, s);
            KeysWithStatus(order, results, s) == here + rest && order[0] !in rest
  {
    assert order == [order[0]] + order[1..];
  }

  /**
   * Counting statuses along `results.values()` counts the keys whose entry
   * has that status, when `order` lists each key of `results` once.
   */
  lemma {:induction false} CountIsKeysWithStatus(order: seq<string>, results: map<string, Entry>, s: Status)
    requires Distinct(order)
    requires forall k :: k in order ==> k in results
    ensures CountStatus(Values(order, results), s) == |KeysWithStatus(order, results, s)|
  {
    if order != [] {
      var rest := order[1..];
      CountIsKeysWithStatus(rest, results, s);
      CountStatusCons(results[order[0]], Values(rest, results), s);
      KeysWithStatusCons(order, results, s);
    }
  }

  /**
   * Under the table invariant, the count for `s` is the number of entries
   * in `results` whose status is `s`.
   */
  lemma CountMeansStatus(registry: seq<ModuleInfo>, order: seq<string>, results: map<string, Entry>, s: Status)
    requires TableInvariant(registry, order, results)
    ensures CountStatus(Values(order, results), s) == |set k | k in results && results[k].status == s|
  {
    CountIsKeysWithStatus(order, results, s);
    assert KeysWithStatus(order, results, s) == set k | k in results && results[k].status == s;
  }

  /**
   * `completed` and `failed` are the numbers of entries in `results` with
   * status completed and failed.
   */
  lemma CountsMeanStatuses(registry: seq<ModuleInfo>, order: seq<string>, results: map<string, Entry>)
    requires TableInvariant(registry, order, results)
    ensures CompletedCount(order, results) == |set k | k in results && results[k].status == Completed|
    ensures FailedCount(order, results) == |set k | k in results && results[k].status == Failed|
  {
    CountMeansStatus(registry, order, results, Completed);
    CountMeansStatus(registry, order, results, Failed);
  }

  /** The session before any module has run. */
  const Fresh: Progress := Progress([], map[], false)

  /**
   * A fresh, uninterrupted session over a selection of known keys records
   * exactly the selected keys.
   */
  lemma FreshRunKeySet(plan: Plan)
    requires forall k :: k in plan.selected ==> Knows(plan.registry, k)
    requires !Process(plan, Fresh, |plan.selected|).cancelled
    ensures Process(plan, Fresh, |plan.selected|).results.Keys == set k | k in plan.selected
  {
    var sel := plan.selected;
    KeySetAfterRun(plan, Fresh, |sel|);
    assert sel[..|sel|] == sel;
  }

  /**
   * A fresh, uninterrupted session counts one outcome per distinct known
   * selected key: repeated keys count once and unknown keys not at all.
   */
  lemma FreshRunCounts(plan: Plan)
    requires !Process(plan, Fresh, |plan.selected|).cancelled
    ensures var p := Process(plan, Fresh, |plan.selected|);
            CompletedCount(p.order, p.results) + FailedCount(p.order, p.results)
            == |KnownIn(plan.registry, plan.selected)|
  {
    var sel := plan.selected;
    var p := Process(plan, Fresh, |sel|);
    KeySetAfterRun(plan, Fresh, |sel|);
    assert sel[..|sel|] == sel;
    ProcessKeepsInvariant(plan, Fresh, |sel|);
    CountsCoverResults(plan.registry, p.order, p.results);
    assert |p.results| == |p.results.Keys|;
  }

  /**
   * A fresh, uninterrupted session over a selection of distinct known keys
   * records one entry per selected key, each counted as completed or failed.
   */
  lemma FullRunCoversSelection(plan: Plan)
    requires Distinct(plan.selected)
    requires forall k :: k in plan.selected ==> Knows(plan.registry, k)
    requires !Process(plan, Fresh, |plan.selected|).cancelled
    ensures var p := Process(plan, Fresh, |plan.selected|);
            && p.results.Keys == set k | k in plan.selected
            && CompletedCount(p.order, p.results) + FailedCount(p.order, p.results) == |plan.selected|
  {
    var sel := plan.selected;
    var p := Process(plan, Fresh, |sel|);
    FreshRunKeySet(plan);
    DistinctCardinality(sel);
    ProcessKeepsInvariant(plan, Fresh, |sel|);
    CountsCoverResults(plan.registry, p.order, p.results);
  }

  /**
   * With no selection (or an empty one), an uninterrupted session over the
   * registry records one entry per registry module, and all seven are
   * counted as completed or failed.
   */
  lemma DefaultRunCoversRegistry(modules: Option<seq<string>>, oracle: nat -> Attempt)
    requires modules.None? || modules.value == []
    requires !Process(Plan(Modules, DefaultSelection(modules), oracle), Fresh, |AllKeys()|).cancelled
    ensures var p := Process(Plan(Modules, DefaultSelection(modules), oracle), Fresh, |AllKeys()|);
            && p.results.Keys == set k | k in AllKeys()
            && CompletedCount(p.order, p.results) + FailedCount(p.order, p.results) == 7
  {
    DefaultSelectionIsKnown(modules);
    RegistryKeysDistinct();
    FullRunCoversSelection(Plan(Modules, DefaultSelection(modules), oracle));
  }

  /** Python truthiness of `self.output`: a non-empty path. */
  predicate Truthy(output: Option<string>)
  {
    output.Some? && output.value != ""
  }

  /** What `ReportGenerator(target, results, duration)` is given. */
  datatype Report = Report(target: string, order: seq<string>, results: map<string, Entry>, duration: int)

  /** One call `report.save(path)`. */
  datatype SaveCall = SaveCall(path: string, report: Report)
}
