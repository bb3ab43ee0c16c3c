# WebReconX session core in Dafny

This project models the orchestration core of WebReconX (`webreconx.py`),
a command-line tool that runs a fixed set of web reconnaissance probes
against one target and gathers their outcomes into one session report.
The model covers:

- target normalisation (`_clean_target`);
- the module registry `MODULES` and the default module selection of `__init__`;
- the session loop of `run()`. Unknown keys are skipped. Each known module
  is built, scanned and displayed inside a `try`. Any `Exception` becomes a
  failed entry. A `KeyboardInterrupt` ends the session through `sys.exit(0)`.
- the completed/failed counts and the hand-off of the report to
  `ReportGenerator(...).save(output)`.

Files and modules:

- `wrappers.dfy` (`Wrappers`): `Option`, for Python's value-or-`None`.
- `target.dfy` (`TargetNormalizer`): `str.strip()` with Python's exact
  whitespace set, `str.rstrip("/")`, the case-sensitive scheme test and
  `CleanTarget`, with its characterisation and fixed-point lemmas.
- `target_examples.dfy` (`TargetExamples`): worked inputs, including the
  degenerate ones (`""` gives `https:`, `"example.com /"` keeps a space).
- `registry.dfy` (`ModuleRegistry`): the seven-entry table in declaration
  order, lookup, and `modules or list(MODULES.keys())`.
- `session.dfy` (`ScanSession`): the session as a specification on values.
  `Step` is one loop iteration. `Process` is the loop over the first `n`
  selected keys. The lemmas state what the loop guarantees: key set, entry
  shape, last write wins, failure isolation, stop on interrupt, and counts.
- `framework.dfy` (`Framework`): the `WebReconX` class. `Run` updates the
  fields `results`, `start_time` and `end_time` in place, as the source
  does. Its module loop, `RunModules`, is proved to leave exactly the state
  `Process` describes.

The probes are an oracle `nat -> Attempt`. It tells, for the `i`-th selected
key, how that attempt ends:

- `Returned(payload)`: construction, `scan()` and `display()` all return;
- `ScanRaised(msg)`: construction or `scan()` raises an `Exception`;
- `DisplayRaised(payload, msg)`: `scan()` returns and `display()` raises;
- `InterruptedInScan`: a `KeyboardInterrupt` arrives before `scan()` returns;
- `InterruptedInDisplay(payload)`: a `KeyboardInterrupt` arrives inside `display()`.

The two `datetime.now()` readings are integer parameters of `Run`. Each
`save` call is appended to the ghost trace `saves`.

The model follows the code in these points, which are easy to misread:

- On a `KeyboardInterrupt`, `sys.exit(0)` leaves `run()` before
  `self.end_time` is assigned. So a cancelled session records no end
  timestamp and saves no report.
- An interrupt inside `display()` keeps the completed entry that was written
  just before `display()` was called.
- The error text is `str(e)`, which can be empty. So no non-empty error
  message is claimed.
- The duration is a difference of wall-clock readings, so it is not
  claimed to be non-negative.
- `_get_domain()` (webreconx.py:93-97) runs inside `run()` after
  `start_time` is set and before the loop. `urlparse` raises `ValueError`
  for some network locations, for instance an unbalanced `[` as in the
  target `[::1`, which normalises to `https://[::1`. The exception leaves
  `run()` with no module run, no `end_time` and no report. `Run` takes
  whether this happens as the parameter `domainRaises` and returns
  `DomainError` then.

## Model

| member | source | states |
|---|---|---|
| `TargetNormalizer.LeadingSpaces` | webreconx.py:88 | counts exactly the leading characters that `str.strip()` treats as whitespace |
| `TargetNormalizer.TrailingSpaces` | webreconx.py:88 | counts exactly the trailing whitespace characters |
| `TargetNormalizer.Strip` | webreconx.py:88 | the result is the input slice after its leading whitespace; only whitespace lies outside it; neither end is whitespace |
| `TargetNormalizer.RStripSlash` | webreconx.py:91 | the result is a prefix of the input; only `/` was removed; the result does not end in `/` |
| `TargetNormalizer.CleanTarget` | webreconx.py:86-91 | the result starts with `http:` or `https:` and never ends in `/` |
| `TargetNormalizer.CleanTargetIsQualifiedUpToSlashes` | webreconx.py:86-91 | the result is the trimmed input, with `https://` prepended unless it already starts with `http://` or `https://`, less a run of trailing slashes only |
| `TargetNormalizer.NoLeadingSpace` | webreconx.py:88-90 | the result never starts with whitespace |
| `TargetNormalizer.QualifiedHasScheme` | webreconx.py:89-90 | after the scheme test and the prefixing, the text always starts with `http://` or `https://` |
| `TargetNormalizer.SchemeSurvivesSlashStrip` | webreconx.py:91 | removing trailing slashes from a text with a scheme keeps `http:` or `https:` in front |
| `TargetNormalizer.SlashStripKeeps` | webreconx.py:91 | stripping trailing slashes never removes a position holding another character, so the scheme's colon survives |
| `TargetNormalizer.NoSchemeWithoutH` | webreconx.py:89 | a text that does not start with `h` fails the scheme test |
| `TargetNormalizer.StripKeepsTrimmed` | webreconx.py:88 | `strip()` leaves a text alone whose first and last characters are not whitespace |
| `TargetNormalizer.OneSlashRemoved` | webreconx.py:91 | a single trailing slash after another character is all that `rstrip("/")` removes |
| `TargetNormalizer.SchemeIsKept` | webreconx.py:89-91 | a trimmed input that already starts with `http://` or `https://` and has no trailing slash is returned unchanged |
| `TargetNormalizer.SchemeIsAdded` | webreconx.py:89-91 | a trimmed input without a scheme gets exactly `https://` in front (or collapses to `https:`); without trailing slash the result is `https://` + trimmed input |
| `TargetNormalizer.HostGetsDefault` | webreconx.py:86-91 | a trimmed target not starting with `h` and without trailing slash becomes exactly `https://` + the trimmed target |
| `TargetNormalizer.TrailingSpaceIsTrimmed` | webreconx.py:86-91 | a text with a scheme that ends in whitespace is not a fixed point of normalisation |
| `TargetNormalizer.CleanIsFixedPoint` | webreconx.py:86-91 | a text with a scheme, no surrounding whitespace and no trailing slash is a fixed point |
| `TargetNormalizer.CleanTwice` | webreconx.py:86-91 | normalising twice equals normalising once, given that the first result has a scheme and no trailing whitespace |
| `TargetExamples.BareHostExample` | webreconx.py:86-91 | `example.com` becomes `https://example.com` |
| `TargetExamples.HttpSlashExample` | webreconx.py:86-91 | `http://example.com/` becomes `http://example.com` |
| `TargetExamples.PaddedHostExample` | webreconx.py:86-91 | `  example.com  ` becomes `https://example.com` |
| `TargetExamples.UpperCaseSchemeExample` | webreconx.py:89 | the scheme test is case-sensitive: `HTTP://example.com` gets a second scheme |
| `TargetExamples.EmptyTargetIsNotStable` | webreconx.py:86-91 | the empty target gives `https:` (no `://`), and normalising that again changes it |
| `TargetExamples.TrailingSpaceIsNotStable` | webreconx.py:86-91 | `example.com /` keeps a trailing space, and normalising again changes it |
| `ModuleRegistry.KeysOf` | webreconx.py:77 | the key list has one key per table entry, in table order |
| `ModuleRegistry.Find` | webreconx.py:113-117 | finds an entry exactly when the key is in the table; the entry found is a table entry with that key |
| `ModuleRegistry.AllKeysListed` | webreconx.py:37-73 | `list(MODULES.keys())` is `headers, ssl, tech, ports, dns, subdomains, wayback`, in that order |
| `ModuleRegistry.RegistryKeysDistinct` | webreconx.py:37-73 | the registry has seven entries with pairwise distinct keys |
| `ModuleRegistry.FindAt` | webreconx.py:37-73 | with distinct keys, looking up the key at position `i` yields the entry at position `i` |
| `ModuleRegistry.DefaultSelection` | webreconx.py:77 | an absent or empty selection means all registry keys in table order; any other selection is kept as given; never empty |
| `ModuleRegistry.DefaultSelectionIsKnown` | webreconx.py:77 | every key of the default selection is a registry key |
| `ScanSession.CompletedEntry` | webreconx.py:128-132 | a completed entry is well shaped (data, no error) and carries the module's registry name |
| `ScanSession.FailedEntry` | webreconx.py:140-144 | a failed entry is well shaped (error, no data) and carries the module's registry name |
| `ScanSession.Outcome` | webreconx.py:120-144 | an uninterrupted attempt leaves a well-shaped entry under the registry name, completed exactly when every call returned |
| `ScanSession.Put` | webreconx.py:128 | dictionary assignment: the value is replaced; an existing key keeps its place in the insertion order and a new key is appended at the end |
| `ScanSession.Attempted` | webreconx.py:120-144 | for a known module: cancelled exactly on an interrupt; an uninterrupted attempt leaves exactly its outcome under the key; an interrupt in `scan()` leaves the results alone, one in `display()` leaves the completed entry; a new key is appended to the insertion order unless `scan()` was interrupted; other keys and the existing order are never disturbed |
| `ScanSession.Step` | webreconx.py:112-144 | an unknown key changes nothing; the session is cancelled exactly by an interrupt at a known key; otherwise the key holds exactly its attempt's outcome and, if new, is appended to the insertion order; no other key is added |
| `ScanSession.ProcessUnfold` | webreconx.py:112-137 | while the session is not cancelled, the loop goes on by exactly one iteration per selected key |
| `ScanSession.EmptyTableInvariant` | webreconx.py:82 | the empty `results` dictionary satisfies the table invariant |
| `ScanSession.PutKeepsInvariant` | webreconx.py:128-144 | writing a well-shaped, correctly named entry under a known key keeps keys unique and entries well shaped |
| `ScanSession.StepKeepsInvariant` | webreconx.py:112-144 | one loop iteration keeps the results table invariant |
| `ScanSession.ProcessKeepsInvariant` | webreconx.py:112-144 | throughout a session every result key is a registry key listed once, and every entry is completed-with-data or failed-with-error under its registry name |
| `ScanSession.CancelSticks` | webreconx.py:135-137 | after an interrupt no later key is attempted and nothing more is recorded |
| `ScanSession.CancelledIffInterrupted` | webreconx.py:135-137 | a session ends cancelled exactly when some known selected key's attempt was interrupted |
| `ScanSession.InterruptStops` | webreconx.py:128-137 | an interrupt at key `j` fixes the final state as the state just after `j`; it adds nothing, or only the completed entry written before an interrupted `display()` |
| `ScanSession.KeysBounded` | webreconx.py:112-115 | result keys only ever come from the starting table and the known selected keys handled so far; unknown keys never appear |
| `ScanSession.KeySetAfterRun` | webreconx.py:112-144 | after an uninterrupted run the key set is the starting keys plus exactly the selected keys the registry knows |
| `ScanSession.LastWriteWins` | webreconx.py:120-144 | an uninterrupted run leaves each known key with the outcome of its last attempt, whatever earlier attempts did; completed exactly when construction, `scan()` and `display()` all returned |
| `ScanSession.FirstOccurrences` | webreconx.py:112-132 | the known keys not already present, each once, exactly those of the selection |
| `ScanSession.OrderAfterRun` | webreconx.py:112-144 | after an uninterrupted run the insertion order of `results` is the starting order followed by the new known selected keys at their first occurrence, in selection order; unknown and repeated keys add nothing |
| `ScanSession.UntouchedKeysKept` | webreconx.py:112-144 | entries for keys not selected are unchanged, and insertion order only grows |
| `ScanSession.CountStatus` | webreconx.py:156-157 | a status count never exceeds the number of entries; it is 0 exactly when no entry has that status, and the full length exactly when every entry has it |
| `ScanSession.Values` | webreconx.py:156-157 | `results.values()` in insertion order: one value per key, in key order |
| `ScanSession.CountIsKeysWithStatus` | webreconx.py:156-157 | along a repeat-free key order, the count for a status is the number of keys whose entry has that status |
| `ScanSession.CountMeansStatus` | webreconx.py:156-157 | under the table invariant, the count for a status is the number of entries in `results` with that status |
| `ScanSession.CountsMeanStatuses` | webreconx.py:156-157 | `completed` and `failed` are the numbers of entries in `results` whose status is completed and failed |
| `ScanSession.CountsPartition` | webreconx.py:156-157 | every entry is counted exactly once, as completed or as failed |
| `ScanSession.DistinctCardinality` | webreconx.py:156-157 | a key list without repeats has as many elements as its key set |
| `ScanSession.CountsCoverResults` | webreconx.py:154-157 | `completed + failed == len(results)` |
| `ScanSession.FreshRunKeySet` | webreconx.py:112-144 | a fresh uninterrupted run over known keys records exactly the selected keys |
| `ScanSession.FreshRunCounts` | webreconx.py:112-157 | a fresh uninterrupted run counts one outcome per distinct known selected key, whatever the duplicates and unknown keys in the selection |
| `ScanSession.FullRunCoversSelection` | webreconx.py:112-157 | a fresh uninterrupted run over distinct known keys has one entry per selected key, and the counts add up to the number of keys |
| `ScanSession.DefaultRunCoversRegistry` | webreconx.py:77-157 | with no selection, an uninterrupted run records all seven modules and counts seven outcomes |
| `Framework.WebReconX.constructor` | webreconx.py:75-84 | the target is normalised, the selection defaulted, the configuration stored, and results and timestamps start empty |
| `Framework.WebReconX.Record` | webreconx.py:128-132 | `self.results[key] = e` updates the dictionary and its insertion order as a Python dict does |
| `Framework.WebReconX.RunModule` | webreconx.py:113-144 | one loop body leaves exactly the state of one `Step` and keeps the class invariant |
| `Framework.WebReconX.RunModules` | webreconx.py:112-144 | the module loop leaves exactly the state `Process` describes and reports whether an interrupt ended it |
| `Framework.WebReconX.Run` | webreconx.py:99-166 | sets `start_time`; a `ValueError` from `_get_domain()` leaves results, `end_time` and saves unchanged; otherwise leaves `results` as `Process` describes it; on interrupt does not set `end_time` and saves nothing; otherwise sets `end_time`, returns `results`, and saves the final results with `end - start` exactly once if `output` is non-empty, never otherwise |

## Left out

- The probe classes (`SecurityHeaderScanner`, `SSLAnalyzer`, `TechDetector`,
  `PortScanner`, `DNSRecon`, `SubdomainFinder`, `WaybackFetcher`). They do
  network I/O in files that are not part of this model. They appear only as
  the outcome oracle. The oracle stands for construction with target,
  domain, timeout and verbosity, too.
- `_get_domain` (`urllib.parse.urlparse`): library parsing rules that are not
  part of this model. The hostname is only handed to the probes, so it is
  folded into the oracle.
- Run: whether `urlparse` raises `ValueError` on the normalised target is
  the parameter `domainRaises`, not computed from the target, because
  urllib's network-location checks are not part of this model.
- Timestamps: `datetime.now()` readings become integer parameters. The
  duration is their difference, not a `total_seconds()` float.
- `ReportGenerator` serialisation and file writing. Only the fact of the
  `save` call and what it receives are recorded. An `IOError` from `save` is
  not modelled.
- All printing (banner, sections, warnings, summary lines) and colours.
- `parse_args`, `main`, `--list-modules`, `--version`, the CLI `choices`
  filter and the process exit codes.
- `threads`: stored by the constructor and never used.
- A `KeyboardInterrupt` raised outside a probe attempt (for example while
  printing) and `BaseException`s other than `KeyboardInterrupt`. Both
  propagate out of `run()` unhandled and are not modelled.
