# docker-image-syncer, modelled in Dafny

The syncer copies container images from public registries into a private one.
It reads a list of images, each a `source` with an optional `target` name
override and an optional `platform`. The destination comes from the
`TARGET_REGISTRY` and `TARGET_NAMESPACE` environment values. For each image it
first asks the registry whether the derived target already exists
(`docker manifest inspect`). If it does, the image is skipped. Otherwise the
syncer pulls the source, tags it with the target reference and pushes it,
stopping at the first step that fails. Every image yields one result record.
At the end the syncer counts successes, failures and skips, writes a report,
and exits with status 1 when any image failed.

This project models the decision logic of `scripts/sync.py`. The container
runtime is an oracle:

- `Commands.Runtime` maps the commands issued so far, plus the next command,
  to a `Response`.
- A `Response` is either `Exited(status)` or `Raised(message)`. The second
  case stands for an invocation that throws, for example when the `docker`
  binary is missing.
- Every attempt records the commands it issued, in order. This lets the
  lemmas say which steps ran and which never did.

Modules, leaf first:

- `Wrappers`: `Option`, `Result`, and Python truthiness of an optional string.
- `ImageRefs`: `ImageConfig`; Python's `str.split` and the last path segment; the target reference.
- `Commands`: the `docker` argument vectors and a parser that inverts them; runtime responses; the existence check; a step's error.
- `ImageSync`: the per-image state machine (`sync_image`). It is proved equal to a generic short-circuiting run of the three transfer steps.
- `SyncRun`: the constructor's environment check; the `sync_all` loop; the counts; the exit status.
- `Scenarios`: a two-image run (`nginx:latest` already present, `redis:7` renamed `cache`), once with a working push and once with a failing one.

Points where the code decides what the behaviour is:

- The override and the platform count only when truthy. `None` and `""` both
  mean "absent". The same rule applies to the two environment values.
- Without an override, the name is everything after the last `/` of the
  source, and any `:tag` stays. So `nginx:latest` is checked and pushed as
  `registry/namespace/nginx:latest`, not `registry/namespace/nginx`.
- The error texts are the code's capitalised strings, for example
  `Failed to pull source image`.
- A failed pull, tag or push records that step's message. If invoking the step
  raises instead, the error is the exception's text (`str(e)`). A check that
  raises reads as "not present".
- `sys.exit(1)` inside `sync_all`'s `try` is not caught by
  `except Exception`. A constructor error is uncaught and ends the process with
  status 1. In both cases the status is 1.

## Model

| member | source | states |
|---|---|---|
| ImageRefs.Split | scripts/sync.py:39 | `str.split('/')`: never empty, no piece contains the separator, and joining the pieces with it gives back the input |
| ImageRefs.LastSegment | scripts/sync.py:39 | the result is the suffix of the source after its last '/': holds no '/', and is the whole source or is preceded by '/' |
| ImageRefs.SplitLastIsLastSegment | scripts/sync.py:39 | the last piece of `source.split('/')` is exactly that last segment |
| ImageRefs.ImageName | scripts/sync.py:34-39 | the override when truthy, otherwise the last '/'-segment of the source |
| ImageRefs.TargetImage | scripts/sync.py:32-41 | the target always starts with `registry/namespace/` and the rest is the image name |
| ImageRefs.TargetWithOverride | scripts/sync.py:34-41 | with a non-empty override the target is exactly `registry/namespace/override`, whatever the source |
| ImageRefs.TargetWithoutOverride | scripts/sync.py:34-41 | with no override or an empty one the name is the source's last segment, the whole source if it has no '/', tag kept |
| ImageRefs.TargetDeterminesName | scripts/sync.py:32-41 | under one registry and namespace, equal targets mean equal image names |
| Commands.Argv | scripts/sync.py:82-107 | every argument vector starts with `docker` and has at least three words |
| Commands.ParseArgv | scripts/sync.py:82-107 | pull is `docker pull SRC` plus `--platform P` only for a non-empty P; tag is `docker tag SRC DST`; push is `docker push DST`; inspect is `docker manifest inspect REF`; each parses back to its command |
| Commands.ArgvParse | scripts/sync.py:82-107 | every vector of those shapes is the one its command builds |
| Commands.ArgvInjective | scripts/sync.py:82-107 | two commands build the same vector iff they are equal up to an empty platform |
| Commands.ImageExists | scripts/sync.py:104-119 | the check reports present iff the inspection exits 0; non-zero and a raised invocation both read as absent |
| Commands.StepError | scripts/sync.py:71-159 | no error iff status 0; a failed process gives the step's message; a raised invocation gives the exception text |
| ImageSync.Consistent | scripts/sync.py:124-165 | the invariant every finished outcome keeps (skipped implies success, success iff no error, message iff skipped, timing written); it implies a skipped outcome has no error; `SyncImage` proves every outcome meets it |
| ImageSync.Finalise | scripts/sync.py:162-165 | the `finally` block: the result has its timing fields written and no other field changes |
| ImageSync.SyncImage | scripts/sync.py:121-167 | every outcome is consistent (skipped implies success, success iff no error, message iff skipped, timing finalised); source, platform and target are as configured; the first command is the inspection of the target; skipped iff the check reports present iff only the check ran |
| ImageSync.ExistingTargetIsSkipped | scripts/sync.py:134-141 | when the target exists, only the inspection is issued and the outcome is success, skipped, no error, "already exists" message |
| ImageSync.FailedCheckLeadsToPull | scripts/sync.py:104-145 | a check that exits non-zero or raises does not skip; the pull is issued next |
| ImageSync.RunStepsPrefix | scripts/sync.py:143-153 | the short-circuiting run of steps issues a prefix of the steps' commands, in order |
| ImageSync.RunStepsClean | scripts/sync.py:143-156 | that run ends without error iff every step ran and each exited with status 0 |
| ImageSync.RunStepsFailurePrefix | scripts/sync.py:143-160 | when that run ends with an error, every step before the last issued one succeeded |
| ImageSync.RunStepsFailureLast | scripts/sync.py:143-160 | when that run ends with an error, the last issued step did not exit 0 and the recorded error is that step's |
| ImageSync.SyncRunsPlan | scripts/sync.py:134-160 | after a negative check, an attempt issues the inspection and then exactly the short-circuiting run of pull, tag, push; its error and success are that run's |
| ImageSync.FailedPullStops | scripts/sync.py:143-160 | a failed pull issues neither tag nor push; the error is the pull's |
| ImageSync.FailedTagStops | scripts/sync.py:147-160 | a failed tag after a good pull never issues the push; the error is the tag's |
| ImageSync.FailedPushReported | scripts/sync.py:151-160 | a failed push after good pull and tag leaves the push's error |
| ImageSync.TransferSucceedsIff | scripts/sync.py:134-156 | success without skip iff the check is negative and pull, tag and push each exit 0 |
| SyncRun.NewSyncer | scripts/sync.py:46-53 | construction succeeds iff both environment values are truthy, keeping them; otherwise it fails with the environment message |
| SyncRun.SyncEach | scripts/sync.py:174-176 | the loop yields exactly one attempt per configured image; `SyncEachAt` and `SyncEachAppend` state which attempt and in what order |
| SyncRun.SyncEachAt | scripts/sync.py:172-176 | the i-th attempt is the sync of the i-th configured image, run after every command issued for earlier images |
| SyncRun.SyncEachAppend | scripts/sync.py:172-176 | more images never change the attempts of earlier ones: results form an append-only log in configuration order |
| SyncRun.CountSuccessful | scripts/sync.py:182 | the number of successful results is at most the number of results; `SuccessfulPlusFailed` relates it to the failed count and `AllSuccessfulIffAllSucceeded` says when it reaches the total |
| SyncRun.CountFailed | scripts/sync.py:183 | the number of failed results is at most the number of results; it is zero iff every result succeeded (`NoFailuresIffAllSucceeded`) |
| SyncRun.CountSkipped | scripts/sync.py:184 | the number of skipped results is at most the number of results, and at most the successful count over consistent results (`SkippedAtMostSuccessful`) |
| SyncRun.SuccessfulPlusFailed | scripts/sync.py:182-183 | successful + failed = total |
| SyncRun.SkippedAtMostSuccessful | scripts/sync.py:182-184 | over consistent outcomes, skipped ≤ successful |
| SyncRun.NoFailuresIffAllSucceeded | scripts/sync.py:183-189 | the failed count is zero iff every outcome is a success |
| SyncRun.AllSuccessfulIffAllSucceeded | scripts/sync.py:182-183 | the successful count equals the number of results iff every result is a success |
| SyncRun.Summarise | scripts/sync.py:181-186 | the logged summary: total, successful + failed = total, skipped ≤ successful, no failures iff all succeeded |
| SyncRun.SyncAll | scripts/sync.py:169-193 | a failed load records nothing, writes no report and exits 1; a load keeps one attempt per image and always attempts the report write after the loop, failed images included; the status is 0 or 1 |
| SyncRun.Run | scripts/sync.py:204-207 | the status is 0 or 1; the configuration is loaded only after a successful construction |
| SyncRun.RunSummaryLaws | scripts/sync.py:172-186 | every outcome of a loaded run is consistent, and its logged summary has total = successful + failed = number of images, skipped ≤ successful, and no failures iff every image succeeded |
| SyncRun.MissingEnvironmentStopsFirst | scripts/sync.py:46-53 | a missing or empty registry or namespace ends the run before the configuration is read: no attempt, no report, status 1 |
| SyncRun.OneOutcomePerImage | scripts/sync.py:121-176 | a loaded run has one consistent outcome per image, in order, with that image's source, platform and derived target |
| SyncRun.ExitStatusPolicy | scripts/sync.py:182-193 | the status is 0 iff the configuration loaded and every outcome succeeded (skips included) |
| SyncRun.ReportWriteDoesNotMatter | scripts/sync.py:195-202 | whether the report could be written changes neither the attempts nor the exit status |
| Scenarios.NginxSkipped | scripts/sync.py:121-141 | `nginx:latest`, present as `myreg/myns/nginx:latest`, issues only the check and is skipped |
| Scenarios.RedisTransferred | scripts/sync.py:121-167 | `redis:7` with override `cache` is pulled, tagged to `myreg/myns/cache` and pushed; it succeeds iff the push does, else the push error is recorded |
| Scenarios.ScenarioRun | scripts/sync.py:169-193 | the two-image run keeps both attempts in order, writes the report, and exits 0 iff the push works |
| Scenarios.ScenarioCounts | scripts/sync.py:181-186 | with a working push: 2 successful, 1 skipped, 0 failed |

## Left out

- Process execution: `subprocess.run`, output capture and its logging. Each invocation is a `Response` from the runtime oracle.
- The runtime oracle answers as a function of the commands issued before. Timing, concurrency with other registry users, and nondeterminism beyond that history are not represented.
- Configuration loading (`load_config`): reading and parsing the YAML file and building `ImageConfig(**entry)`. This is file I/O and library behaviour. The loaded configuration is a `Result` parameter; a failure stands for any loading exception.
- Configuration values are strings; other YAML value types are not modelled. Their effects differ by field. A truthy non-string `target` override is formatted into the reference without error. A falsy non-string `platform` is dropped by the truthiness test and the pull runs as usual. A truthy non-string `platform` makes the pull raise inside `sync_image`'s `try`, and the exception text becomes that image's `error`. A non-string `source` with a truthy override derives its target without error, then raises inside the pull, within that `try`, and becomes the image's `error`. A non-string `source` with a falsy override makes `split` raise while the target is derived, outside that `try`; `sync_all` catches it and the run exits with status 1 without writing the report.
- The configuration file name parameter of the constructor is not modelled; the loader is a parameter.
- Start time, end time and duration are wall-clock and floating-point values. A boolean `finalised` field stands for them; it is set on every path.
- The JSON report's contents and file name are left out. Whether the write succeeds is a boolean parameter, and the run records whether the report was written.
- Environment reading and `sys.exit` are left out. The environment values are `Option<string>` parameters and the exit status is a returned integer.
- Logging is left out: it has no effect on results.
- SyncRun.SyncAll: exceptions inside the run loop other than a failed load are not modelled. With string configurations and an oracle runtime, no other exception can reach `sync_all`'s handler.
