/** `DockerImageSync.__init__`, `sync_all` and `main` in scripts/sync.py: the
    environment check, the per-image loop, the counts and the exit status. */
module SyncRun {
  import opened Wrappers
  import opened ImageRefs
  import opened Commands
  import opened ImageSync

  const MissingEnvironmentMessage := "TARGET_REGISTRY and TARGET_NAMESPACE environment variables must be set"

  /** The destination coordinates the run was constructed with. */
  datatype Syncer = Syncer(registry: string, namespace: string)

  /** The constructor: both environment values must be truthy. */
  function NewSyncer(registry: Option<string>, namespace: Option<string>): (r: Result<Syncer, string>)
    ensures r.Success? <==> Truthy(registry) && Truthy(namespace)
    ensures r.Success? ==> r.value.registry == registry.value && r.value.namespace == namespace.value
    ensures r.Success? ==> r.value.registry != "" && r.value.namespace != ""
    ensures r.Failure? ==> r.error == MissingEnvironmentMessage
  {
    if Truthy(registry) && Truthy(namespace) then Success(Syncer(registry.value, namespace.value))
    else Failure(MissingEnvironmentMessage)
  }

  /** Every command issued by `attempts`, in order. */
  function Flatten(attempts: seq<Attempt>): seq<DockerCommand>
    decreases |attempts|
  {
    if |attempts| == 0 then [] else attempts[0].issued + Flatten(attempts[1..])
  }

  /** The per-image step a run applies: the attempt for one image, given the
      commands issued earlier in the run. */
  type ImageStep = (ImageConfig, seq<DockerCommand>) -> Attempt

  /** The step `sync_all` applies: `sync_image` with the run's destination and runtime. */
  function SyncStep(s: Syncer, rt: Runtime): ImageStep {
    (cfg: ImageConfig, history: seq<DockerCommand>) => SyncImage(cfg, s.registry, s.namespace, rt, history)
  }

  /** The loop of `sync_all`: one attempt per image, in order, each image
      seeing every command issued for the images before it. */
  function SyncEach(images: seq<ImageConfig>, step: ImageStep, history: seq<DockerCommand>): (attempts: seq<Attempt>)
    ensures |attempts| == |images|
    decreases |images|
  {
    if |images| == 0 then []
    else
      var a := step(images[0], history);
      [a] + SyncEach(images[1..], step, history + a.issued)
  }

  /** The `i`-th attempt is the step applied to the `i`-th image after every
      command issued for the images before it. */
  lemma {:induction false} SyncEachAt(images: seq<ImageConfig>, step: ImageStep, history: seq<DockerCommand>, i: nat)
    requires i < |images|
    ensures var attempts := SyncEach(images, step, history);
      attempts[i] == step(images[i], history + Flatten(attempts[..i]))
    decreases i
  {
    var attempts := SyncEach(images, step, history);
    var a := step(images[0], history);
    var rest := SyncEach(images[1..], step, history + a.issued);
    assert attempts == [a] + rest;
    if i == 0 {
      assert history + Flatten(attempts[..0]) == history by {
        assert attempts[..0] == [];
      }
    } else {
      SyncEachAt(images[1..], step, history + a.issued, i - 1);
      assert history + Flatten(attempts[..i]) == history + a.issued + Flatten(rest[..i - 1]) by {
        FlattenCons(a, rest, i);
      }
      assert images[1..][i - 1] == images[i];
    }
  }

  /** The commands of the first `i` attempts of `[a] + rest` are `a`'s followed
      by those of the first `i - 1` of `rest`. */
  lemma FlattenCons(a: Attempt, rest: seq<Attempt>, i: nat)
    requires 0 < i <= |rest| + 1
    ensures Flatten(([a] + rest)[..i]) == a.issued + Flatten(rest[..i - 1])
  {
    assert ([a] + rest)[..i][1..] == rest[..i - 1];
  }

  /** The result records of the attempts, in order. */
  function Outcomes(attempts: seq<Attempt>): (results: seq<SyncOutcome>)
    ensures |results| == |attempts|
    ensures forall i :: 0 <= i < |attempts| ==> results[i] == attempts[i].outcome
  {
    seq(|attempts|, i requires 0 <= i < |attempts| => attempts[i].outcome)
  }

  /** `sum(1 for r in results if r["success"])`. */
  function CountSuccessful(results: seq<SyncOutcome>): (n: nat)
    ensures n <= |results|
    decreases |results|
  {
    if |results| == 0 then 0
    else CountSuccessful(results[..|results| - 1]) + (if results[|results| - 1].success then 1 else 0)
  }

  /** `sum(1 for r in results if not r["success"])`. */
  function CountFailed(results: seq<SyncOutcome>): (n: nat)
    ensures n <= |results|
    decreases |results|
  {
    if |results| == 0 then 0
    else CountFailed(results[..|results| - 1]) + (if results[|results| - 1].success then 0 else 1)
  }

  /** `sum(1 for r in results if r.get("skipped", False))`. */
  function CountSkipped(results: seq<SyncOutcome>): (n: nat)
    ensures n <= |results|
    decreases |results|
  {
    if |results| == 0 then 0
    else CountSkipped(results[..|results| - 1]) + (if results[|results| - 1].skipped then 1 else 0)
  }

  /** Every result is counted as exactly one of successful and failed. */
  lemma {:induction false} SuccessfulPlusFailed(results: seq<SyncOutcome>)
    ensures CountSuccessful(results) + CountFailed(results) == |results|
    decreases |results|
  {
    if |results| > 0 {
      SuccessfulPlusFailed(results[..|results| - 1]);
    }
  }

  /** Since a skip is a success, no more results are skipped than successful. */
  lemma {:induction false} SkippedAtMostSuccessful(results: seq<SyncOutcome>)
    requires forall i :: 0 <= i < |results| ==> Consistent(results[i])
    ensures CountSkipped(results) <= CountSuccessful(results)
    decreases |results|
  {
    if |results| > 0 {
      SkippedAtMostSuccessful(results[..|results| - 1]);
    }
  }

  /** The failed count is zero exactly when every result is a success. */
  lemma {:induction false} NoFailuresIffAllSucceeded(results: seq<SyncOutcome>)
    ensures CountFailed(results) == 0 <==> forall i :: 0 <= i < |results| ==> results[i].success
    decreases |results|
  {
    if |results| > 0 {
      var init := results[..|results| - 1];
      NoFailuresIffAllSucceeded(init);
      assert forall i :: 0 <= i < |init| ==> init[i] == results[i];
    }
  }

  /** The successful count is the number of results exactly when every result is a success. */
  lemma AllSuccessfulIffAllSucceeded(results: seq<SyncOutcome>)
    ensures CountSuccessful(results) == |results| <==> forall i :: 0 <= i < |results| ==> results[i].success
  {
    SuccessfulPlusFailed(results);
    NoFailuresIffAllSucceeded(results);
  }

  /** The counts logged at the end of a run. */
  datatype Summary = Summary(total: nat, successful: nat, failed: nat, skipped: nat)

  /** The summary of a run's results. */
  function Summarise(results: seq<SyncOutcome>): (m: Summary)
    requires forall i :: 0 <= i < |results| ==> Consistent(results[i])
    ensures m.total == |results|
    ensures m.successful + m.failed == m.total
    ensures m.skipped <= m.successful
    ensures m.failed == 0 <==> forall i :: 0 <= i < |results| ==> results[i].success
  {
    SuccessfulPlusFailed(results);
    SkippedAtMostSuccessful(results);
    NoFailuresIffAllSucceeded(results);
    Summary(|results|, CountSuccessful(results), CountFailed(results), CountSkipped(results))
  }

  /** What one run leaves behind: whether the configuration was loaded, every
      attempt in order, whether the report file was written, and the process
      exit status. */
  datatype RunReport = RunReport(configLoaded: bool, attempts: seq<Attempt>, reportWritten: bool, exitStatus: int)

  /** `sync_all`: a failed load ends the run with status 1 before any image is
      touched; otherwise every image is synced in order, the report is written
      when `writeOk` (a failed write is only logged), and the status is 1
      exactly when some image failed. */
  function SyncAll(s: Syncer, config: Result<seq<ImageConfig>, string>, rt: Runtime, writeOk: bool): (r: RunReport)
    ensures config.Failure? ==> !r.configLoaded && r.attempts == [] && !r.reportWritten && r.exitStatus == 1
    ensures config.Success? ==> r.configLoaded && |r.attempts| == |config.value|
    ensures config.Success? ==> r.reportWritten == writeOk
    ensures r.exitStatus == 0 || r.exitStatus == 1
  {
    match config
    case Failure(_) => RunReport(false, [], false, 1)
    case Success(images) =>
      var attempts := SyncEach(images, SyncStep(s, rt), []);
      var failed := CountFailed(Outcomes(attempts));
      RunReport(true, attempts, writeOk, if failed > 0 then 1 else 0)
  }

  /** The whole program: construct from the environment (an uncaught error and
      status 1 when either value is missing or empty), then `sync_all`. */
  function Run(registry: Option<string>, namespace: Option<string>, config: Result<seq<ImageConfig>, string>,
               rt: Runtime, writeOk: bool): (r: RunReport)
    ensures r.exitStatus == 0 || r.exitStatus == 1
    ensures r.configLoaded ==> Truthy(registry) && Truthy(namespace) && config.Success?
  {
    match NewSyncer(registry, namespace)
    case Failure(_) => RunReport(false, [], false, 1)
    case Success(s) => SyncAll(s, config, rt, writeOk)
  }

  /** Missing destination coordinates stop the run before the configuration
      is read: no attempt, no command, no report, status 1, whatever the
      configuration holds. */
  lemma MissingEnvironmentStopsFirst(registry: Option<string>, namespace: Option<string>,
                                     config: Result<seq<ImageConfig>, string>, rt: Runtime, writeOk: bool)
    requires !Truthy(registry) || !Truthy(namespace)
    ensures Run(registry, namespace, config, rt, writeOk) == RunReport(false, [], false, 1)
  {
  }

  /** A loaded run keeps one consistent result per configured image, in
      configuration order, each for that image's source and derived target. */
  lemma OneOutcomePerImage(registry: Option<string>, namespace: Option<string>, images: seq<ImageConfig>,
                           rt: Runtime, writeOk: bool)
    requires Truthy(registry) && Truthy(namespace)
    ensures var r := Run(registry, namespace, Success(images), rt, writeOk);
      var results := Outcomes(r.attempts);
      && r.configLoaded
      && |results| == |images|
      && forall i :: 0 <= i < |images| ==>
        && results[i].source == images[i].source
        && results[i].platform == images[i].platform
        && results[i].target == TargetImage(images[i], registry.value, namespace.value)
        && Consistent(results[i])
  {
    var s := Syncer(registry.value, namespace.value);
    var attempts := SyncEach(images, SyncStep(s, rt), []);
    forall i | 0 <= i < |images|
      ensures && attempts[i].outcome.source == images[i].source
              && attempts[i].outcome.platform == images[i].platform
              && attempts[i].outcome.target == TargetImage(images[i], s.registry, s.namespace)
              && Consistent(attempts[i].outcome)
    {
      SyncEachAt(images, SyncStep(s, rt), [], i);
      var a := SyncImage(images[i], s.registry, s.namespace, rt, [] + Flatten(attempts[..i]));
      assert attempts[i] == a;
    }
  }

  /** The exit status is 0 exactly when the run was constructed, the
      configuration loaded, and every image succeeded (skips included). */
  lemma ExitStatusPolicy(registry: Option<string>, namespace: Option<string>, config: Result<seq<ImageConfig>, string>,
                         rt: Runtime, writeOk: bool)
    ensures var r := Run(registry, namespace, config, rt, writeOk);
      var results := Outcomes(r.attempts);
      r.exitStatus == 0 <==> r.configLoaded && forall i :: 0 <= i < |results| ==> results[i].success
  {
    var r := Run(registry, namespace, config, rt, writeOk);
    NoFailuresIffAllSucceeded(Outcomes(r.attempts));
  }

  /** Whether the report file could be written changes neither the attempts
      nor the exit status. */
  lemma ReportWriteDoesNotMatter(registry: Option<string>, namespace: Option<string>,
                                 config: Result<seq<ImageConfig>, string>, rt: Runtime)
    ensures var written := Run(registry, namespace, config, rt, true);
      var unwritten := Run(registry, namespace, config, rt, false);
      && written.attempts == unwritten.attempts
      && written.exitStatus == unwritten.exitStatus
  {
  }

  /** Appending images never changes the attempts for the images before them:
      the result list is an append-only log. */
  lemma {:induction false} SyncEachAppend(a: seq<ImageConfig>, b: seq<ImageConfig>, step: ImageStep,
                                          history: seq<DockerCommand>)
    ensures var first := SyncEach(a, step, history);
      SyncEach(a + b, step, history) == first + SyncEach(b, step, history + Flatten(first))
    decreases |a|
  {
    if |a| == 0 {
      assert a + b == b;
      assert history + Flatten([]) == history;
    } else {
      var x := step(a[0], history);
      assert (a + b)[0] == a[0];
      assert (a + b)[1..] == a[1..] + b;
      SyncEachAppend(a[1..], b, step, history + x.issued);
      var first := SyncEach(a, step, history);
      assert first[1..] == SyncEach(a[1..], step, history + x.issued);
      assert history + x.issued + Flatten(first[1..]) == history + Flatten(first);
    }
  }

  /** The summary logged by every run that loaded its configuration obeys the
      count laws: successful + failed is the number of images, no more images
      are skipped than succeeded, and nothing failed iff every image succeeded. */
  lemma RunSummaryLaws(registry: Option<string>, namespace: Option<string>, images: seq<ImageConfig>,
                       rt: Runtime, writeOk: bool)
    requires Truthy(registry) && Truthy(namespace)
    ensures var results := Outcomes(Run(registry, namespace, Success(images), rt, writeOk).attempts);
      forall i :: 0 <= i < |results| ==> Consistent(results[i])
    ensures var results := Outcomes(Run(registry, namespace, Success(images), rt, writeOk).attempts);
      var m := Summarise(results);
      && m.total == |images|
      && m.successful + m.failed == |images|
      && m.skipped <= m.successful
      && (m.failed == 0 <==> forall i :: 0 <= i < |results| ==> results[i].success)
  {
    OneOutcomePerImage(registry, namespace, images, rt, writeOk);
  }
}
