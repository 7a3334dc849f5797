/** `DockerImageSync.sync_image` in scripts/sync.py: check whether the target
    already exists, then pull, tag and push, stopping at the first failure. */
module ImageSync {
  import opened Wrappers
  import opened ImageRefs
  import opened Commands

  const AlreadyExistsMessage := "Image already exists in target registry"
  const PullFailedMessage := "Failed to pull source image"
  const TagFailedMessage := "Failed to tag image"
  const PushFailedMessage := "Failed to push image"

  /** The result record of one image. `finalised` stands for the end time and
      duration that the `finally` block writes on every path. */
  datatype SyncOutcome = SyncOutcome(
    source: string,
    target: string,
    platform: Option<string>,
    success: bool,
    skipped: bool,
    error: Option<string>,
    message: Option<string>,
    finalised: bool)

  /** The invariant every finished outcome keeps: a skip is a success, success
      is exactly the absence of an error, only a skip carries a message, and the
      timing fields are written. */
  predicate Consistent(o: SyncOutcome): (ok: bool)
    ensures ok ==> (o.skipped ==> o.error == None)
  {
    && (o.skipped ==> o.success)
    && (o.success <==> o.error.None?)
    && (o.message.Some? <==> o.skipped)
    && o.finalised
  }

  /** One image's outcome together with the commands issued for it, in order. */
  datatype Attempt = Attempt(outcome: SyncOutcome, issued: seq<DockerCommand>)

  /** A transfer step: the command and the error recorded when it fails. */
  datatype Step = Step(command: DockerCommand, failure: string)

  /** The three transfer steps for `cfg`, in the order they are attempted. */
  function TransferPlan(cfg: ImageConfig, target: string): seq<Step> {
    [ Step(Pull(cfg.source, cfg.platform), PullFailedMessage),
      Step(Tag(cfg.source, target), TagFailedMessage),
      Step(Push(target), PushFailedMessage) ]
  }

  /** Whether every command of `issued`, run in order after `history`, exited
      with status 0. */
  predicate AllSucceeded(rt: Runtime, history: seq<DockerCommand>, issued: seq<DockerCommand>)
    decreases |issued|
  {
    |issued| == 0 || (rt(history, issued[0]) == Exited(0) && AllSucceeded(rt, history + [issued[0]], issued[1..]))
  }

  /** A successful command followed by successful commands is a successful run. */
  lemma AllSucceededCons(rt: Runtime, history: seq<DockerCommand>, c: DockerCommand, rest: seq<DockerCommand>)
    requires rt(history, c) == Exited(0) && AllSucceeded(rt, history + [c], rest)
    ensures AllSucceeded(rt, history, [c] + rest)
  {
    assert ([c] + rest)[1..] == rest;
  }

  /** What running a list of steps produced: the commands issued and the error, if any. */
  datatype StepsRun = StepsRun(issued: seq<DockerCommand>, error: Option<string>)

  /** Reference semantics of a short-circuiting sequence of steps: issue each
      step's command in turn and stop at the first that fails. */
  function RunSteps(steps: seq<Step>, rt: Runtime, history: seq<DockerCommand>): (r: StepsRun)
    ensures |r.issued| <= |steps|
    decreases |steps|
  {
    if |steps| == 0 then StepsRun([], None)
    else
      var first := steps[0].command;
      var response := rt(history, first);
      if response != Exited(0) then StepsRun([first], StepError(response, steps[0].failure))
      else
        var rest := RunSteps(steps[1..], rt, history + [first]);
        StepsRun([first] + rest.issued, rest.error)
  }

  /** The commands a run of steps issues are a prefix of the steps' commands. */
  lemma {:induction false} RunStepsPrefix(steps: seq<Step>, rt: Runtime, history: seq<DockerCommand>)
    ensures var r := RunSteps(steps, rt, history);
      forall i :: 0 <= i < |r.issued| ==> r.issued[i] == steps[i].command
    decreases |steps|
  {
    if |steps| > 0 && rt(history, steps[0].command) == Exited(0) {
      RunStepsPrefix(steps[1..], rt, history + [steps[0].command]);
    }
  }

  /** A run of steps ends without an error exactly when every step ran and
      exited with status 0. */
  lemma {:induction false} RunStepsClean(steps: seq<Step>, rt: Runtime, history: seq<DockerCommand>)
    ensures var r := RunSteps(steps, rt, history);
      r.error.None? <==> |r.issued| == |steps| && AllSucceeded(rt, history, r.issued)
    decreases |steps|
  {
    if |steps| > 0 {
      var first := steps[0].command;
      if rt(history, first) == Exited(0) {
        var rest := RunSteps(steps[1..], rt, history + [first]);
        RunStepsClean(steps[1..], rt, history + [first]);
        assert RunSteps(steps, rt, history).issued[1..] == rest.issued;
      }
    }
  }

  /** A run of steps that ends with an error ran every step before the last
      issued one successfully. */
  lemma {:induction false} RunStepsFailurePrefix(steps: seq<Step>, rt: Runtime, history: seq<DockerCommand>)
    requires RunSteps(steps, rt, history).error.Some?
    ensures var r := RunSteps(steps, rt, history);
      |r.issued| > 0 && AllSucceeded(rt, history, r.issued[..|r.issued| - 1])
    decreases |steps|
  {
    var first := steps[0].command;
    var r := RunSteps(steps, rt, history);
    if rt(history, first) == Exited(0) {
      var rest := RunSteps(steps[1..], rt, history + [first]);
      RunStepsFailurePrefix(steps[1..], rt, history + [first]);
      var k := |rest.issued| - 1;
      assert r.issued == [first] + rest.issued;
      assert r.issued[..k + 1] == [first] + rest.issued[..k];
      AllSucceededCons(rt, history, first, rest.issued[..k]);
    } else {
      assert r.issued == [first];
      assert r.issued[..0] == [];
    }
  }

  /** A run of steps that ends with an error stopped at a step that did not
      exit with status 0, and records that step's error. */
  lemma {:induction false} RunStepsFailureLast(steps: seq<Step>, rt: Runtime, history: seq<DockerCommand>)
    requires RunSteps(steps, rt, history).error.Some?
    ensures var r := RunSteps(steps, rt, history);
      var k := |r.issued| - 1;
      && k >= 0
      && rt(history + r.issued[..k], r.issued[k]) != Exited(0)
      && r.error == StepError(rt(history + r.issued[..k], r.issued[k]), steps[k].failure)
    decreases |steps|
  {
    var first := steps[0].command;
    var r := RunSteps(steps, rt, history);
    if rt(history, first) == Exited(0) {
      var rest := RunSteps(steps[1..], rt, history + [first]);
      RunStepsFailureLast(steps[1..], rt, history + [first]);
      var k := |rest.issued| - 1;
      assert r.issued == [first] + rest.issued;
      assert history + r.issued[..k + 1] == history + [first] + rest.issued[..k] by {
        assert r.issued[..k + 1] == [first] + rest.issued[..k];
      }
      assert r.issued[k + 1] == rest.issued[k];
      assert steps[k + 1] == steps[1..][k];
    } else {
      assert r.issued == [first];
      assert history + r.issued[..0] == history;
    }
  }

  /** Marks the outcome finished; the `finally` block runs on every path. */
  function Finalise(o: SyncOutcome): (f: SyncOutcome)
    ensures f.finalised
    ensures f.(finalised := o.finalised) == o
  {
    o.(finalised := true)
  }

  /** One image's sync against the runtime, given the commands issued earlier in the run. */
  function SyncImage(cfg: ImageConfig, registry: string, namespace: string, rt: Runtime, history: seq<DockerCommand>): (a: Attempt)
    ensures Consistent(a.outcome)
    ensures a.outcome.source == cfg.source && a.outcome.platform == cfg.platform
    ensures a.outcome.target == TargetImage(cfg, registry, namespace)
    ensures 1 <= |a.issued| <= 4 && a.issued[0] == Inspect(a.outcome.target)
    ensures a.outcome.skipped <==> ImageExists(rt(history, a.issued[0]))
    ensures a.outcome.skipped <==> |a.issued| == 1
  {
    var target := TargetImage(cfg, registry, namespace);
    var started := SyncOutcome(cfg.source, target, cfg.platform, false, false, None, None, false);
    var check := Inspect(target);
    if ImageExists(rt(history, check)) then
      Attempt(Finalise(started.(success := true, skipped := true, message := Some(AlreadyExistsMessage))), [check])
    else
      var pull := Pull(cfg.source, cfg.platform);
      var tag := Tag(cfg.source, target);
      var push := Push(target);
      match StepError(rt(history + [check], pull), PullFailedMessage)
      case Some(e) => Attempt(Finalise(started.(error := Some(e))), [check, pull])
      case None =>
        match StepError(rt(history + [check, pull], tag), TagFailedMessage)
        case Some(e) => Attempt(Finalise(started.(error := Some(e))), [check, pull, tag])
        case None =>
          match StepError(rt(history + [check, pull, tag], push), PushFailedMessage)
          case Some(e) => Attempt(Finalise(started.(error := Some(e))), [check, pull, tag, push])
          case None => Attempt(Finalise(started.(success := true)), [check, pull, tag, push])
  }

  /** When the existence check reports the target present, nothing is pulled,
      tagged or pushed, and the outcome is a skip with the "already exists" message. */
  lemma ExistingTargetIsSkipped(cfg: ImageConfig, registry: string, namespace: string, rt: Runtime, history: seq<DockerCommand>)
    requires rt(history, Inspect(TargetImage(cfg, registry, namespace))) == Exited(0)
    ensures var a := SyncImage(cfg, registry, namespace, rt, history);
      && a.issued == [Inspect(TargetImage(cfg, registry, namespace))]
      && a.outcome.success && a.outcome.skipped && a.outcome.error == None
      && a.outcome.message == Some(AlreadyExistsMessage)
  {
  }

  /** A check that exits non-zero or raises reads as "not present": the pull is
      attempted next. */
  lemma FailedCheckLeadsToPull(cfg: ImageConfig, registry: string, namespace: string, rt: Runtime, history: seq<DockerCommand>)
    requires rt(history, Inspect(TargetImage(cfg, registry, namespace))) != Exited(0)
    ensures var a := SyncImage(cfg, registry, namespace, rt, history);
      && !a.outcome.skipped
      && |a.issued| >= 2
      && a.issued[1] == Pull(cfg.source, cfg.platform)
  {
  }

  /** After a negative check the attempt is exactly the short-circuiting run of
      the transfer plan: the same commands in the same order, the same error,
      and success exactly when that run has no error. */
  lemma {:induction false} SyncRunsPlan(cfg: ImageConfig, registry: string, namespace: string, rt: Runtime, history: seq<DockerCommand>)
    requires rt(history, Inspect(TargetImage(cfg, registry, namespace))) != Exited(0)
    ensures var target := TargetImage(cfg, registry, namespace);
      var a := SyncImage(cfg, registry, namespace, rt, history);
      var run := RunSteps(TransferPlan(cfg, target), rt, history + [Inspect(target)]);
      && a.issued == [Inspect(target)] + run.issued
      && a.outcome.error == run.error
      && a.outcome.success == run.error.None?
  {
    var target := TargetImage(cfg, registry, namespace);
    var check := Inspect(target);
    var plan := TransferPlan(cfg, target);
    var h := history + [check];
    var pull := Pull(cfg.source, cfg.platform);
    var tag := Tag(cfg.source, target);
    var run := RunSteps(plan, rt, h);
    assert h + [pull] == history + [check, pull];
    assert h + [pull] + [tag] == history + [check, pull, tag];
    // r1, r2 and r3 are never read: naming them makes Dafny unfold RunSteps once per step.
    var r1 := RunSteps(plan[1..], rt, h + [pull]);
    var r2 := RunSteps(plan[2..], rt, h + [pull] + [tag]);
    var r3 := RunSteps(plan[3..], rt, h + [pull] + [tag] + [Push(target)]);
    assert plan[1..][1..] == plan[2..];
    assert plan[2..][1..] == plan[3..];
    assert plan[3..] == [];
  }

  /** A failed pull stops the attempt: neither tag nor push is issued and the
      error is the pull's. */
  lemma FailedPullStops(cfg: ImageConfig, registry: string, namespace: string, rt: Runtime, history: seq<DockerCommand>)
    requires var target := TargetImage(cfg, registry, namespace);
      && rt(history, Inspect(target)) != Exited(0)
      && rt(history + [Inspect(target)], Pull(cfg.source, cfg.platform)) != Exited(0)
    ensures var target := TargetImage(cfg, registry, namespace);
      var a := SyncImage(cfg, registry, namespace, rt, history);
      && a.issued == [Inspect(target), Pull(cfg.source, cfg.platform)]
      && !a.outcome.success
      && a.outcome.error == StepError(rt(history + [Inspect(target)], Pull(cfg.source, cfg.platform)), PullFailedMessage)
  {
  }

  /** A failed tag after a good pull stops the attempt before the push. */
  lemma FailedTagStops(cfg: ImageConfig, registry: string, namespace: string, rt: Runtime, history: seq<DockerCommand>)
    requires var target := TargetImage(cfg, registry, namespace);
      var pull := Pull(cfg.source, cfg.platform);
      && rt(history, Inspect(target)) != Exited(0)
      && rt(history + [Inspect(target)], pull) == Exited(0)
      && rt(history + [Inspect(target), pull], Tag(cfg.source, target)) != Exited(0)
    ensures var target := TargetImage(cfg, registry, namespace);
      var a := SyncImage(cfg, registry, namespace, rt, history);
      && a.issued == [Inspect(target), Pull(cfg.source, cfg.platform), Tag(cfg.source, target)]
      && Push(target) !in a.issued
      && !a.outcome.success
      && a.outcome.error == StepError(rt(history + [Inspect(target), Pull(cfg.source, cfg.platform)], Tag(cfg.source, target)), TagFailedMessage)
  {
  }

  /** A failed push after a good pull and tag leaves the push's error. */
  lemma FailedPushReported(cfg: ImageConfig, registry: string, namespace: string, rt: Runtime, history: seq<DockerCommand>)
    requires var target := TargetImage(cfg, registry, namespace);
      var pull := Pull(cfg.source, cfg.platform);
      var tag := Tag(cfg.source, target);
      && rt(history, Inspect(target)) != Exited(0)
      && rt(history + [Inspect(target)], pull) == Exited(0)
      && rt(history + [Inspect(target), pull], tag) == Exited(0)
      && rt(history + [Inspect(target), pull, tag], Push(target)) != Exited(0)
    ensures var target := TargetImage(cfg, registry, namespace);
      var a := SyncImage(cfg, registry, namespace, rt, history);
      var pull := Pull(cfg.source, cfg.platform);
      var tag := Tag(cfg.source, target);
      && a.issued == [Inspect(target), pull, tag, Push(target)]
      && !a.outcome.success
      && a.outcome.error == StepError(rt(history + [Inspect(target), pull, tag], Push(target)), PushFailedMessage)
  {
  }

  /** An attempt succeeds without skipping exactly when the check is negative
      and pull, tag and push all exit with status 0. */
  lemma TransferSucceedsIff(cfg: ImageConfig, registry: string, namespace: string, rt: Runtime, history: seq<DockerCommand>)
    ensures var target := TargetImage(cfg, registry, namespace);
      var a := SyncImage(cfg, registry, namespace, rt, history);
      var pull := Pull(cfg.source, cfg.platform);
      var tag := Tag(cfg.source, target);
      (a.outcome.success && !a.outcome.skipped) <==>
        && rt(history, Inspect(target)) != Exited(0)
        && rt(history + [Inspect(target)], pull) == Exited(0)
        && rt(history + [Inspect(target), pull], tag) == Exited(0)
        && rt(history + [Inspect(target), pull, tag], Push(target)) == Exited(0)
  {
  }
}
