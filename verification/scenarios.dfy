/** Two concrete runs: a configuration of `nginx:latest` (no override) and
    `redis:7` (override `cache`) synced into `myreg/myns`, where the registry
    already holds the first image. */
module Scenarios {
  import opened Wrappers
  import opened ImageRefs
  import opened Commands
  import opened ImageSync
  import opened SyncRun

  const Nginx := ImageConfig("nginx:latest", None, None)
  const Redis := ImageConfig("redis:7", Some("cache"), None)

  /** A registry that holds `myreg/myns/nginx:latest` and nothing else; the
      push of `myreg/myns/cache` succeeds exactly when `pushWorks`. */
  function Registry(pushWorks: bool): Runtime {
    (history: seq<DockerCommand>, c: DockerCommand) =>
      if c == Inspect("myreg/myns/nginx:latest") then Exited(0)
      else if c.Inspect? then Exited(1)
      else if c == Push("myreg/myns/cache") && !pushWorks then Exited(1)
      else Exited(0)
  }

  lemma NginxTarget()
    ensures TargetImage(Nginx, "myreg", "myns") == "myreg/myns/nginx:latest"
  {
    var src := Nginx.source;
    assert IsLastSegment(src, '/', src) by {
      assert forall i | 0 <= i < |src| :: src[i] != '/';
    }
    LastSegmentUnique(src, '/', src, ImageName(Nginx));
  }

  lemma RedisTarget()
    ensures TargetImage(Redis, "myreg", "myns") == "myreg/myns/cache"
  {
    TargetWithOverride(Redis, "myreg", "myns");
  }

  /** `nginx:latest` is found under its derived target and skipped. */
  lemma NginxSkipped(pushWorks: bool, history: seq<DockerCommand>)
    ensures var a := SyncImage(Nginx, "myreg", "myns", Registry(pushWorks), history);
      && a.issued == [Inspect("myreg/myns/nginx:latest")]
      && a.outcome.success && a.outcome.skipped
  {
    NginxTarget();
    ExistingTargetIsSkipped(Nginx, "myreg", "myns", Registry(pushWorks), history);
  }

  /** `redis:7` is not found under `myreg/myns/cache`, so it is pulled, tagged
      and pushed; it succeeds exactly when the push does. */
  lemma RedisTransferred(pushWorks: bool, history: seq<DockerCommand>)
    ensures var a := SyncImage(Redis, "myreg", "myns", Registry(pushWorks), history);
      && a.issued == [Inspect("myreg/myns/cache"), Pull("redis:7", None),
                      Tag("redis:7", "myreg/myns/cache"), Push("myreg/myns/cache")]
      && !a.outcome.skipped
      && (a.outcome.success <==> pushWorks)
      && (!pushWorks ==> a.outcome.error == Some(PushFailedMessage))
  {
    RedisTarget();
    var rt := Registry(pushWorks);
    assert Inspect("myreg/myns/cache") != Inspect("myreg/myns/nginx:latest");
    assert rt(history, Inspect("myreg/myns/cache")) == Exited(1);
    assert Pull("redis:7", None) != Push("myreg/myns/cache");
    assert Tag("redis:7", "myreg/myns/cache") != Push("myreg/myns/cache");
    if pushWorks {
      TransferSucceedsIff(Redis, "myreg", "myns", rt, history);
    } else {
      FailedPushReported(Redis, "myreg", "myns", rt, history);
    }
  }

  /** The two attempts of the run, and its exit status. */
  lemma ScenarioRun(pushWorks: bool)
    ensures var r := Run(Some("myreg"), Some("myns"), Success([Nginx, Redis]), Registry(pushWorks), true);
      && |r.attempts| == 2
      && r.attempts[0] == SyncImage(Nginx, "myreg", "myns", Registry(pushWorks), [])
      && r.attempts[1] == SyncImage(Redis, "myreg", "myns", Registry(pushWorks), r.attempts[0].issued)
      && r.reportWritten
      && (r.exitStatus == 0 <==> pushWorks)
  {
    var rt := Registry(pushWorks);
    var step := SyncStep(Syncer("myreg", "myns"), rt);
    var attempts := SyncEach([Nginx, Redis], step, []);
    SyncEachAt([Nginx, Redis], step, [], 0);
    SyncEachAt([Nginx, Redis], step, [], 1);
    assert attempts[..1] == [attempts[0]];
    assert [] + Flatten([attempts[0]]) == attempts[0].issued;
    NginxSkipped(pushWorks, []);
    RedisTransferred(pushWorks, attempts[0].issued);
    ExitStatusPolicy(Some("myreg"), Some("myns"), Success([Nginx, Redis]), rt, true);
    var results := Outcomes(attempts);
    assert forall i :: 0 <= i < 2 ==> results[i] == attempts[i].outcome;
  }

  /** The first image is skipped, the second transferred: two successes, one
      of them a skip, none failed. */
  lemma ScenarioCounts()
    ensures var r := Run(Some("myreg"), Some("myns"), Success([Nginx, Redis]), Registry(true), true);
      var results := Outcomes(r.attempts);
      && CountSuccessful(results) == 2 && CountSkipped(results) == 1 && CountFailed(results) == 0
  {
    ScenarioRun(true);
    var r := Run(Some("myreg"), Some("myns"), Success([Nginx, Redis]), Registry(true), true);
    NginxSkipped(true, []);
    RedisTransferred(true, r.attempts[0].issued);
    var results := Outcomes(r.attempts);
    var init := results[..1];
    assert results[..|results| - 1] == init;
    assert init[..|init| - 1] == [];
    assert init[|init| - 1] == results[0];
    assert CountSuccessful(init) == 1 && CountSkipped(init) == 1 && CountFailed(init) == 0;
  }
}
