/** The container-runtime command lines issued by scripts/sync.py, and the
    answers the runtime gives them. */
module Commands {
  import opened Wrappers

  /** One invocation of the `docker` tool. */
  datatype DockerCommand =
    | Pull(source: string, platform: Option<string>)   // pull_image
    | Tag(source: string, target: string)              // tag_image
    | Push(target: string)                             // push_image
    | Inspect(image: string)                           // check_remote_image_exists

  /** The argument vector handed to the process runner. The pull appends
      `--platform P` after the reference, and only for a truthy platform. */
  function Argv(c: DockerCommand): (argv: seq<string>)
    ensures |argv| >= 3 && argv[0] == "docker"
  {
    match c
    case Pull(src, plat) =>
      ["docker", "pull", src] + (if Truthy(plat) then ["--platform", plat.value] else [])
    case Tag(src, dst) => ["docker", "tag", src, dst]
    case Push(dst) => ["docker", "push", dst]
    case Inspect(img) => ["docker", "manifest", "inspect", img]
  }

  /** The command with an empty platform replaced by none: the two issue the same argv. */
  function Normalize(c: DockerCommand): DockerCommand {
    if c.Pull? && !Truthy(c.platform) then Pull(c.source, None) else c
  }

  /** Reads an argument vector back as a command; `None` for any vector that
      no builder produces. */
  function Parse(argv: seq<string>): (c: Option<DockerCommand>)
    ensures c.Some? ==> Normalize(c.value) == c.value
  {
    if |argv| < 3 || argv[0] != "docker" then None
    else if argv[1] == "pull" && |argv| == 3 then Some(Pull(argv[2], None))
    else if argv[1] == "pull" && |argv| == 5 && argv[3] == "--platform" && argv[4] != "" then
      Some(Pull(argv[2], Some(argv[4])))
    else if argv[1] == "tag" && |argv| == 4 then Some(Tag(argv[2], argv[3]))
    else if argv[1] == "push" && |argv| == 3 then Some(Push(argv[2]))
    else if argv[1] == "manifest" && argv[2] == "inspect" && |argv| == 4 then Some(Inspect(argv[3]))
    else None
  }

  /** Every built argv parses back to the command it was built from, up to an
      empty platform. */
  lemma ParseArgv(c: DockerCommand)
    ensures Parse(Argv(c)) == Some(Normalize(c))
  {
  }

  /** Every argv that parses is the one its command builds. */
  lemma ArgvParse(argv: seq<string>)
    requires Parse(argv).Some?
    ensures Argv(Parse(argv).value) == argv
  {
  }

  /** Two commands issue the same argv exactly when they agree up to an empty platform. */
  lemma ArgvInjective(c1: DockerCommand, c2: DockerCommand)
    ensures Argv(c1) == Argv(c2) <==> Normalize(c1) == Normalize(c2)
  {
    ParseArgv(c1);
    ParseArgv(c2);
    if Normalize(c1) == Normalize(c2) {
      assert Argv(c1) == Argv(Normalize(c1));
      assert Argv(c2) == Argv(Normalize(c2));
    }
  }

  /** How the runtime answered one invocation: the process exited with a status,
      or invoking it raised (the tool is missing, say) with an error text. */
  datatype Response = Exited(status: int) | Raised(message: string)

  /** The runtime seen as an oracle: its answer to a command may depend on every
      command issued before it in the run. */
  type Runtime = (seq<DockerCommand>, DockerCommand) -> Response

  /** `check_remote_image_exists`: present exactly when the manifest inspection
      exits with status 0; a non-zero status and a raised invocation both read
      as absent. */
  function ImageExists(r: Response): (present: bool)
    ensures present <==> r == Exited(0)
  {
    match r
    case Exited(status) => status == 0
    case Raised(_) => false
  }

  /** The error a transfer step leaves: none on status 0; the step's own message
      when the runner reports a failed process (`run_docker_command` returns
      false); the exception's text when the invocation raised. */
  function StepError(r: Response, stepMessage: string): (err: Option<string>)
    ensures err.None? <==> r == Exited(0)
    ensures r.Exited? && r.status != 0 ==> err == Some(stepMessage)
    ensures r.Raised? ==> err == Some(r.message)
  {
    match r
    case Exited(status) => if status == 0 then None else Some(stepMessage)
    case Raised(msg) => Some(msg)
  }
}
