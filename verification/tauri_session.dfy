/** The session commands of front/src-tauri/src/lib.rs: `start_cv_feed`,
    `stop_cv_feed` and `write_workout_id`. Each command is one step on the
    session state. Its environment is a parameter: whether the repository
    root and the CV script resolve, how spawning behaves, whether the child's
    stdout can be taken, and what the session config holds. */
module TauriSession {
  import opened Wrappers
  import opened Whitespace

  /** An operating-system process, known only by its identity. */
  type Child = nat

  /** `SessionState`: the CV child, if one is running, and the session
      script children in the order they were started. */
  datatype SessionState = SessionState(cvChild: Option<Child>, scripts: seq<Child>)

  const Idle: SessionState := SessionState(None, [])

  /** The ways `start_cv_feed` fails. */
  datatype StartError =
    | RepoRootUnavailable   // `repo_root()` could not canonicalize the crate's `../..`
    | ScriptNotFound        // `cv/cv_stdout_frames.py` does not resolve
    | SpawnFailed           // neither `python3` nor `python` could be spawned
    | NoStdout              // the child's stdout could not be taken

  /** What the commands observe of the machine. `spawn(program, args)` is
      the child when spawning succeeds. `sessionScripts` is the
      `session_scripts` list of `session_config.json`: `None` when the file
      cannot be read or parsed, and the empty list when the key is absent. */
  datatype Env = Env(
    repoRoot: bool,
    scriptFound: bool,
    spawn: (string, seq<string>) -> Option<Child>,
    stdoutTaken: bool,
    sessionScripts: Option<seq<string>>)

  datatype StartOutcome = StartOutcome(state: SessionState, result: Result<(), StartError>)

  /** The CV script's path, as passed to the interpreter. */
  const CvScript: string := "cv/cv_stdout_frames.py"

  /** Spawn the CV script with `python3`, falling back to `python` only when
      that fails. */
  function Interpreter(spawn: (string, seq<string>) -> Option<Child>): (r: Option<Child>)
    ensures spawn("python3", [CvScript]).Some? ==> r == spawn("python3", [CvScript])
    ensures spawn("python3", [CvScript]).None? ==> r == spawn("python", [CvScript])
    ensures r.None? <==> spawn("python3", [CvScript]).None? && spawn("python", [CvScript]).None?
  {
    match spawn("python3", [CvScript])
    case Some(c) => Some(c)
    case None => spawn("python", [CvScript])
  }

  /** One entry of `session_scripts`: skipped when it is empty or has no
      words; otherwise its first word is run with the rest as arguments, and
      the child is kept only if spawning succeeded. */
  function Launch(spawn: (string, seq<string>) -> Option<Child>, cmd: string): (r: Option<Child>)
    ensures AllWhitespace(cmd) ==> r.None?
    ensures !AllWhitespace(cmd) ==>
      var words := Tokens(cmd);
      |words| > 0 && r == spawn(words[0], words[1..])
    ensures r.Some? ==>
      var words := Tokens(cmd);
      |words| > 0 && r == spawn(words[0], words[1..])
  {
    if cmd == [] then None
    else match CommandLine(cmd)
      case None => None
      case Some((program, args)) => spawn(program, args)
  }

  /** The children the session scripts leave behind, in config order. */
  function LaunchScripts(spawn: (string, seq<string>) -> Option<Child>, cmds: seq<string>): (r: seq<Child>)
    ensures |r| <= |cmds|
    ensures forall i :: 0 <= i < |cmds| && Launch(spawn, cmds[i]).Some? ==> Launch(spawn, cmds[i]).value in r
    ensures forall c :: c in r ==> exists i :: 0 <= i < |cmds| && Launch(spawn, cmds[i]) == Some(c)
    ensures (forall i :: 0 <= i < |cmds| ==> AllWhitespace(cmds[i])) ==> r == []
  {
    if cmds == [] then []
    else
      var rest := LaunchScripts(spawn, cmds[1..]);
      assert forall i :: 1 <= i < |cmds| ==> cmds[i] == cmds[1..][i - 1];
      match Launch(spawn, cmds[0])
      case Some(c) => [c] + rest
      case None => rest
  }

  /** Launching two lists of commands one after the other keeps the children
      of each list in order. */
  lemma {:induction false} LaunchScriptsAppend(spawn: (string, seq<string>) -> Option<Child>, a: seq<string>, b: seq<string>)
    ensures LaunchScripts(spawn, a + b) == LaunchScripts(spawn, a) + LaunchScripts(spawn, b)
    decreases |a|
  {
    if a == [] {
      assert a + b == b;
    } else {
      assert (a + b)[1..] == a[1..] + b;
      LaunchScriptsAppend(spawn, a[1..], b);
    }
  }

  /** The script children a successful start adds: none when the session
      config cannot be read or parsed, otherwise one for each command whose
      spawn succeeded. */
  function ScriptChildren(env: Env): (r: seq<Child>)
    ensures env.sessionScripts.None? ==> r == []
    ensures env.sessionScripts.Some? ==>
      var cmds := env.sessionScripts.value;
      && |r| <= |cmds|
      && (forall i :: 0 <= i < |cmds| && Launch(env.spawn, cmds[i]).Some? ==> Launch(env.spawn, cmds[i]).value in r)
      && (forall c :: c in r ==> exists i :: 0 <= i < |cmds| && Launch(env.spawn, cmds[i]) == Some(c))
  {
    match env.sessionScripts
    case None => []
    case Some(cmds) => LaunchScripts(env.spawn, cmds)
  }

  /** `start_cv_feed`. With a CV child already recorded it does nothing and
      succeeds. Otherwise it fails, leaving the state as it was, when the
      repository root or the script does not resolve, when no interpreter
      spawns, or when the child's stdout cannot be taken; on success the new
      child is recorded and the session scripts' children are appended. */
  function StartCvFeed(s: SessionState, env: Env): (r: StartOutcome)
    ensures s.cvChild.Some? ==> r == StartOutcome(s, Ok(()))
    ensures r.result.Err? ==> r.state == s
    ensures r.result == Err(RepoRootUnavailable) <==> s.cvChild.None? && !env.repoRoot
    ensures r.result == Err(ScriptNotFound) <==> s.cvChild.None? && env.repoRoot && !env.scriptFound
    ensures r.result == Err(SpawnFailed) <==>
      s.cvChild.None? && env.repoRoot && env.scriptFound && Interpreter(env.spawn).None?
    ensures r.result == Err(NoStdout) <==>
      s.cvChild.None? && env.repoRoot && env.scriptFound && Interpreter(env.spawn).Some? && !env.stdoutTaken
    ensures r.result.Ok? ==> r.state.cvChild.Some?
    ensures r.result.Ok? && s.cvChild.None? ==>
      && r.state.cvChild == Interpreter(env.spawn)
      && r.state.scripts == s.scripts + ScriptChildren(env)
    ensures s.scripts <= r.state.scripts
  {
    if s.cvChild.Some? then StartOutcome(s, Ok(()))
    else if !env.repoRoot then StartOutcome(s, Err(RepoRootUnavailable))
    else if !env.scriptFound then StartOutcome(s, Err(ScriptNotFound))
    else match Interpreter(env.spawn)
      case None => StartOutcome(s, Err(SpawnFailed))
      case Some(child) =>
        if !env.stdoutTaken then StartOutcome(s, Err(NoStdout))
        else StartOutcome(SessionState(Some(child), s.scripts + ScriptChildren(env)), Ok(()))
  }

  /** Starting again after a successful start changes nothing, whatever the
      environment now is. */
  lemma StartTwice(s: SessionState, first: Env, second: Env)
    requires StartCvFeed(s, first).result.Ok?
    ensures var started := StartCvFeed(s, first).state;
      StartCvFeed(started, second) == StartOutcome(started, Ok(()))
  {
  }

  /** `stop_cv_feed`: take and kill the CV child, then drain and kill every
      script child. Returns the state after and the children killed, in
      order. */
  function StopCvFeed(s: SessionState): (r: (SessionState, seq<Child>))
    ensures r.0 == Idle
    ensures forall c :: c in r.1 <==> s.cvChild == Some(c) || c in s.scripts
    ensures |r.1| == |s.scripts| + (if s.cvChild.Some? then 1 else 0)
  {
    var cv := match s.cvChild case Some(c) => [c] case None => [];
    (Idle, cv + s.scripts)
  }

  /** Stopping twice kills nothing the second time. */
  lemma StopIsIdempotent(s: SessionState)
    ensures StopCvFeed(StopCvFeed(s).0) == (Idle, [])
  {
  }

  /** A successful start from an idle session followed by a stop kills
      exactly the CV child and the children of the session scripts, in the
      order they were started, and leaves the session idle again. */
  lemma StartThenStop(env: Env)
    requires env.repoRoot && env.scriptFound && env.stdoutTaken
    requires Interpreter(env.spawn).Some?
    ensures var started := StartCvFeed(Idle, env).state;
      StopCvFeed(started) == (Idle, [Interpreter(env.spawn).value] + ScriptChildren(env))
  {
    var scripts := ScriptChildren(env);
    assert Idle.scripts + scripts == scripts;
    var started := StartCvFeed(Idle, env).state;
    assert started == SessionState(Interpreter(env.spawn), scripts);
  }

  /** `char::to_ascii_lowercase`: only 'A'..'Z' change. */
  function AsciiLower(c: char): (r: char)
    ensures 'A' <= c <= 'Z' ==> r as int == c as int + 32
    ensures !('A' <= c <= 'Z') ==> r == c
  {
    if 'A' <= c <= 'Z' then (c as int + 32) as char else c
  }

  predicate IsAsciiUpper(c: char)
  {
    'A' <= c <= 'Z'
  }

  /** `str::eq_ignore_ascii_case`, character by character: equal lengths, and
      at each position the same character or the upper- and lower-case forms
      of one ASCII letter. */
  function EqIgnoreAsciiCase(a: string, b: string): (r: bool)
    ensures r <==> |a| == |b| && forall i :: 0 <= i < |a| ==>
      || a[i] == b[i]
      || (IsAsciiUpper(a[i]) && b[i] as int == a[i] as int + 32)
      || (IsAsciiUpper(b[i]) && a[i] as int == b[i] as int + 32)
  {
    |a| == |b| && forall i :: 0 <= i < |a| ==> AsciiLower(a[i]) == AsciiLower(b[i])
  }

  /** The `session` value `write_workout_id` stores: "on" for any spelling
      of "on" in upper or lower case, "off" for everything else. */
  function SessionFlag(session: string): (r: string)
    ensures r == "on" || r == "off"
    ensures r == "on" <==>
      |session| == 2 && (session[0] == 'o' || session[0] == 'O') && (session[1] == 'n' || session[1] == 'N')
  {
    if EqIgnoreAsciiCase(session, "on") then "on" else "off"
  }

  /** The one JSON line `workout_id.json` holds. */
  datatype WorkoutIdLine = WorkoutIdLine(workoutId: string, session: string)

  /** `write_workout_id`: replace the file with one line for the given
      workout and the normalised session flag. `repoRoot` and `writeOk` say
      whether the root resolves and whether the write succeeds. */
  function WriteWorkoutId(repoRoot: bool, writeOk: bool, workoutId: string, session: string): (r: Result<WorkoutIdLine, string>)
    ensures r.Ok? <==> repoRoot && writeOk
    ensures r.Ok? ==> r.value.workoutId == workoutId
    ensures r.Ok? ==> (r.value.session == "on" <==> EqIgnoreAsciiCase(session, "on"))
    ensures r.Ok? ==> r.value.session in {"on", "off"}
  {
    if !repoRoot then Err("repo root")
    else if !writeOk then Err("write failed")
    else Ok(WorkoutIdLine(workoutId, SessionFlag(session)))
  }

  /** Normalising is idempotent: writing a stored flag back stores it again. */
  lemma SessionFlagIdempotent(session: string)
    ensures SessionFlag(SessionFlag(session)) == SessionFlag(session)
  {
  }
}
