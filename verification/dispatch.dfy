/**
 The command dispatcher: `run_command`, the tokenize-then-run wrapper
 `__process_command`, and what the forked child of `exec_command` does with
 the `history`, `!` and external-program branches.

 Every operating-system call is an oracle held in `Env`. `run_command` only
 ever sees, for each launch, the value `exec_command` returns in the parent
 (-1 when `fork` fails, otherwise what `wait` returned); the child's exit code
 never flows back, so the child's behaviour is modelled apart, by `ChildRun`.
 */
module Dispatch {
  import opened Options
  import opened Tokens
  import opened History
  import opened Recall

  /** Whether a launched stage is connected to the pipeline's pipe (`exec_command`'s `pipe` argument is non-NULL). */
  datatype Channel = Direct | Piped

  /** The abstract operating system and the collaborators the core calls but does not define. */
  datatype Env = Env(
    launch: (seq<string>, Channel, nat) -> int,  // exec_command's return value in the parent for the
                                                 // n-th launch of one dispatch (0, or 1 for a right stage)
    pipeOk: bool,                            // whether pipe() succeeds
    home: Option<string>,                    // getenv("HOME"); None is a NULL pointer
    chdir: Option<string> -> int,            // chdir()'s return value for a path (None: NULL)
    parse: string -> seq<string>,            // parse_command: the tokens of a line
    atoi: string -> int,                     // atoi on the recall index token
    resolves: string -> bool)                // whether execvp finds the program

  /** Observable actions of one dispatch, in the order they happen. */
  datatype Effect =
    | ChangeDir(path: Option<string>)
    | CreatePipe
    | Spawn(argv: seq<string>, channel: Channel)

  /** What `run_command` returns together with what it did on the way. */
  datatype Run = Run(status: int, effects: seq<Effect>)

  predicate NoSpawn(effects: seq<Effect>) {
    forall k :: 0 <= k < |effects| ==> !effects[k].Spawn?
  }

  datatype CdTarget = Home | Dir(path: string)

  /** The branch `run_command` takes. */
  datatype Branch =
    | Exit
    | Cd(target: CdTarget)
    | PipeAtStart
    | Pipeline(left: seq<string>, right: seq<string>)
    | Plain

  /**
   The decision order of `run_command`: `exit` first, then (after the pipe
   scan) `cd`, then a pipe, then a plain launch. `cd` wins over a pipe and a
   leading `"|"` is refused.
   */
  function Classify(tokens: seq<string>): (b: Branch)
    requires 0 < |tokens|
    ensures b.Exit? <==> tokens[0] == "exit"
    ensures b.Cd? <==> tokens[0] == "cd"
    ensures b.Cd? ==> (b.target.Home? <==> |tokens| == 1 || tokens[1] == "~")
    ensures b.Cd? && b.target.Dir? ==> b.target.path == tokens[1]
    ensures b.PipeAtStart? <==> tokens[0] == Bar
    ensures b.Pipeline? <==> tokens[0] !in {"exit", "cd", Bar} && Bar in tokens
    ensures b.Pipeline? ==> 0 < |b.left| && Bar !in b.left && b.left + [Bar] + b.right == tokens
    ensures b.Plain? <==> tokens[0] !in {"exit", "cd"} && Bar !in tokens
  {
    if tokens[0] == "exit" then Exit
    else
      var idx := FindPipe(tokens);
      if tokens[0] == "cd" then
        Cd(if |tokens| == 1 || tokens[1] == "~" then Home else Dir(tokens[1]))
      else if idx == 0 then PipeAtStart
      else if 0 < idx then
        var s := SplitAt(tokens, idx);
        Pipeline(s.left, s.right)
      else Plain
  }

  /** The tail of `run_command`: any non-negative result reads as success (1), a negative one is passed on. */
  function Normalise(result: int): (status: int)
    ensures status == 1 || status < 0
    ensures status == 1 <==> 0 <= result
    ensures status < 0 ==> status == result
  {
    if 0 <= result then 1 else result
  }

  /**
   The pipeline branch of `run_command` once the stages are cut: create the
   pipe, launch the left stage, and launch the right stage only when the left
   launch returned more than 1, its result then replacing the left's.
   */
  function RunPipeline(env: Env, left: seq<string>, right: seq<string>): (r: Run)
    ensures r.status == 1 || r.status < 0
    ensures !env.pipeOk ==> r == Run(-1, [CreatePipe])
    ensures env.pipeOk ==>
              && 2 <= |r.effects| <= 3
              && r.effects[..2] == [CreatePipe, Spawn(left, Piped)]
              && (|r.effects| == 3 <==> 1 < env.launch(left, Piped, 0))
    ensures env.pipeOk && |r.effects| == 3 ==>
              r.effects[2] == Spawn(right, Piped) && r.status == Normalise(env.launch(right, Piped, 1))
    ensures env.pipeOk && |r.effects| == 2 ==> r.status == Normalise(env.launch(left, Piped, 0))
  {
    if !env.pipeOk then Run(-1, [CreatePipe])
    else
      var first := env.launch(left, Piped, 0);
      if 1 < first then
        Run(Normalise(env.launch(right, Piped, 1)), [CreatePipe, Spawn(left, Piped), Spawn(right, Piped)])
      else
        Run(Normalise(first), [CreatePipe, Spawn(left, Piped)])
  }

  /**
   `run_command`. Returns 0 only for `exit`, 1 for success and a negative
   value for failure; a pipeline runs its stages cut at the first separator.
   */
  function RunCommand(env: Env, tokens: seq<string>): (r: Run)
    requires 0 < |tokens|
    ensures r.status == 0 <==> tokens[0] == "exit"
    ensures r.status == 0 || r.status == 1 || r.status < 0
    ensures tokens[0] == "exit" ==> r.effects == []
    ensures tokens[0] == "cd" ==>
              && r.effects == [ChangeDir(if |tokens| == 1 || tokens[1] == "~" then env.home else Some(tokens[1]))]
              && r.status == Normalise(env.chdir(r.effects[0].path))
    ensures tokens[0] in {"exit", "cd", Bar} ==> NoSpawn(r.effects)
    ensures tokens[0] == Bar ==> r == Run(-1, [])
    ensures var b := Classify(tokens);
            b.Pipeline? ==> r == RunPipeline(env, b.left, b.right)
    ensures Bar !in tokens && tokens[0] !in {"exit", "cd"} ==>
              r == Run(Normalise(env.launch(tokens, Direct, 0)), [Spawn(tokens, Direct)])
  {
    match Classify(tokens)
    case Exit => Run(0, [])
    case Cd(target) =>
      var path := if target.Home? then env.home else Some(target.path);
      Run(Normalise(env.chdir(path)), [ChangeDir(path)])
    case PipeAtStart => Run(-1, [])
    case Pipeline(left, right) => RunPipeline(env, left, right)
    case Plain => Run(Normalise(env.launch(tokens, Direct, 0)), [Spawn(tokens, Direct)])
  }

  /** `__process_command`: a line with no tokens is a successful no-op; otherwise its tokens are dispatched. */
  function ProcessCommand(env: Env, line: string): (status: int)
    ensures |env.parse(line)| == 0 ==> status == 1
    ensures status == 0 <==> 0 < |env.parse(line)| && env.parse(line)[0] == "exit"
    ensures status == 0 || status == 1 || status < 0
  {
    var tokens := env.parse(line);
    if |tokens| == 0 then 1 else RunCommand(env, tokens).status
  }

  /** What the forked child of `exec_command` does. */
  datatype ChildAction =
    | ListHistory(lines: seq<string>)   // the `history` listing written to standard error
    | Recalled(step: RecallStep)        // the `!` built-in, with how its index resolved
    | Exec(argv: seq<string>)           // execvp of an external program

  /** The child's action and the code it passes to `exit`; `None` when execvp replaced the child. */
  datatype ChildOutcome = ChildOutcome(action: ChildAction, exitCode: Option<int>)

  /**
   The child side of `exec_command` for the store `h`. `history` lists and
   exits 1; `!` exits -1 unless both recall guards pass, in which case it
   exits with the status of dispatching the stored text again; anything else
   is handed to execvp and exits -1 only if the program cannot be run.

   The re-dispatch is a fresh `__process_command` inside the child: its
   launches are new forks and its pipe and `chdir` are new calls, so it is
   answered by its own oracle `nested` rather than by the parent's `env`.
   */
  function ChildRun(env: Env, nested: Env, h: History, tokens: seq<string>): (c: ChildOutcome)
    requires 0 < |tokens|
    ensures c.action.ListHistory? <==> tokens[0] == "history"
    ensures c.action.ListHistory? ==> c.action.lines == Listing(h) && c.exitCode == Some(1)
    ensures c.action.Recalled? <==> tokens[0] == "!"
    ensures c.action.Recalled? ==>
              c.action.step == Resolve(h, if |tokens| == 1 then None else Some(env.atoi(tokens[1])))
    ensures c.action.Recalled? && !c.action.step.Replay? ==> c.exitCode == Some(-1)
    ensures c.action.Recalled? && c.action.step.Replay? ==>
              c.exitCode == Some(ProcessCommand(nested, c.action.step.line))
    ensures c.action.Exec? ==> c.action.argv == tokens
    ensures c.action.Exec? ==> (c.exitCode == None <==> env.resolves(tokens[0]))
    ensures c.action.Exec? && c.exitCode.Some? ==> c.exitCode.value == -1
  {
    if tokens[0] == "history" then ChildOutcome(ListHistory(Listing(h)), Some(1))
    else if tokens[0] == "!" then
      var step := Resolve(h, if |tokens| == 1 then None else Some(env.atoi(tokens[1])));
      ChildOutcome(Recalled(step), Some(if step.Replay? then ProcessCommand(nested, step.line) else -1))
    else ChildOutcome(Exec(tokens), if env.resolves(tokens[0]) then None else Some(-1))
  }

  /**
   The child exits with 0 only through a recalled `exit`: every other path
   exits with 1, with a negative code, or not at all (execvp took over).
   */
  lemma ChildExitsZeroOnlyOnRecalledExit(env: Env, nested: Env, h: History, tokens: seq<string>)
    requires 0 < |tokens|
    ensures var c := ChildRun(env, nested, h, tokens);
            c.exitCode == Some(0) <==>
              && c.action.Recalled? && c.action.step.Replay?
              && 0 < |nested.parse(c.action.step.line)|
              && nested.parse(c.action.step.line)[0] == "exit"
    ensures var c := ChildRun(env, nested, h, tokens);
            c.exitCode.Some? ==> c.exitCode.value <= 1
  {
  }

  /**
   A recalled `exit` ends only the child: the child exits with 0, while the
   `!` command in the parent is a plain launch whose status is never 0.
   */
  lemma RecalledExitEndsOnlyTheChild(env: Env, nested: Env, h: History, tokens: seq<string>)
    requires 1 < |tokens| && tokens[0] == "!"
    requires Resolve(h, Some(env.atoi(tokens[1]))).Replay?
    requires var line := Resolve(h, Some(env.atoi(tokens[1]))).line;
             0 < |nested.parse(line)| && nested.parse(line)[0] == "exit"
    ensures ChildRun(env, nested, h, tokens).exitCode == Some(0)
    ensures RunCommand(env, tokens).status != 0
  {
  }

  /**
   The replayed command is launched by the child's own fork: even when the
   stored text is the very `!` command the parent launched, the child's exit
   code is the nested launch's outcome and owes nothing to the parent's.
   */
  lemma ReplayIsItsOwnLaunch(env: Env, nested: Env, h: History, tokens: seq<string>)
    requires 1 < |tokens| && tokens[0] == "!"
    requires Resolve(h, Some(env.atoi(tokens[1]))).Replay?
    requires nested.parse(Resolve(h, Some(env.atoi(tokens[1]))).line) == tokens
    requires Bar !in tokens
    ensures ChildRun(env, nested, h, tokens).exitCode == Some(Normalise(nested.launch(tokens, Direct, 0)))
    ensures RunCommand(env, tokens).status == Normalise(env.launch(tokens, Direct, 0))
  {
  }

  /**
   Only a leading separator is refused: with a trailing one the right stage is
   empty, and once the left stage's launch returns more than 1 an empty argv
   is launched.
   */
  lemma TrailingBarSpawnsEmptyStage(env: Env, tokens: seq<string>)
    requires 1 < |tokens| && tokens[|tokens| - 1] == Bar
    requires tokens[0] !in {"exit", "cd"} && Bar !in tokens[..|tokens| - 1]
    requires env.pipeOk && 1 < env.launch(tokens[..|tokens| - 1], Piped, 0)
    ensures RunCommand(env, tokens).effects
            == [CreatePipe, Spawn(tokens[..|tokens| - 1], Piped), Spawn([], Piped)]
  {
    var n := |tokens| - 1;
    assert Bar in tokens by { assert tokens[n] == Bar; }
    var k := FindPipe(tokens);
    assert tokens[k + 1..] == [];
  }

  /**
   The right stage's launch is its own fork: even when both stages are the
   same command, the right one can fail after the left one succeeded, and the
   pipeline then fails.
   */
  lemma RightStageFailsOnItsOwn(env: Env, program: string)
    requires program !in {"exit", "cd", Bar}
    requires env.pipeOk && 1 < env.launch([program], Piped, 0) && env.launch([program], Piped, 1) < 0
    ensures RunCommand(env, [program, Bar, program]).status == env.launch([program], Piped, 1)
  {
    var tokens := [program, Bar, program];
    assert FindPipe(tokens) == 1;
    assert tokens[..1] == [program] && tokens[2..] == [program];
  }
}
