/** Parsing and running a pipeline of shell commands. */
module ShellRun {
  import opened Collections
  import opened ShellSyntax

  // ----- what running a node list means

  /** A command with the directory it runs in. */
  datatype Stage = Stage(cwd: string, command: Node)

  /**
   * A node list as a tree nested to the right: a pipe group, and what follows it. Astray stands
   * for a change of directory that lacks its directory or the And after it.
   */
  datatype Tree =
    | Last(group: seq<Stage>)
    | AndThen(group: seq<Stage>, rest: Tree)
    | OrElse(group: seq<Stage>, rest: Tree)
    | Astray(group: seq<Stage>)

  /** os.path.join of two parts. */
  function JoinPath(a: string, b: string): string {
    if b != "" && b[0] == '/' then b
    else if a == "" || a[|a| - 1] == '/' then a + b
    else a + "/" + b
  }

  /** An absolute part replaces what is before it; a relative one is put behind it, with one separator. */
  lemma JoinPathRule(a: string, b: string)
    ensures b != "" && b[0] == '/' ==> JoinPath(a, b) == b
    ensures b == "" || b[0] != '/' ==> JoinPath(a, b) == a + (if a == "" || a[|a| - 1] == '/' then "" else "/") + b
  {
  }

  predicate Absolute(b: string) {
    b != "" && b[0] == '/'
  }

  function Separator(a: string): string {
    if a == "" || a[|a| - 1] == '/' then "" else "/"
  }

  lemma RelativeJoin(a: string, b: string)
    requires !Absolute(b)
    ensures JoinPath(a, b) == a + (Separator(a) + b)
    ensures b != "" ==> Separator(JoinPath(a, b)) == Separator(b)
    ensures b == "" ==> Separator(JoinPath(a, b)) == ""
  {
  }

  lemma JoinThroughHere(a: string, c: string)
    requires !Absolute(c)
    ensures JoinPath(JoinPath(a, ""), c) == JoinPath(a, JoinPath("", c))
  {
    RelativeJoin(a, "");
    RelativeJoin(JoinPath(a, ""), c);
    RelativeJoin(a, c);
    Joined(a, Separator(a), c);
    assert JoinPath("", c) == c;
  }

  lemma JoinThrough(a: string, b: string, c: string)
    requires b != "" && !Absolute(b) && !Absolute(c)
    ensures JoinPath(JoinPath(a, b), c) == JoinPath(a, JoinPath(b, c))
  {
    RelativeJoin(a, b);
    RelativeJoin(b, c);
    RelativeJoin(JoinPath(a, b), c);
    assert JoinPath(b, c)[0] == b[0];
    RelativeJoin(a, JoinPath(b, c));
    JoinedTwice(a, Separator(a), b, Separator(b), c);
  }

  /** Changes of directory accumulate: going to b and then to c is going to the joined path. */
  lemma JoinPathAssociates(a: string, b: string, c: string)
    ensures JoinPath(JoinPath(a, b), c) == JoinPath(a, JoinPath(b, c))
  {
    if Absolute(c) {
    } else if Absolute(b) {
      AbsoluteJoin(b, c);
    } else if b == "" {
      JoinThroughHere(a, c);
    } else {
      JoinThrough(a, b, c);
    }
  }

  lemma AbsoluteJoin(b: string, c: string)
    requires Absolute(b)
    ensures Absolute(JoinPath(b, c))
  {
  }

  lemma Joined(a: string, s: string, c: string)
    ensures a + (s + "") + ("" + c) == a + (s + c)
  {
  }

  lemma JoinedTwice(a: string, s: string, b: string, t: string, c: string)
    ensures a + (s + b) + (t + c) == a + (s + (b + (t + c)))
  {
  }

  function ToTree(nodes: seq<Node>, cwd: string, group: seq<Stage>): Tree
    requires Pipelined(nodes)
    decreases |nodes|
  {
    if nodes[0].Chdir? then
      if |nodes| == 1 || nodes[0].dir == None then Astray(group)
      else ToTree(nodes[2..], JoinPath(cwd, nodes[0].dir.value), group)
    else
      var grown := group + [Stage(cwd, nodes[0])];
      if |nodes| == 1 then Last(grown)
      else if nodes[1] == Pipe then ToTree(nodes[2..], cwd, grown)
      else if nodes[1] == And then AndThen(grown, ToTree(nodes[2..], cwd, []))
      else OrElse(grown, ToTree(nodes[2..], cwd, []))
  }

  datatype Input = Inherited | FromFile(file: string) | FromPipe(process: nat)

  /** What Popen is called with. */
  datatype Launch = Launch(
    argv: seq<string>, stdin: Input, stdout: Target, stderr: Target, env: map<string, string>, cwd: Option<string>)

  /** NoResult is Python's None, which an empty pipeline gives. */
  datatype Outcome = Returned(code: int) | Raised | NoResult

  /** Stage i of a group whose first process is number n. */
  function LaunchOf(group: seq<Stage>, i: nat, n: nat): Launch
    requires i < |group| && group[i].command.Command?
  {
    var cmd := group[i].command;
    Launch(cmd.argv,
           if i > 0 then FromPipe(n + i - 1) else if cmd.stdin.Some? then FromFile(cmd.stdin.value) else Inherited,
           cmd.stdout, cmd.stderr, cmd.env, if group[i].cwd == "." then None else Some(group[i].cwd))
  }

  predicate Commands(group: seq<Stage>) {
    forall i :: 0 <= i < |group| ==> group[i].command.Command?
  }

  function Launches(group: seq<Stage>, n: nat): seq<Launch>
    requires Commands(group)
  {
    seq(|group|, i requires 0 <= i < |group| => LaunchOf(group, i, n))
  }

  predicate TreeOk(t: Tree) {
    && Commands(t.group) && (!t.Astray? ==> t.group != [])
    && ((t.AndThen? || t.OrElse?) ==> TreeOk(t.rest))
  }

  /**
   * The value of a tree whose first process is number n, when process k ends with codes(k): the
   * outcome, and all processes launched. A group counts as its last process.
   */
  function Eval(t: Tree, codes: nat -> int, n: nat): (Outcome, seq<Launch>)
    requires TreeOk(t)
  {
    var launched := Launches(t.group, n);
    var next := n + |t.group|;
    match t
    case Astray(_) => (Raised, launched)
    case Last(_) => (Returned(codes(next - 1)), launched)
    case AndThen(_, rest) =>
      if codes(next - 1) != 0 then (Returned(codes(next - 1)), launched)
      else var (o, more) := Eval(rest, codes, next); (o, launched + more)
    case OrElse(_, rest) =>
      if codes(next - 1) == 0 then (Returned(0), launched)
      else var (o, more) := Eval(rest, codes, next); (o, launched + more)
  }

  lemma {:induction false} ToTreeOk(nodes: seq<Node>, cwd: string, group: seq<Stage>)
    requires Pipelined(nodes) && Commands(group)
    ensures TreeOk(ToTree(nodes, cwd, group))
    decreases |nodes|
  {
    if nodes[0].Chdir? {
      if |nodes| > 1 && nodes[0].dir.Some? {
        ToTreeOk(nodes[2..], JoinPath(cwd, nodes[0].dir.value), group);
      }
    } else if |nodes| > 1 {
      ToTreeOk(nodes[2..], cwd, if nodes[1] == Pipe then group + [Stage(cwd, nodes[0])] else []);
    }
  }

  /** What is still to be evaluated, after some processes that are already launched and awaited. */
  function Resume(nodes: seq<Node>, cwd: string, group: seq<Stage>, before: seq<Launch>,
                  codes: nat -> int): (Outcome, seq<Launch>)
    requires Pipelined(nodes) && Commands(group)
  {
    ToTreeOk(nodes, cwd, group);
    var (o, more) := Eval(ToTree(nodes, cwd, group), codes, |before|);
    (o, before + more)
  }

  /** The processes `piped` are those of the group, launched after `before`. */
  predicate Pending(group: seq<Stage>, before: seq<Launch>, piped: seq<nat>, log: seq<Launch>) {
    && Commands(group) && |piped| == |group| && (forall i :: 0 <= i < |piped| ==> piped[i] == |before| + i)
    && log == before + Launches(group, |before|)
  }

  lemma PendingGrows(group: seq<Stage>, before: seq<Launch>, piped: seq<nat>, log: seq<Launch>, s: Stage)
    requires Pending(group, before, piped, log) && s.command.Command?
    ensures Pending(group + [s], before, piped + [|log|], log + [LaunchOf(group + [s], |group|, |before|)])
    ensures piped != [] ==> piped[|piped| - 1] == |before| + |group| - 1
  {
    assert Launches(group + [s], |before|) == Launches(group, |before|) + [LaunchOf(group + [s], |group|, |before|)];
  }

  lemma {:induction false} ResumeLast(nodes: seq<Node>, cwd: string, group: seq<Stage>, before: seq<Launch>,
                                      codes: nat -> int)
    requires Pipelined(nodes) && Commands(group) && nodes[0].Command? && |nodes| == 1
    ensures var log := before + Launches(group + [Stage(cwd, nodes[0])], |before|);
            Resume(nodes, cwd, group, before, codes) == (Returned(codes(|log| - 1)), log)
  {
    var t := Last(group + [Stage(cwd, nodes[0])]);
    assert ToTree(nodes, cwd, group) == t;
    assert |before| + |t.group| - 1 == |before + Launches(t.group, |before|)| - 1;
  }

  lemma {:induction false} ResumePipe(nodes: seq<Node>, cwd: string, group: seq<Stage>, before: seq<Launch>,
                                      codes: nat -> int)
    requires Pipelined(nodes) && Commands(group) && nodes[0].Command? && |nodes| > 1 && nodes[1] == Pipe
    ensures Resume(nodes, cwd, group, before, codes)
            == Resume(nodes[2..], cwd, group + [Stage(cwd, nodes[0])], before, codes)
  {
  }

  lemma {:induction false} ResumeChdir(nodes: seq<Node>, cwd: string, group: seq<Stage>, before: seq<Launch>,
                                       codes: nat -> int)
    requires Pipelined(nodes) && Commands(group) && nodes[0].Chdir?
    ensures Resume(nodes, cwd, group, before, codes)
            == if |nodes| == 1 || nodes[0].dir == None then (Raised, before + Launches(group, |before|))
               else Resume(nodes[2..], JoinPath(cwd, nodes[0].dir.value), group, before, codes)
  {
  }

  /** The value of a choice whose group has been awaited. */
  lemma {:induction false} EvalChoice(t: Tree, before: seq<Launch>, codes: nat -> int)
    requires TreeOk(t) && (t.AndThen? || t.OrElse?)
    ensures var log := before + Launches(t.group, |before|);
            var code := codes(|log| - 1);
            var (o, l) := Eval(t, codes, |before|);
            (o, before + l) == if t.AndThen? == (code == 0)
                               then (Eval(t.rest, codes, |log|).0, log + Eval(t.rest, codes, |log|).1)
                               else (Returned(code), log)
  {
    var launched := Launches(t.group, |before|);
    var log := before + launched;
    var more := Eval(t.rest, codes, |log|).1;
    assert before + (launched + more) == log + more;
  }

  /** At && or || after a group: the group's code decides. */
  lemma {:induction false} ResumeChoice(nodes: seq<Node>, cwd: string, group: seq<Stage>, before: seq<Launch>,
                                        codes: nat -> int)
    requires Pipelined(nodes) && Commands(group) && nodes[0].Command? && |nodes| > 1 && nodes[1] in [And, Or]
    ensures var grown := group + [Stage(cwd, nodes[0])];
            var log := before + Launches(grown, |before|);
            var code := codes(|log| - 1);
            Resume(nodes, cwd, group, before, codes) ==
            if (nodes[1] == And) == (code == 0) then Resume(nodes[2..], cwd, [], log, codes) else (Returned(code), log)
  {
    ToTreeOk(nodes, cwd, group);
    ToTreeOk(nodes[2..], cwd, []);
    EvalChoice(ToTree(nodes, cwd, group), before, codes);
  }

  // ----- the same, seen from a turn of the run loop whose group has just been launched

  lemma PendingLast(group: seq<Stage>, before: seq<Launch>, piped: seq<nat>, log: seq<Launch>)
    requires Pending(group, before, piped, log) && group != []
    ensures piped[|piped| - 1] == |log| - 1 && |log| == |before| + |group|
  {
  }

  lemma {:induction false} LastTurn(nodes: seq<Node>, cwd: string, group: seq<Stage>, before: seq<Launch>,
                                    codes: nat -> int, piped: seq<nat>, log: seq<Launch>)
    requires Pipelined(nodes) && Commands(group) && nodes[0].Command? && |nodes| == 1
    requires Pending(group + [Stage(cwd, nodes[0])], before, piped, log)
    ensures Resume(nodes, cwd, group, before, codes) == (Returned(codes(piped[|piped| - 1])), log)
  {
    PendingLast(group + [Stage(cwd, nodes[0])], before, piped, log);
    ResumeLast(nodes, cwd, group, before, codes);
  }

  lemma {:induction false} ChoiceTurn(nodes: seq<Node>, cwd: string, group: seq<Stage>, before: seq<Launch>,
                                      codes: nat -> int, piped: seq<nat>, log: seq<Launch>)
    requires Pipelined(nodes) && Commands(group) && nodes[0].Command? && |nodes| > 1 && nodes[1] != Pipe
    requires Pending(group + [Stage(cwd, nodes[0])], before, piped, log)
    ensures var code := codes(piped[|piped| - 1]);
            Resume(nodes, cwd, group, before, codes)
            == if (nodes[1] == Or) == (code == 0) then (Returned(code), log)
                else Resume(nodes[2..], cwd, [], log, codes)
    ensures Pending([], log, [], log)
  {
    PendingLast(group + [Stage(cwd, nodes[0])], before, piped, log);
    ResumeChoice(nodes, cwd, group, before, codes);
    assert Launches([], |log|) == [];
  }

  lemma {:induction false} ChdirTurn(nodes: seq<Node>, cwd: string, group: seq<Stage>, before: seq<Launch>,
                                     codes: nat -> int, piped: seq<nat>, log: seq<Launch>)
    requires Pipelined(nodes) && Pending(group, before, piped, log) && nodes[0].Chdir?
    ensures Resume(nodes, cwd, group, before, codes)
            == if |nodes| == 1 || nodes[0].dir == None then (Raised, log)
               else Resume(nodes[2..], JoinPath(cwd, nodes[0].dir.value), group, before, codes)
  {
    ResumeChdir(nodes, cwd, group, before, codes);
  }

  // ----- the pipeline object

  class Pipeline {
    var currentCommand: Option<Node>
    var pipeline: seq<Node>

    constructor ()
      ensures currentCommand == None && pipeline == []
    {
      currentCommand, pipeline := None, [];
    }

    method CommitCommand() returns (ok: bool)
      modifies this
      ensures ok <==> old(currentCommand).Some?
      ensures if ok then currentCommand == None && pipeline == old(pipeline) + [old(currentCommand).value]
              else currentCommand == old(currentCommand) && pipeline == old(pipeline)
    {
      if currentCommand == None {
        return false;
      }
      pipeline := pipeline + [currentCommand.value];
      currentCommand := None;
      return true;
    }

    /** What the rest of the tokens means, seen from a state of the parser's loop. */
    ghost function Continue(state: State, env: map<string, string>, tokens: seq<string>): Result
      requires StateOk(state)
      reads this
    {
      match state
      case InBegin => ParseBegin(tokens, env)
      case InCommand => ParseWords(tokens, currentCommand.value)
      case InChdir => ParseChdir(tokens, currentCommand.value.dir)
      case InStdout => ParseWords([">"] + tokens, currentCommand.value)
      case InStderr => ParseWords(["2>"] + tokens, currentCommand.value)
      case InStdin => ParseWords(["<"] + tokens, currentCommand.value)
    }

    predicate StateOk(state: State)
      reads this
    {
      match state
      case InBegin => currentCommand == None
      case InChdir => currentCommand.Some? && currentCommand.value.Chdir?
      case _ => currentCommand.Some? && currentCommand.value.Command?
    }

    /** What a turn of the parser's loop promises: the meaning of the tokens stays the same. */
    twostate predicate Turn(ok: bool, state: State, env: map<string, string>, tokens: seq<string>,
                            next: State, nextEnv: map<string, string>)
      requires tokens != [] && old(StateOk(state))
      reads this
    {
      if ok then
        && StateOk(next) && (next != InBegin ==> nextEnv == map[])
        && Prepend(old(pipeline), old(Continue(state, env, tokens)))
            == Prepend(pipeline, Continue(next, nextEnv, tokens[1..]))
      else old(Continue(state, env, tokens)) == AssertionError
    }

    method TakeBegin(env: map<string, string>, ghost tokens: seq<string>, token: string)
      returns (ok: bool, next: State, nextEnv: map<string, string>)
      requires StateOk(InBegin) && tokens != [] && tokens[0] == token
      modifies this
      ensures Turn(ok, InBegin, env, tokens, next, nextEnv)
    {
      ok, next, nextEnv := true, InBegin, env;
      var assignment := Assignment(token);
      if assignment.Some? {
        nextEnv := env[assignment.value.0 := assignment.value.1];
      } else if token == "cd" {
        currentCommand := Some(Chdir(None));
        ok := env == map[];
        next := InChdir;
      } else {
        currentCommand := Some(NewCommand(token, env));
        nextEnv := map[];
        next := InCommand;
      }
    }

    method TakeCommand(ghost tokens: seq<string>, token: string) returns (ok: bool, next: State)
      requires StateOk(InCommand) && tokens != [] && tokens[0] == token
      modifies this
      ensures Turn(ok, InCommand, map[], tokens, next, map[])
    {
      ok, next := true, InCommand;
      if token == ">" {
        assert [">"] + tokens[1..] == tokens;
        next := InStdout;
      } else if token == "2>" {
        assert ["2>"] + tokens[1..] == tokens;
        next := InStderr;
      } else if token == "2>&1" {
        if currentCommand.value.stderr != Inherit {
          ok := false;
        } else {
          currentCommand := Some(currentCommand.value.(stderr := ToStdout));
        }
      } else if token == "<" {
        assert ["<"] + tokens[1..] == tokens;
        next := InStdin;
      } else if token in ["|", "&&", "||"] {
        ok := TakeOperator(tokens, token);
        next := InBegin;
      } else {
        currentCommand := Some(currentCommand.value.(argv := currentCommand.value.argv + [token]));
      }
    }

    method TakeOperator(ghost tokens: seq<string>, token: string) returns (ok: bool)
      requires StateOk(InCommand) && tokens != [] && tokens[0] == token && token in ["|", "&&", "||"]
      modifies this
      ensures Turn(ok, InCommand, map[], tokens, InBegin, map[])
    {
      ok := true;
      if token == "|" {
        if currentCommand.value.stdout != Inherit {
          return false;
        }
        currentCommand := Some(currentCommand.value.(stdout := ToPipe));
      }
      var _ := CommitCommand();
      pipeline := pipeline + [OpOf(token)];
    }

    method TakeChdir(ghost tokens: seq<string>, token: string) returns (ok: bool, next: State)
      requires StateOk(InChdir) && tokens != [] && tokens[0] == token
      modifies this
      ensures Turn(ok, InChdir, map[], tokens, next, map[])
    {
      ok, next := true, InChdir;
      if token == "&&" {
        var _ := CommitCommand();
        pipeline := pipeline + [And];
        next := InBegin;
      } else if currentCommand.value.dir.Some? {
        ok := false;
      } else {
        currentCommand := Some(Chdir(Some(token)));
      }
    }

    /** In one of the three states after a redirection sign. */
    method TakeFile(state: State, ghost tokens: seq<string>, token: string) returns (ok: bool)
      requires state in [InStdout, InStderr, InStdin] && StateOk(state) && tokens != [] && tokens[0] == token
      modifies this
      ensures Turn(ok, state, map[], tokens, InCommand, map[])
    {
      ghost var sign := if state == InStdout then ">" else if state == InStderr then "2>" else "<";
      assert ([sign] + tokens)[2..] == tokens[1..];
      var cmd := currentCommand.value;
      if state == InStdout {
        ok := cmd.stdout == Inherit;
        cmd := cmd.(stdout := ToFile(token));
      } else if state == InStderr {
        ok := cmd.stderr == Inherit;
        cmd := cmd.(stderr := ToFile(token));
      } else {
        ok := cmd.stdin == None;
        cmd := cmd.(stdin := Some(token));
      }
      if ok {
        currentCommand := Some(cmd);
      }
    }

    /** The token machine. It accepts exactly the grammar, and its pipeline is what the tokens mean. */
    method Parse(tokens: seq<string>) returns (result: Result)
      modifies this
      ensures result == ParseBegin(tokens, map[])
      ensures result.Ok? ==> pipeline == result.nodes && currentCommand == None
    {
      pipeline := [];
      var state := InBegin;
      currentCommand := None;
      var envVars: map<string, string> := map[];
      var rest := tokens;
      while rest != []
        invariant StateOk(state) && (state != InBegin ==> envVars == map[])
        invariant ParseBegin(tokens, map[]) == Prepend(pipeline, Continue(state, envVars, rest))
        decreases |rest|
      {
        var ok: bool;
        var token := rest[0];
        match state {
          case InBegin => ok, state, envVars := TakeBegin(envVars, rest, token);
          case InCommand => ok, state := TakeCommand(rest, token);
          case InChdir => ok, state := TakeChdir(rest, token);
          case _ =>
            ok := TakeFile(state, rest, token);
            state := InCommand;
        }
        if !ok {
          return AssertionError;
        }
        rest := rest[1..];
      }
      var committed := CommitCommand();
      return if committed then Ok(pipeline) else AssertionError;
    }

    /** Waiting for the processes of a group, given by their numbers: the last one's exit code. */
    method ExecPipedCommands(commands: seq<nat>, codes: nat -> int) returns (retval: int)
      ensures retval == if commands == [] then 0 else codes(commands[|commands| - 1])
    {
      var retvals: seq<int> := [];
      for i := 0 to |commands|
        invariant |retvals| == i && forall k :: 0 <= k < i ==> retvals[k] == codes(commands[k])
      {
        retvals := retvals + [codes(commands[i])];
      }
      retval := 0;
      for i := 0 to |retvals|
        invariant retval == 0 && forall k :: 0 <= k < i ==> retvals[k] == 0
      {
        if retvals[i] != 0 {
          retval := retvals[|retvals| - 1];
          break;
        }
      }
    }

    /** Popen for the next command of a group: its input, and its entry in the list of piped processes. */
    method StartProcess(cmd: Node, cwd: string, piping: bool, piped: seq<nat>, log: seq<Launch>,
                        ghost group: seq<Stage>, ghost before: seq<Launch>)
      returns (nowPiped: seq<nat>, nowLog: seq<Launch>)
      requires cmd.Command? && Pending(group, before, piped, log) && (piping <==> piped != [])
      ensures Pending(group + [Stage(cwd, cmd)], before, nowPiped, nowLog)
    {
      PendingGrows(group, before, piped, log, Stage(cwd, cmd));
      var stdin := if piping then FromPipe(piped[|piped| - 1])
                   else if cmd.stdin.Some? then FromFile(cmd.stdin.value)
                   else Inherited;
      var proc := Launch(cmd.argv, stdin, cmd.stdout, cmd.stderr, cmd.env, if cwd == "." then None else Some(cwd));
      nowPiped := piped + [|log|];
      nowLog := log + [proc];
    }

    /** Runs the parsed pipeline; process number k, counted in the order of launching, ends with codes(k). */
    method Run(codes: nat -> int) returns (outcome: Outcome, log: seq<Launch>)
      requires pipeline == [] || Pipelined(pipeline)
      ensures (outcome, log) == if pipeline == [] then (NoResult, []) else Resume(pipeline, ".", [], [], codes)
    {
      if pipeline == [] {
        return NoResult, [];
      }
      ghost var value := Resume(pipeline, ".", [], [], codes);
      var rest := pipeline;
      var piping, cwd := false, ".";
      var piped: seq<nat> := [];
      log := [];
      ghost var group, before := [], [];
      while true
        invariant Pipelined(rest) && Pending(group, before, piped, log) && (piping <==> piped != [])
        invariant value == Resume(rest, cwd, group, before, codes)
        decreases |rest|
      {
        var node := rest[0];
        if node.Chdir? {
          ChdirTurn(rest, cwd, group, before, codes, piped, log);
          if |rest| == 1 || node.dir == None {
            return Raised, log;
          }
          cwd := JoinPath(cwd, node.dir.value);
          rest := rest[2..];
          continue;
        }
        piped, log := StartProcess(node, cwd, piping, piped, log, group, before);
        ghost var grown := group + [Stage(cwd, node)];
        if |rest| == 1 {
          LastTurn(rest, cwd, group, before, codes, piped, log);
          var retval := ExecPipedCommands(piped, codes);
          return Returned(retval), log;
        }
        var next := rest[1];
        if next == Pipe {
          ResumePipe(rest, cwd, group, before, codes);
          piping := true;
          group := grown;
        } else {
          ChoiceTurn(rest, cwd, group, before, codes, piped, log);
          var thisRetval := ExecPipedCommands(piped, codes);
          if next == Or {
            if thisRetval == 0 {
              return Returned(thisRetval), log;
            }
          } else if thisRetval != 0 {
            return Returned(thisRetval), log;
          }
          piping, piped := false, [];
          group, before := [], log;
        }
        rest := rest[2..];
      }
    }
  }

  datatype State = InBegin | InCommand | InChdir | InStderr | InStdout | InStdin

  // ----- what every run does

  /** The commands of a node list in order, each with the directory that the changes before it lead to. */
  function StagesOf(nodes: seq<Node>, cwd: string): seq<Stage>
    requires Pipelined(nodes)
    decreases |nodes|
  {
    if nodes[0].Chdir? then
      if |nodes| == 1 || nodes[0].dir == None then [] else StagesOf(nodes[2..], JoinPath(cwd, nodes[0].dir.value))
    else
      [Stage(cwd, nodes[0])] + if |nodes| == 1 then [] else StagesOf(nodes[2..], cwd)
  }

  /** The operator after each of these commands; None after the last one. */
  function OpsOf(nodes: seq<Node>): seq<Option<Node>>
    requires Pipelined(nodes)
    decreases |nodes|
  {
    if nodes[0].Chdir? then
      if |nodes| == 1 || nodes[0].dir == None then [] else OpsOf(nodes[2..])
    else if |nodes| == 1 then [None]
    else [Some(nodes[1])] + OpsOf(nodes[2..])
  }

  /** Where a list of nodes leads to from cwd. */
  function DirAfter(nodes: seq<Node>, cwd: string): string
    decreases |nodes|
  {
    if nodes == [] then cwd
    else DirAfter(nodes[1..], if nodes[0].Chdir? && nodes[0].dir.Some? then JoinPath(cwd, nodes[0].dir.value) else cwd)
  }

  predicate NoneBroken(nodes: seq<Node>) {
    forall j :: 0 <= j < |nodes| && nodes[j].Chdir? ==> nodes[j].dir.Some?
  }

  /** The stage and the operator for the command at position i. */
  predicate StageAt(nodes: seq<Node>, cwd: string, i: nat, s: Stage, op: Option<Node>)
    requires i < |nodes|
  {
    s == Stage(DirAfter(nodes[..i], cwd), nodes[i]) && op == if i + 1 < |nodes| then Some(nodes[i + 1]) else None
  }

  function CommandsIn(nodes: seq<Node>): nat
    decreases |nodes|
  {
    if nodes == [] then 0 else (if nodes[0].Command? then 1 else 0) + CommandsIn(nodes[1..])
  }

  /** What the first two nodes of a list contribute to its first i. */
  lemma TwoLater(nodes: seq<Node>, cwd: string, i: nat)
    requires Pipelined(nodes) && 2 <= i <= |nodes|
    ensures CommandsIn(nodes[..i]) == (if nodes[0].Command? then 1 else 0) + CommandsIn(nodes[2..][..i - 2])
    ensures DirAfter(nodes[..i], cwd) == DirAfter(nodes[2..][..i - 2], DirAfter([nodes[0]], cwd))
    ensures NoneBroken(nodes[..i]) ==> NoneBroken(nodes[..1]) && NoneBroken(nodes[2..][..i - 2])
  {
    var front, later := nodes[..i], nodes[2..][..i - 2];
    assert front[1..][1..] == later && front[1] == nodes[1];
    assert CommandsIn(front[1..]) == CommandsIn(later);
    assert DirAfter(front[1..], DirAfter([nodes[0]], cwd)) == DirAfter(later, DirAfter([nodes[0]], cwd));
    if NoneBroken(front) {
      assert front[0] == nodes[0] && forall j :: 0 <= j < |later| ==> later[j] == front[j + 2];
    }
  }

  /** A command that no broken change of directory precedes is a stage, in the directory reached before it. */
  lemma {:induction false} StageOfCommand(nodes: seq<Node>, cwd: string, i: nat)
    requires Pipelined(nodes) && i < |nodes| && nodes[i].Command? && NoneBroken(nodes[..i])
    ensures CommandsIn(nodes[..i]) < |StagesOf(nodes, cwd)| && CommandsIn(nodes[..i]) < |OpsOf(nodes)|
    ensures StageAt(nodes, cwd, i, StagesOf(nodes, cwd)[CommandsIn(nodes[..i])], OpsOf(nodes)[CommandsIn(nodes[..i])])
    decreases |nodes|
  {
    if i == 0 {
      assert nodes[..0] == [];
    } else {
      assert i != 1;
      TwoLater(nodes, cwd, i);
      assert nodes[..i][0] == nodes[0] && nodes[2..][i - 2] == nodes[i];
      StageOfCommand(nodes[2..], DirAfter([nodes[0]], cwd), i - 2);
    }
  }

  /** There are no other stages: b is the first broken change of directory, or the end. */
  lemma {:induction false} StagesCount(nodes: seq<Node>, cwd: string, b: nat)
    requires Pipelined(nodes) && b <= |nodes| && NoneBroken(nodes[..b])
    requires b == |nodes| || (nodes[b].Chdir? && nodes[b].dir == None)
    ensures |StagesOf(nodes, cwd)| == |OpsOf(nodes)| == CommandsIn(nodes[..b])
    decreases |nodes|
  {
    if b >= 2 {
      TwoLater(nodes, cwd, b);
      assert nodes[..b][0] == nodes[0];
      StagesCount(nodes[2..], DirAfter([nodes[0]], cwd), b - 2);
    } else if b == 1 {
      assert nodes[..1][1..] == [] && nodes[..1][0] == nodes[0];
    } else {
      assert nodes[..0] == [];
    }
  }

  function TreeStages(t: Tree): seq<Stage> {
    t.group + if t.AndThen? || t.OrElse? then TreeStages(t.rest) else []
  }

  lemma Regroup(group: seq<Stage>, s: Stage, rest: seq<Stage>)
    ensures group + [s] + rest == group + ([s] + rest)
  {
  }

  lemma {:induction false} ToTreeStages(nodes: seq<Node>, cwd: string, group: seq<Stage>)
    requires Pipelined(nodes)
    ensures TreeStages(ToTree(nodes, cwd, group)) == group + StagesOf(nodes, cwd)
    decreases |nodes|
  {
    if nodes[0].Chdir? {
      if |nodes| > 1 && nodes[0].dir.Some? {
        ToTreeStages(nodes[2..], JoinPath(cwd, nodes[0].dir.value), group);
      }
    } else {
      var grown := group + [Stage(cwd, nodes[0])];
      if |nodes| > 1 {
        var rest := StagesOf(nodes[2..], cwd);
        Regroup(group, Stage(cwd, nodes[0]), rest);
        if nodes[1] == Pipe {
          ToTreeStages(nodes[2..], cwd, grown);
        } else {
          ToTreeStages(nodes[2..], cwd, []);
          assert [] + rest == rest;
        }
      }
    }
  }

  /** The launch is that of the stage; for its input see InputAt. */
  predicate Launched(l: Launch, s: Stage) {
    && s.command.Command? && l.argv == s.command.argv && l.stdout == s.command.stdout && l.stderr == s.command.stderr
    && l.env == s.command.env && l.cwd == if s.cwd == "." then None else Some(s.cwd)
  }

  ghost predicate AllLaunched(log: seq<Launch>, stages: seq<Stage>) {
    |log| <= |stages| && forall i :: 0 <= i < |log| ==> Launched(log[i], stages[i])
  }

  lemma {:induction false} EvalOrder(t: Tree, codes: nat -> int, n: nat)
    requires TreeOk(t)
    ensures AllLaunched(Eval(t, codes, n).1, TreeStages(t))
    ensures Eval(t, codes, n).0.Returned? ==>
              Eval(t, codes, n).1 != [] && Eval(t, codes, n).0.code == codes(n + |Eval(t, codes, n).1| - 1)
    decreases t
  {
    if t.AndThen? || t.OrElse? {
      if codes(n + |t.group| - 1) == 0 <==> t.AndThen? {
        EvalOrder(t.rest, codes, n + |t.group|);
        EvalGoesOn(t, codes, n);
        LaunchedThen(t.group, n, Eval(t.rest, codes, n + |t.group|).1, TreeStages(t.rest));
      } else {
        EvalStops(t, codes, n);
        LaunchedThen(t.group, n, [], TreeStages(t.rest));
        assert Launches(t.group, n) + [] == Launches(t.group, n);
      }
    } else {
      LaunchedThen(t.group, n, [], []);
      assert Launches(t.group, n) + [] == Launches(t.group, n);
    }
  }

  lemma LaunchedThen(group: seq<Stage>, n: nat, more: seq<Launch>, stages: seq<Stage>)
    requires Commands(group) && AllLaunched(more, stages)
    ensures AllLaunched(Launches(group, n) + more, group + stages)
  {
  }

  // ----- pipes

  /** All stages of the group but the last write to a pipe; the last does not, unless the tree goes astray there. */
  predicate TreePiped(t: Tree) {
    && (forall i :: 0 <= i < |t.group| - 1 ==> t.group[i].command.Command? && t.group[i].command.stdout == ToPipe)
    && (!t.Astray? && t.group != [] ==>
         t.group[|t.group| - 1].command.Command? && t.group[|t.group| - 1].command.stdout != ToPipe)
    && ((t.AndThen? || t.OrElse?) ==> TreePiped(t.rest))
  }

  predicate AllPiped(group: seq<Stage>) {
    forall i :: 0 <= i < |group| ==> group[i].command.Command? && group[i].command.stdout == ToPipe
  }

  lemma {:induction false} ToTreePiped(nodes: seq<Node>, cwd: string, group: seq<Stage>)
    requires Pipelined(nodes) && AllPiped(group)
    ensures TreePiped(ToTree(nodes, cwd, group))
    decreases |nodes|
  {
    if nodes[0].Chdir? {
      if |nodes| > 1 && nodes[0].dir.Some? {
        ToTreePiped(nodes[2..], JoinPath(cwd, nodes[0].dir.value), group);
      }
    } else if |nodes| > 1 {
      ToTreePiped(nodes[2..], cwd, if nodes[1] == Pipe then group + [Stage(cwd, nodes[0])] else []);
    }
  }

  /**
   * Where process i of the log reads: from its predecessor if that writes to a pipe, otherwise
   * from the file that its command names, otherwise from what the shell has.
   */
  predicate InputAt(log: seq<Launch>, stages: seq<Stage>, n: nat, i: nat)
    requires i < |log| && i < |stages|
  {
    && stages[i].command.Command?
    && if i > 0 && log[i - 1].stdout == ToPipe then log[i].stdin == FromPipe(n + i - 1)
       else match stages[i].command.stdin
            case Some(file) => log[i].stdin == FromFile(file)
            case None => log[i].stdin == Inherited
  }

  ghost predicate InputsMatch(log: seq<Launch>, stages: seq<Stage>, n: nat) {
    && |log| <= |stages|
    && forall i: nat {:trigger InputAt(log, stages, n, i)} :: i < |log| ==> InputAt(log, stages, n, i)
  }

  lemma GroupInputs(group: seq<Stage>, n: nat, stages: seq<Stage>)
    requires Commands(group) && forall i :: 0 <= i < |group| - 1 ==> group[i].command.stdout == ToPipe
    ensures InputsMatch(Launches(group, n), group + stages, n)
  {
  }

  lemma JoinInputs(a: seq<Launch>, sa: seq<Stage>, b: seq<Launch>, sb: seq<Stage>, n: nat)
    requires InputsMatch(a, sa + sb, n) && InputsMatch(b, sb, n + |a|) && |a| == |sa|
    requires a != [] && a[|a| - 1].stdout != ToPipe
    ensures InputsMatch(a + b, sa + sb, n)
  {
    forall i: nat | i < |a + b| ensures InputAt(a + b, sa + sb, n, i) {
      if i < |a| {
        assert InputAt(a, sa + sb, n, i);
      } else {
        assert InputAt(b, sb, n + |a|, i - |a|);
      }
    }
  }

  lemma {:induction false} EvalInputs(t: Tree, codes: nat -> int, n: nat)
    requires TreeOk(t) && TreePiped(t)
    ensures InputsMatch(Eval(t, codes, n).1, TreeStages(t), n)
    decreases t
  {
    var more := if t.AndThen? || t.OrElse? then TreeStages(t.rest) else [];
    GroupInputs(t.group, n, more);
    if t.AndThen? || t.OrElse? {
      EvalInputs(t.rest, codes, n + |t.group|);
      JoinInputs(Launches(t.group, n), t.group, Eval(t.rest, codes, n + |t.group|).1, more, n);
    }
  }

  // ----- how far a run goes

  /** Whether the process after one that ended with this code is launched. */
  predicate GoesOn(op: Option<Node>, code: int) {
    op == Some(Pipe) || (op == Some(And) && code == 0) || (op == Some(Or) && code != 0)
  }

  /**
   * A run with the given outcome and m processes, the first with number n, went on after each
   * of them but the last as the operators say; it returns where they say that it stops, and
   * raises an error only after the last command before a broken change of directory.
   */
  ghost predicate StopsRight(o: Outcome, m: nat, ops: seq<Option<Node>>, codes: nat -> int, n: nat) {
    && m <= |ops| && (forall i :: 0 <= i < m - 1 ==> GoesOn(ops[i], codes(n + i)))
    && match o
       case Returned(_) => m > 0 && !GoesOn(ops[m - 1], codes(n + m - 1))
       case Raised => m == |ops| && (m > 0 ==> GoesOn(ops[m - 1], codes(n + m - 1)))
       case NoResult => false
  }

  function Pipes(n: nat): seq<Option<Node>> {
    seq(n, i => Some(Pipe))
  }

  function TreeOps(t: Tree): seq<Option<Node>>
    requires TreeOk(t)
  {
    match t
    case Astray(group) => Pipes(|group|)
    case Last(group) => Pipes(|group| - 1) + [None]
    case AndThen(group, rest) => Pipes(|group| - 1) + [Some(And)] + TreeOps(rest)
    case OrElse(group, rest) => Pipes(|group| - 1) + [Some(Or)] + TreeOps(rest)
  }

  lemma {:induction false} ToTreeOps(nodes: seq<Node>, cwd: string, group: seq<Stage>)
    requires Pipelined(nodes) && Commands(group)
    ensures TreeOk(ToTree(nodes, cwd, group))
    ensures TreeOps(ToTree(nodes, cwd, group)) == Pipes(|group|) + OpsOf(nodes)
    decreases |nodes|
  {
    ToTreeOk(nodes, cwd, group);
    if nodes[0].Chdir? {
      if |nodes| > 1 && nodes[0].dir.Some? {
        ToTreeOps(nodes[2..], JoinPath(cwd, nodes[0].dir.value), group);
      }
    } else if |nodes| > 1 {
      OpsRegroup(Pipes(|group|), [Some(nodes[1])], OpsOf(nodes[2..]));
      if nodes[1] == Pipe {
        ToTreeOps(nodes[2..], cwd, group + [Stage(cwd, nodes[0])]);
        MorePipes(|group|);
      } else {
        ToTreeOps(nodes[2..], cwd, []);
        NoPipes(OpsOf(nodes[2..]));
      }
    }
  }

  lemma MorePipes(n: nat)
    ensures Pipes(n + 1) == Pipes(n) + [Some(Pipe)]
  {
  }

  lemma NoPipes(ops: seq<Option<Node>>)
    ensures Pipes(0) + ops == ops
  {
  }

  lemma OpsRegroup(a: seq<Option<Node>>, b: seq<Option<Node>>, c: seq<Option<Node>>)
    ensures a + b + c == a + (b + c)
  {
  }

  lemma ThenIndex(g: nat, op: Option<Node>, ops: seq<Option<Node>>, i: nat)
    requires g > 0 && i < g + |ops|
    ensures |Pipes(g - 1) + [op] + ops| == g + |ops|
    ensures (Pipes(g - 1) + [op] + ops)[i] == if i < g - 1 then Some(Pipe) else if i == g - 1 then op else ops[i - g]
  {
  }

  /** A group goes on inside; what follows it decides the rest. */
  lemma GroupThen(g: nat, op: Option<Node>, o: Outcome, m: nat, ops: seq<Option<Node>>, codes: nat -> int, n: nat)
    requires g > 0 && GoesOn(op, codes(n + g - 1)) && StopsRight(o, m, ops, codes, n + g)
    ensures StopsRight(o, g + m, Pipes(g - 1) + [op] + ops, codes, n)
  {
    var all := Pipes(g - 1) + [op] + ops;
    forall i | 0 <= i < g + m - 1 ensures GoesOn(all[i], codes(n + i)) {
      ThenIndex(g, op, ops, i);
      if i >= g {
        assert GoesOn(ops[i - g], codes(n + g + (i - g)));
      }
    }
    ThenIndex(g, op, ops, g - 1);
    if m > 0 {
      ThenIndex(g, op, ops, g + m - 1);
    }
  }

  lemma GroupStops(g: nat, op: Option<Node>, code: int, ops: seq<Option<Node>>, codes: nat -> int, n: nat)
    requires g > 0 && !GoesOn(op, codes(n + g - 1))
    ensures StopsRight(Returned(code), g, Pipes(g - 1) + [op] + ops, codes, n)
  {
  }

  lemma LastStopsRight(group: seq<Stage>, codes: nat -> int, n: nat)
    requires TreeOk(Last(group))
    ensures StopsRight(Returned(codes(n + |group| - 1)), |group|, TreeOps(Last(group)), codes, n)
  {
    GroupStops(|group|, None, codes(n + |group| - 1), [], codes, n);
    assert Pipes(|group| - 1) + [None] + [] == TreeOps(Last(group));
  }

  function ChoiceOp(t: Tree): Option<Node> {
    if t.AndThen? then Some(And) else Some(Or)
  }

  lemma ChoiceStopsRight(t: Tree, codes: nat -> int, n: nat)
    requires TreeOk(t) && (t.AndThen? || t.OrElse?) && !GoesOn(ChoiceOp(t), codes(n + |t.group| - 1))
    ensures StopsRight(Eval(t, codes, n).0, |Eval(t, codes, n).1|, TreeOps(t), codes, n)
  {
    EvalStops(t, codes, n);
    GroupStops(|t.group|, ChoiceOp(t), codes(n + |t.group| - 1), TreeOps(t.rest), codes, n);
  }

  lemma ChoiceGoesOn(t: Tree, codes: nat -> int, n: nat)
    requires TreeOk(t) && (t.AndThen? || t.OrElse?) && GoesOn(ChoiceOp(t), codes(n + |t.group| - 1))
    requires var next := n + |t.group|;
             StopsRight(Eval(t.rest, codes, next).0, |Eval(t.rest, codes, next).1|, TreeOps(t.rest), codes, next)
    ensures StopsRight(Eval(t, codes, n).0, |Eval(t, codes, n).1|, TreeOps(t), codes, n)
  {
    var (o, more) := Eval(t.rest, codes, n + |t.group|);
    EvalGoesOn(t, codes, n);
    GroupThen(|t.group|, ChoiceOp(t), o, |more|, TreeOps(t.rest), codes, n);
  }

  lemma {:induction false} EvalStopsRight(t: Tree, codes: nat -> int, n: nat)
    requires TreeOk(t)
    ensures StopsRight(Eval(t, codes, n).0, |Eval(t, codes, n).1|, TreeOps(t), codes, n)
    decreases t
  {
    match t
    case Astray(_) =>
    case Last(group) => LastStopsRight(group, codes, n);
    case _ =>
      if GoesOn(ChoiceOp(t), codes(n + |t.group| - 1)) {
        EvalStopsRight(t.rest, codes, n + |t.group|);
        ChoiceGoesOn(t, codes, n);
      } else {
        ChoiceStopsRight(t, codes, n);
      }
  }

  /** A run with this outcome and these processes, the first with number n. */
  ghost predicate InOrder(o: Outcome, log: seq<Launch>, stages: seq<Stage>, ops: seq<Option<Node>>,
                          codes: nat -> int, n: nat) {
    && AllLaunched(log, stages) && InputsMatch(log, stages, n) && StopsRight(o, |log|, ops, codes, n)
    && (o.Returned? ==> log != [] && o.code == codes(n + |log| - 1))
  }

  lemma EvalInOrder(t: Tree, codes: nat -> int, n: nat, o: Outcome, log: seq<Launch>)
    requires TreeOk(t) && TreePiped(t) && o == Eval(t, codes, n).0 && log == Eval(t, codes, n).1
    ensures InOrder(o, log, TreeStages(t), TreeOps(t), codes, n)
  {
    EvalOrder(t, codes, n);
    EvalInputs(t, codes, n);
    EvalStopsRight(t, codes, n);
  }

  /**
   * What Run does for every parsed pipeline and all exit codes: it launches the commands in
   * order from the first one on, each in the directory that the changes before it lead to and
   * with the input that its predecessor or its redirection gives; it goes on after a process
   * exactly as the operators and the exit codes say; and the result is the exit code of the
   * last process launched.
   */
  lemma {:induction false} RunInOrder(nodes: seq<Node>, codes: nat -> int)
    requires Pipelined(nodes)
    ensures var (o, log) := Resume(nodes, ".", [], [], codes);
            InOrder(o, log, StagesOf(nodes, "."), OpsOf(nodes), codes, 0)
  {
    ToTreePiped(nodes, ".", []);
    var t := WholeRun(nodes, codes);
    EvalInOrder(t, codes, 0, Eval(t, codes, 0).0, Eval(t, codes, 0).1);
    ToTreeOps(nodes, ".", []);
    NoPipes(OpsOf(nodes));
  }

  lemma {:induction false} WholeRun(nodes: seq<Node>, codes: nat -> int) returns (t: Tree)
    requires Pipelined(nodes)
    ensures t == ToTree(nodes, ".", []) && TreeOk(t) && TreeStages(t) == StagesOf(nodes, ".")
    ensures Resume(nodes, ".", [], [], codes) == Eval(t, codes, 0)
  {
    t := ToTree(nodes, ".", []);
    ToTreeOk(nodes, ".", []);
    ToTreeStages(nodes, ".", []);
    assert [] + StagesOf(nodes, ".") == StagesOf(nodes, ".");
    var more := Eval(t, codes, 0).1;
    assert [] + more == more;
  }

  // ----- when a run fails

  predicate GoesAstray(t: Tree) {
    t.Astray? || ((t.AndThen? || t.OrElse?) && GoesAstray(t.rest))
  }

  /** Every change of directory has a directory and something after it. */
  predicate ChdirsComplete(nodes: seq<Node>) {
    forall i :: 0 <= i < |nodes| && nodes[i].Chdir? ==> nodes[i].dir.Some? && i + 1 < |nodes|
  }

  lemma {:induction false} AstrayIff(nodes: seq<Node>, cwd: string, group: seq<Stage>)
    requires Pipelined(nodes)
    ensures GoesAstray(ToTree(nodes, cwd, group)) <==> !ChdirsComplete(nodes)
    decreases |nodes|
  {
    if |nodes| > 1 {
      assert nodes[1].Pipe? || nodes[1].And? || nodes[1].Or?;
      assert forall i :: 0 <= i < |nodes| - 2 ==> nodes[2..][i] == nodes[i + 2];
      assert ChdirsComplete(nodes) <==> (nodes[0].Chdir? ==> nodes[0].dir.Some?) && ChdirsComplete(nodes[2..]) by {
        if ChdirsComplete(nodes[2..]) {
          assert forall i :: 2 <= i < |nodes| ==> nodes[i] == nodes[2..][i - 2];
        }
      }
      var grown := group + [Stage(cwd, nodes[0])];
      if nodes[0].Command? {
        AstrayIff(nodes[2..], cwd, if nodes[1] == Pipe then grown else []);
      } else if nodes[0].dir.Some? {
        AstrayIff(nodes[2..], JoinPath(cwd, nodes[0].dir.value), group);
      }
    }
  }

  /** The exit code of process k under which every group lets the next one run. */
  function OnwardsCode(t: Tree, n: nat, k: nat): int {
    if k < n + |t.group| then (if t.AndThen? then 0 else 1)
    else if t.AndThen? || t.OrElse? then OnwardsCode(t.rest, n + |t.group|, k)
    else 0
  }

  function Onwards(t: Tree, n: nat): nat -> int {
    (k: nat) => OnwardsCode(t, n, k)
  }

  lemma {:induction false} EvalGoesOn(t: Tree, codes: nat -> int, n: nat)
    requires TreeOk(t) && (t.AndThen? || t.OrElse?) && (codes(n + |t.group| - 1) == 0 <==> t.AndThen?)
    ensures Eval(t, codes, n).0 == Eval(t.rest, codes, n + |t.group|).0
    ensures Eval(t, codes, n).1 == Launches(t.group, n) + Eval(t.rest, codes, n + |t.group|).1
  {
  }

  lemma {:induction false} EvalStops(t: Tree, codes: nat -> int, n: nat)
    requires TreeOk(t) && (t.AndThen? || t.OrElse?) && (codes(n + |t.group| - 1) == 0 <==> t.OrElse?)
    ensures Eval(t, codes, n) == (Returned(codes(n + |t.group| - 1)), Launches(t.group, n))
  {
  }

  lemma {:induction false} OnwardsRaises(t: Tree, n: nat, codes: nat -> int)
    requires TreeOk(t) && GoesAstray(t) && forall k: nat :: k >= n ==> codes(k) == OnwardsCode(t, n, k)
    ensures Eval(t, codes, n).0 == Raised
    decreases t
  {
    if t.AndThen? || t.OrElse? {
      var next := n + |t.group|;
      assert codes(next - 1) == OnwardsCode(t, n, next - 1);
      EvalGoesOn(t, codes, n);
      OnwardsRaises(t.rest, next, codes);
    }
  }

  lemma {:induction false} SoundNeverRaises(t: Tree, codes: nat -> int, n: nat)
    requires TreeOk(t) && !GoesAstray(t)
    ensures Eval(t, codes, n).0.Returned?
    decreases t
  {
    if t.AndThen? || t.OrElse? {
      SoundNeverRaises(t.rest, codes, n + |t.group|);
    }
  }

  /** Run returns for all exit codes if and only if no cd lacks its directory or ends the pipeline. */
  lemma RunReturnsIff(nodes: seq<Node>)
    requires Pipelined(nodes)
    ensures ChdirsComplete(nodes) <==> forall codes: nat -> int :: Resume(nodes, ".", [], [], codes).0.Returned?
  {
    var t := ToTree(nodes, ".", []);
    ToTreeOk(nodes, ".", []);
    AstrayIff(nodes, ".", []);
    if ChdirsComplete(nodes) {
      forall codes: nat -> int ensures Resume(nodes, ".", [], [], codes).0.Returned? {
        SoundNeverRaises(t, codes, 0);
      }
    } else {
      OnwardsRaises(t, 0, Onwards(t, 0));
      assert !Resume(nodes, ".", [], [], Onwards(t, 0)).0.Returned?;
    }
  }
}
