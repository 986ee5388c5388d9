/** The command language of the pipeline parser: tokens, nodes, and what parsing them means. */
module ShellSyntax {
  import opened Collections

  datatype Target = Inherit | ToFile(file: string) | ToPipe | ToStdout

  datatype Node =
    | Command(argv: seq<string>, stdin: Option<string>, stdout: Target, stderr: Target, env: map<string, string>)
    | Chdir(dir: Option<string>)
    | Pipe | And | Or

  datatype Result = Ok(nodes: seq<Node>) | AssertionError

  function NewCommand(name: string, env: map<string, string>): Node {
    Command([name], None, Inherit, Inherit, env)
  }

  // ----- environment assignments: the pattern ^([a-zA-Z0-9_]+)=(\S+)$

  predicate IsWordChar(c: char) {
    'a' <= c <= 'z' || 'A' <= c <= 'Z' || '0' <= c <= '9' || c == '_'
  }

  predicate IsSpace(c: char) {
    c == ' ' || c == '\t' || c == '\n' || c == '\r' || c == 0x0B as char || c == 0x0C as char
  }

  predicate IsKey(k: string) {
    k != "" && forall i :: 0 <= i < |k| ==> IsWordChar(k[i])
  }

  predicate IsValue(v: string) {
    v != "" && forall i :: 0 <= i < |v| ==> !IsSpace(v[i])
  }

  /** The length of the part before the first equals sign. */
  function KeyLength(token: string): (n: nat)
    ensures n <= |token| && '=' !in token[..n] && (n < |token| ==> token[n] == '=')
  {
    if token == "" || token[0] == '=' then 0 else KeyLength(token[1..]) + 1
  }

  /** The dollar sign of the pattern also matches before a final newline. */
  function WithoutNewline(v: string): string {
    if v != "" && v[|v| - 1] == '\n' then v[..|v| - 1] else v
  }

  function Assignment(token: string): Option<(string, string)> {
    var n := KeyLength(token);
    if n == |token| then None
    else
      var k, v := token[..n], WithoutNewline(token[n + 1..]);
      if IsKey(k) && IsValue(v) then Some((k, v)) else None
  }

  lemma KeyEnds(k: string, v: string, n: nat)
    requires IsKey(k) && n == KeyLength(k + "=" + v)
    ensures n == |k|
  {
    var token := k + "=" + v;
    assert token[|k|] == '=' && forall i :: 0 <= i < n ==> token[i] in token[..n];
  }

  lemma AssignmentOfPair(k: string, v: string)
    requires IsKey(k) && IsValue(v)
    ensures Assignment(k + "=" + v) == Some((k, v))
  {
    var token := k + "=" + v;
    var n := KeyLength(token);
    KeyEnds(k, v, n);
    assert token[..n] == k && token[n + 1..] == v;
    assert !IsSpace(v[|v| - 1]);
  }

  lemma KeyLengthOf(k: string, rest: string)
    requires IsKey(k)
    ensures KeyLength(k + "=" + rest) == |k|
  {
    var token := k + "=" + rest;
    KeyEnds(k, rest, KeyLength(token));
  }

  predicate IsAssignment(token: string, k: string, v: string) {
    IsKey(k) && IsValue(v) && (token == k + "=" + v || token == k + "=" + v + "\n")
  }

  lemma AssignmentForm(token: string, k: string, v: string)
    requires Assignment(token) == Some((k, v))
    ensures IsAssignment(token, k, v)
  {
    var n := KeyLength(token);
    var rest := token[n + 1..];
    assert token == token[..n] + "=" + rest;
    NewlineForm(rest);
    assert k == token[..n] && v == WithoutNewline(rest);
    if rest != v {
      assert token[..n] + "=" + (v + "\n") == k + "=" + v + "\n";
    }
  }

  lemma NewlineForm(v: string)
    ensures v == WithoutNewline(v) || v == WithoutNewline(v) + "\n"
  {
  }

  lemma AssignmentWithNewline(k: string, v: string)
    requires IsKey(k) && IsValue(v)
    ensures Assignment(k + "=" + v + "\n") == Some((k, v))
  {
    var rest := v + "\n";
    var token := k + "=" + rest;
    assert k + "=" + v + "\n" == token;
    KeyLengthOf(k, rest);
    assert token[..|k|] == k && token[|k| + 1..] == rest && WithoutNewline(rest) == v;
  }

  /** A token is an assignment exactly if it has this form; a line break at its end is not part of the value. */
  lemma AssignmentExact(token: string, k: string, v: string)
    ensures Assignment(token) == Some((k, v)) <==> IsAssignment(token, k, v)
  {
    if Assignment(token) == Some((k, v)) {
      AssignmentForm(token, k, v);
    }
    if IsKey(k) && IsValue(v) {
      AssignmentOfPair(k, v);
      AssignmentWithNewline(k, v);
    }
  }

  // ----- the grammar

  predicate IsOperator(token: string) {
    token in [">", "2>", "2>&1", "<", "|", "&&", "||"]
  }

  function Prepend(before: seq<Node>, r: Result): Result {
    if r.Ok? then Ok(before + r.nodes) else r
  }

  /** At the start of a command, with the assignments read so far. */
  function ParseBegin(tokens: seq<string>, env: map<string, string>): Result
    decreases |tokens|
  {
    if tokens == [] then AssertionError
    else
      match Assignment(tokens[0])
      case Some((k, v)) => ParseBegin(tokens[1..], env[k := v])
      case None =>
        if tokens[0] != "cd" then ParseWords(tokens[1..], NewCommand(tokens[0], env))
        else if env == map[] then ParseChdir(tokens[1..], None)
        else AssertionError
  }

  /** After the words and redirections of cmd; a redirection sign and its file belong together. */
  function ParseWords(tokens: seq<string>, cmd: Node): Result
    requires cmd.Command?
    decreases |tokens|
  {
    if tokens == [] then Ok([cmd])
    else if tokens[0] in [">", "2>", "<"] then
      if |tokens| == 1 then Ok([cmd])
      else if !FreeFor(cmd, tokens[0]) then AssertionError
      else ParseWords(tokens[2..], Redirect(cmd, tokens[0], tokens[1]))
    else if tokens[0] == "2>&1" then
      if cmd.stderr != Inherit then AssertionError else ParseWords(tokens[1..], cmd.(stderr := ToStdout))
    else if tokens[0] == "|" then
      if cmd.stdout != Inherit then AssertionError
      else Prepend([cmd.(stdout := ToPipe), Pipe], ParseBegin(tokens[1..], map[]))
    else if tokens[0] == "&&" then Prepend([cmd, And], ParseBegin(tokens[1..], map[]))
    else if tokens[0] == "||" then Prepend([cmd, Or], ParseBegin(tokens[1..], map[]))
    else ParseWords(tokens[1..], cmd.(argv := cmd.argv + [tokens[0]]))
  }

  predicate FreeFor(cmd: Node, sign: string)
    requires cmd.Command?
  {
    if sign == ">" then cmd.stdout == Inherit else if sign == "2>" then cmd.stderr == Inherit else cmd.stdin == None
  }

  function Redirect(cmd: Node, sign: string, file: string): (r: Node)
    requires cmd.Command?
    ensures r.Command? && r.argv == cmd.argv && r.env == cmd.env
  {
    if sign == ">" then cmd.(stdout := ToFile(file))
    else if sign == "2>" then cmd.(stderr := ToFile(file))
    else cmd.(stdin := Some(file))
  }

  function ParseChdir(tokens: seq<string>, dir: Option<string>): Result
    decreases |tokens|
  {
    if tokens == [] then Ok([Chdir(dir)])
    else if tokens[0] == "&&" then Prepend([Chdir(dir), And], ParseBegin(tokens[1..], map[]))
    else if dir.Some? then AssertionError
    else ParseChdir(tokens[1..], Some(tokens[0]))
  }

  /** A change of directory takes no environment and one directory; every operator needs a command after it. */
  lemma Rejected(k: string, v: string, dir: string, more: string, env: map<string, string>, rest: seq<string>,
                 cmd: Node)
    requires IsKey(k) && IsValue(v) && dir != "&&" && more != "&&" && cmd.Command?
    ensures ParseBegin([], env) == AssertionError
    ensures ParseBegin([k + "=" + v, "cd"] + rest, env) == AssertionError
    ensures ParseBegin(["cd", dir, more] + rest, env) == AssertionError
    ensures ParseWords(["|"], cmd) == ParseWords(["&&"], cmd) == ParseWords(["||"], cmd) == AssertionError
    ensures ParseChdir(["&&"], None) == AssertionError
  {
    var given := env[k := v];
    AssignmentOfPair(k, v);
    assert ([k + "=" + v, "cd"] + rest)[1..] == ["cd"] + rest && k in given;
    ChdirTokens(dir, more, rest);
    CdIsNoAssignment();
    CdAfter(["cd"] + rest, given);
    CdAfter(["cd", dir, more] + rest, env);
    assert (["cd", dir, more] + rest)[1..] == [dir, more] + rest;
  }

  lemma CdIsNoAssignment()
    ensures Assignment("cd") == None
  {
    assert KeyLength("cd") == 1 + KeyLength("d") && "cd"[1..] == "d" && "d"[1..] == "";
  }

  lemma CdAfter(tokens: seq<string>, env: map<string, string>)
    requires tokens != [] && tokens[0] == "cd"
    ensures ParseBegin(tokens, env) == if env == map[] then ParseChdir(tokens[1..], None) else AssertionError
  {
    CdIsNoAssignment();
  }

  lemma ChdirTokens(dir: string, more: string, rest: seq<string>)
    requires dir != "&&" && more != "&&"
    ensures ParseChdir([dir, more] + rest, None) == AssertionError
  {
    var tokens := [dir, more] + rest;
    assert tokens[1..] == [more] + rest;
    assert ParseChdir(tokens[1..], Some(dir)) == AssertionError;
  }

  // ----- which node lists are the result of parsing

  predicate EnvOk(env: map<string, string>) {
    forall k :: k in env ==> IsKey(k) && IsValue(env[k])
  }

  predicate CommandOk(cmd: Node) {
    && cmd.Command? && cmd.argv != [] && cmd.argv[0] != "cd" && Assignment(cmd.argv[0]) == None
    && (forall i :: 1 <= i < |cmd.argv| ==> !IsOperator(cmd.argv[i]))
    && cmd.stdout != ToStdout && cmd.stderr != ToPipe && EnvOk(cmd.env)
  }

  predicate ChdirOk(node: Node) {
    node.Chdir? && node.dir != Some("&&")
  }

  /**
   * Commands and operators alternate and start and end with a command; the standard output of a
   * command is a pipe if and only if a pipe operator follows; a change of directory is only ever
   * followed by And.
   */
  predicate Pipelined(nodes: seq<Node>)
    decreases |nodes|
  {
    && nodes != []
    && (CommandOk(nodes[0]) || ChdirOk(nodes[0]))
    && (nodes[0].Command? ==> (nodes[0].stdout == ToPipe <==> |nodes| > 1 && nodes[1] == Pipe))
    && (|nodes| > 1 ==>
          && (if nodes[0].Chdir? then nodes[1] == And else nodes[1] in [Pipe, And, Or])
          && Pipelined(nodes[2..]))
  }

  lemma {:induction false} OddLength(nodes: seq<Node>)
    requires Pipelined(nodes)
    ensures |nodes| % 2 == 1
    decreases |nodes|
  {
    if |nodes| > 1 {
      OddLength(nodes[2..]);
    }
  }

  /** The same, position by position. */
  lemma {:induction false} PositionsAlternate(nodes: seq<Node>, i: nat)
    requires Pipelined(nodes) && i < |nodes|
    ensures |nodes| % 2 == 1
    ensures if i % 2 == 0 then nodes[i].Command? || nodes[i].Chdir? else nodes[i] in [Pipe, And, Or]
    ensures nodes[i].Command? ==> (nodes[i].stdout == ToPipe <==> i + 1 < |nodes| && nodes[i + 1] == Pipe)
    ensures nodes[i].Chdir? && i + 1 < |nodes| ==> nodes[i + 1] == And
    decreases |nodes|
  {
    OddLength(nodes);
    if i >= 2 {
      var later := nodes[2..];
      PositionsAlternate(later, i - 2);
      assert later[i - 2] == nodes[i] && (i + 1 < |nodes| ==> later[i - 1] == nodes[i + 1]);
    } else if |nodes| > 1 {
      FirstTwo(nodes);
    }
  }

  lemma FirstTwo(nodes: seq<Node>)
    requires Pipelined(nodes) && |nodes| > 1
    ensures nodes[0].Command? || nodes[0].Chdir?
    ensures nodes[1] in [Pipe, And, Or] && !nodes[1].Command? && !nodes[1].Chdir?
    ensures nodes[0].Command? ==> (nodes[0].stdout == ToPipe <==> nodes[1] == Pipe)
    ensures nodes[0].Chdir? ==> nodes[1] == And
  {
  }

  lemma Join(first: Node, op: Node, rest: seq<Node>)
    requires Pipelined(rest) && (CommandOk(first) || ChdirOk(first))
    requires if first.Chdir? then op == And else op in [Pipe, And, Or]
    requires first.Command? ==> (first.stdout == ToPipe <==> op == Pipe)
    ensures Pipelined([first, op] + rest)
  {
    assert ([first, op] + rest)[2..] == rest;
  }

  /** A command under construction. */
  predicate Open(cmd: Node) {
    CommandOk(cmd) && cmd.stdout != ToPipe
  }

  lemma RedirectOpen(cmd: Node, sign: string, file: string)
    requires Open(cmd)
    ensures Open(Redirect(cmd, sign, file))
  {
  }

  lemma {:induction false} BeginIsPipelined(tokens: seq<string>, env: map<string, string>)
    requires EnvOk(env) && ParseBegin(tokens, env).Ok?
    ensures Pipelined(ParseBegin(tokens, env).nodes)
    decreases |tokens|
  {
    match Assignment(tokens[0])
    case Some((k, v)) => BeginIsPipelined(tokens[1..], env[k := v]);
    case None =>
      if tokens[0] != "cd" {
        WordsArePipelined(tokens[1..], NewCommand(tokens[0], env));
      } else {
        ChdirIsPipelined(tokens[1..], None);
      }
  }

  lemma {:induction false} WordsArePipelined(tokens: seq<string>, cmd: Node)
    requires Open(cmd) && ParseWords(tokens, cmd).Ok?
    ensures Pipelined(ParseWords(tokens, cmd).nodes)
    decreases |tokens|
  {
    if tokens != [] {
      if tokens[0] in [">", "2>", "<"] {
        if |tokens| > 1 {
          RedirectOpen(cmd, tokens[0], tokens[1]);
          WordsArePipelined(tokens[2..], Redirect(cmd, tokens[0], tokens[1]));
        }
      } else if tokens[0] == "2>&1" {
        WordsArePipelined(tokens[1..], cmd.(stderr := ToStdout));
      } else if tokens[0] in ["|", "&&", "||"] {
        BeginIsPipelined(tokens[1..], map[]);
        var first := if tokens[0] == "|" then cmd.(stdout := ToPipe) else cmd;
        Join(first, OpOf(tokens[0]), ParseBegin(tokens[1..], map[]).nodes);
      } else {
        WordsArePipelined(tokens[1..], cmd.(argv := cmd.argv + [tokens[0]]));
      }
    }
  }

  lemma {:induction false} ChdirIsPipelined(tokens: seq<string>, dir: Option<string>)
    requires ChdirOk(Chdir(dir)) && ParseChdir(tokens, dir).Ok?
    ensures Pipelined(ParseChdir(tokens, dir).nodes)
    decreases |tokens|
  {
    if tokens != [] {
      if tokens[0] == "&&" {
        BeginIsPipelined(tokens[1..], map[]);
        Join(Chdir(dir), And, ParseBegin(tokens[1..], map[]).nodes);
      } else {
        ChdirIsPipelined(tokens[1..], Some(tokens[0]));
      }
    }
  }

  function OpOf(token: string): Node {
    if token == "|" then Pipe else if token == "&&" then And else Or
  }

  // ----- rendering

  function TokenOf(op: Node): string {
    if op == Pipe then "|" else if op == And then "&&" else "||"
  }

  /** A dictionary as an association list; of equal keys the last one counts. */
  function Update(env: map<string, string>, pairs: seq<(string, string)>): map<string, string>
    decreases |pairs|
  {
    if pairs == [] then env else Update(env[pairs[0].0 := pairs[0].1], pairs[1..])
  }

  function Assignments(pairs: seq<(string, string)>): seq<string> {
    seq(|pairs|, i requires 0 <= i < |pairs| => pairs[i].0 + "=" + pairs[i].1)
  }

  function Redirections(cmd: Node): seq<string>
    requires cmd.Command?
  {
    (if cmd.stdin.Some? then ["<", cmd.stdin.value] else [])
    + (if cmd.stdout.ToFile? then [">", cmd.stdout.file] else [])
    + (if cmd.stderr.ToFile? then ["2>", cmd.stderr.file] else if cmd.stderr.ToStdout? then ["2>&1"] else [])
  }

  /** How the environment of each command is listed; a dictionary has no order of its own. */
  type Listing = map<string, string> -> seq<(string, string)>

  predicate PairsOk(pairs: seq<(string, string)>) {
    forall i :: 0 <= i < |pairs| ==> IsKey(pairs[i].0) && IsValue(pairs[i].1)
  }

  ghost predicate Lists(list: Listing) {
    forall env :: EnvOk(env) ==> PairsOk(list(env)) && Update(map[], list(env)) == env
  }

  function RenderOne(node: Node, list: Listing): seq<string> {
    match node
    case Command(argv, _, _, _, env) => Assignments(list(env)) + argv + Redirections(node)
    case Chdir(None) => ["cd"]
    case Chdir(Some(d)) => ["cd", d]
    case _ => [TokenOf(node)]
  }

  function Render(nodes: seq<Node>, list: Listing): seq<string> {
    if nodes == [] then [] else RenderOne(nodes[0], list) + Render(nodes[1..], list)
  }

  // ----- parsing undoes rendering

  lemma {:induction false} ReadAssignments(pairs: seq<(string, string)>, rest: seq<string>, env: map<string, string>)
    requires PairsOk(pairs)
    ensures ParseBegin(Assignments(pairs) + rest, env) == ParseBegin(rest, Update(env, pairs))
    decreases |pairs|
  {
    var tokens := Assignments(pairs) + rest;
    if pairs == [] {
      assert tokens == rest;
    } else {
      AssignmentOfPair(pairs[0].0, pairs[0].1);
      assert tokens[1..] == Assignments(pairs[1..]) + rest;
      ReadAssignments(pairs[1..], rest, env[pairs[0].0 := pairs[0].1]);
    }
  }

  lemma {:induction false} ReadWords(words: seq<string>, rest: seq<string>, cmd: Node)
    requires cmd.Command? && forall i :: 0 <= i < |words| ==> !IsOperator(words[i])
    ensures ParseWords(words + rest, cmd) == ParseWords(rest, cmd.(argv := cmd.argv + words))
    decreases |words|
  {
    var tokens := words + rest;
    if words == [] {
      assert tokens == rest && cmd.argv + words == cmd.argv;
    } else {
      assert tokens[0] == words[0] && tokens[1..] == words[1..] + rest;
      ReadWords(words[1..], rest, cmd.(argv := cmd.argv + [words[0]]));
      assert cmd.argv + [words[0]] + words[1..] == cmd.argv + words;
    }
  }

  lemma ReadFile(sign: string, file: string, rest: seq<string>, cmd: Node)
    requires cmd.Command? && sign in [">", "2>", "<"] && FreeFor(cmd, sign)
    ensures ParseWords([sign, file] + rest, cmd) == ParseWords(rest, Redirect(cmd, sign, file))
  {
    var tokens := [sign, file] + rest;
    assert tokens[2..] == rest;
  }

  // ----- redirections among the words

  /** Two tokens that would both give the same stream of a command a place to go to or to come from. */
  predicate Conflict(first: string, second: string) {
    || (first in [">", "2>", "<"] && second == first) || (first == "2>" && second == "2>&1")
    || (first == ">" && second == "|")
  }

  /** The stream that the token would redirect is redirected already. */
  predicate Taken(cmd: Node, token: string)
    requires cmd.Command?
  {
    || (token in [">", "|"] && cmd.stdout != Inherit)
    || (token in ["2>", "2>&1"] && cmd.stderr != Inherit)
    || (token == "<" && cmd.stdin.Some?)
  }

  lemma Refused(cmd: Node, token: string, rest: seq<string>)
    requires cmd.Command? && Taken(cmd, token) && (token in [">", "2>", "<"] ==> rest != [])
    ensures ParseWords([token] + rest, cmd) == AssertionError
  {
    assert ([token] + rest)[0] == token && |[token] + rest| == 1 + |rest|;
  }

  lemma ConflictIsTaken(cmd: Node, first: string, file: string, words: seq<string>, second: string)
    requires cmd.Command? && Conflict(first, second)
    ensures var now := Redirect(cmd, first, file); Taken(now.(argv := now.argv + words), second)
    ensures first in [">", "2>", "<"] && (!FreeFor(cmd, first) ==> Taken(cmd, first))
  {
  }

  lemma SecondAfterFree(cmd: Node, first: string, file: string, words: seq<string>, second: string,
                        rest: seq<string>)
    requires cmd.Command? && forall i :: 0 <= i < |words| ==> !IsOperator(words[i])
    requires first in [">", "2>", "<"] && FreeFor(cmd, first) && (second in [">", "2>", "<"] ==> rest != [])
    requires var now := Redirect(cmd, first, file); Taken(now.(argv := now.argv + words), second)
    ensures ParseWords([first, file] + (words + ([second] + rest)), cmd) == AssertionError
  {
    var now := Redirect(cmd, first, file);
    ReadFile(first, file, words + ([second] + rest), cmd);
    ReadWords(words, [second] + rest, now);
    Refused(now.(argv := now.argv + words), second, rest);
  }

  lemma SecondAfterTaken(cmd: Node, first: string, file: string, later: seq<string>)
    requires cmd.Command? && Taken(cmd, first)
    ensures ParseWords([first, file] + later, cmd) == AssertionError
  {
    Refused(cmd, first, [file] + later);
    assert [first, file] + later == [first] + ([file] + later);
  }

  /** A stream cannot be redirected twice, whatever words are between the two places. */
  lemma SecondRedirection(cmd: Node, first: string, file: string, words: seq<string>, second: string,
                          rest: seq<string>)
    requires cmd.Command? && forall i :: 0 <= i < |words| ==> !IsOperator(words[i])
    requires Conflict(first, second) && (second in [">", "2>", "<"] ==> rest != [])
    ensures ParseWords([first, file] + (words + ([second] + rest)), cmd) == AssertionError
  {
    ConflictIsTaken(cmd, first, file, words, second);
    if FreeFor(cmd, first) {
      SecondAfterFree(cmd, first, file, words, second, rest);
    } else {
      SecondAfterTaken(cmd, first, file, words + ([second] + rest));
    }
  }

  /** A redirection sign at the very end is accepted and changes nothing. */
  lemma OpenRedirection(cmd: Node, sign: string)
    requires cmd.Command? && sign in [">", "2>", "<"]
    ensures ParseWords([sign], cmd) == Ok([cmd])
  {
  }

  /** It does not matter where among the words a redirection stands. */
  lemma RedirectionMoves(cmd: Node, sign: string, file: string, words: seq<string>, rest: seq<string>)
    requires cmd.Command? && sign in [">", "2>", "<"] && forall i :: 0 <= i < |words| ==> !IsOperator(words[i])
    ensures ParseWords([sign, file] + (words + rest), cmd) == ParseWords(words + ([sign, file] + rest), cmd)
  {
    var longer := cmd.(argv := cmd.argv + words);
    ReadWords(words, [sign, file] + rest, cmd);
    if FreeFor(cmd, sign) {
      ReadFile(sign, file, words + rest, cmd);
      ReadWords(words, rest, Redirect(cmd, sign, file));
      ReadFile(sign, file, rest, longer);
    }
  }

  /** A command before the operator that follows it is read: its output is not a pipe yet. */
  function Plain(cmd: Node): (p: Node)
    requires cmd.Command?
    ensures p.Command?
  {
    cmd.(stdout := if cmd.stdout == ToPipe then Inherit else cmd.stdout)
  }

  lemma ReadErrors(cmd: Node, target: Target, errs: seq<string>, rest: seq<string>)
    requires cmd.Command? && cmd.stderr == Inherit && target != ToPipe
    requires errs == if target.ToFile? then ["2>", target.file] else if target.ToStdout? then ["2>&1"] else []
    ensures ParseWords(errs + rest, cmd) == ParseWords(rest, cmd.(stderr := target))
  {
    if target.ToStdout? {
      assert (errs + rest)[1..] == rest;
    } else {
      ReadOptional(if target.ToFile? then Some(target.file) else None, "2>", errs, rest, cmd);
    }
  }

  lemma ThreeThen(a: seq<string>, b: seq<string>, c: seq<string>, d: seq<string>)
    ensures a + b + c + d == a + (b + (c + d))
  {
  }

  /** The redirections of cmd are read back into a command that has none. */
  lemma ReadRedirections(cmd: Node, rest: seq<string>)
    requires cmd.Command? && cmd.stdout != ToStdout && cmd.stderr != ToPipe
    ensures ParseWords(Redirections(cmd) + rest, Command(cmd.argv, None, Inherit, Inherit, cmd.env))
            == ParseWords(rest, Plain(cmd))
  {
    var c0 := Command(cmd.argv, None, Inherit, Inherit, cmd.env);
    var c1 := c0.(stdin := cmd.stdin);
    var c2 := c1.(stdout := Plain(cmd).stdout);
    var ins := if cmd.stdin.Some? then ["<", cmd.stdin.value] else [];
    var outs := if cmd.stdout.ToFile? then [">", cmd.stdout.file] else [];
    var errs := if cmd.stderr.ToFile? then ["2>", cmd.stderr.file] else if cmd.stderr.ToStdout? then ["2>&1"] else [];
    ThreeThen(ins, outs, errs, rest);
    ReadOptional(cmd.stdin, "<", ins, outs + (errs + rest), c0);
    ReadOptional(if cmd.stdout.ToFile? then Some(cmd.stdout.file) else None, ">", outs, errs + rest, c1);
    ReadErrors(c2, cmd.stderr, errs, rest);
  }

  lemma ReadOptional(file: Option<string>, sign: string, tokens: seq<string>, rest: seq<string>, cmd: Node)
    requires cmd.Command? && sign in [">", "2>", "<"] && FreeFor(cmd, sign)
    requires tokens == if file.Some? then [sign, file.value] else []
    ensures ParseWords(tokens + rest, cmd)
            == ParseWords(rest, if file.Some? then Redirect(cmd, sign, file.value) else cmd)
  {
    if file.Some? {
      ReadFile(sign, file.value, rest, cmd);
    } else {
      assert tokens + rest == rest;
    }
  }

  /** A command's tokens leave the parser with the command in hand. */
  lemma ReadCommand(cmd: Node, rest: seq<string>, list: Listing)
    requires CommandOk(cmd) && Lists(list)
    ensures ParseBegin(RenderOne(cmd, list) + rest, map[])
            == ParseWords(rest, Plain(cmd))
  {
    var pairs, args := list(cmd.env), cmd.argv[1..];
    var tail := args + (Redirections(cmd) + rest);
    var tokens := [cmd.argv[0]] + tail;
    assert cmd.argv == [cmd.argv[0]] + args;
    assert RenderOne(cmd, list) + rest == Assignments(pairs) + tokens;
    ReadAssignments(pairs, tokens, map[]);
    assert tokens[1..] == tail;
    var start := NewCommand(cmd.argv[0], cmd.env);
    assert ParseBegin(tokens, cmd.env) == ParseWords(tail, start);
    ReadWords(args, Redirections(cmd) + rest, start);
    assert start.argv + args == cmd.argv;
    ReadRedirections(cmd, rest);
  }

  lemma ReadChdir(node: Node, rest: seq<string>, list: Listing)
    requires ChdirOk(node) && (rest == [] || rest[0] == "&&")
    ensures ParseBegin(RenderOne(node, list) + rest, map[]) == ParseChdir(rest, node.dir)
  {
    var tokens := RenderOne(node, list) + rest;
    NotAnAssignment();
    if node.dir.Some? {
      assert tokens[1..] == [node.dir.value] + rest && tokens[1..][1..] == rest;
    } else {
      assert tokens[1..] == rest;
    }
  }

  lemma NotAnAssignment()
    ensures Assignment("cd") == None
  {
    assert "cd"[1..] == "d" && "d"[1..] == "";
    assert KeyLength("") == 0 && KeyLength("d") == 1 && KeyLength("cd") == 2;
  }

  /** Parsing the rendering of a pipelined list gives the list back, however environments are listed. */
  lemma {:induction false} ParseUndoesRender(nodes: seq<Node>, list: Listing)
    requires Pipelined(nodes) && Lists(list)
    ensures ParseBegin(Render(nodes, list), map[]) == Ok(nodes)
    decreases |nodes|
  {
    var first := nodes[0];
    var rest := Render(nodes[1..], list);
    if |nodes| > 1 {
      var op := nodes[1];
      assert nodes[1..][1..] == nodes[2..];
      assert rest == [TokenOf(op)] + Render(nodes[2..], list);
      assert rest[1..] == Render(nodes[2..], list);
      ParseUndoesRender(nodes[2..], list);
      assert nodes == [first, op] + nodes[2..];
    } else {
      assert nodes[1..] == [] && nodes == [first];
    }
    if first.Chdir? {
      ReadChdir(first, rest, list);
    } else {
      ReadCommand(first, rest, list);
      if |nodes| > 1 {
        ReadOperator(first, nodes[1], Render(nodes[2..], list), nodes[2..]);
      }
    }
  }

  lemma ReadOperator(first: Node, op: Node, tail: seq<string>, nodes: seq<Node>)
    requires CommandOk(first) && op in [Pipe, And, Or] && (first.stdout == ToPipe <==> op == Pipe)
    requires ParseBegin(tail, map[]) == Ok(nodes)
    ensures ParseWords([TokenOf(op)] + tail, Plain(first)) == Ok([first, op] + nodes)
  {
    var tokens := [TokenOf(op)] + tail;
    assert tokens[1..] == tail;
  }

  /** Some order of an environment's keys. */
  ghost function AnyListing(env: map<string, string>): seq<(string, string)>
    decreases env.Keys
  {
    if env == map[] then []
    else
      var k :| k in env;
      AnyListing(env - {k}) + [(k, env[k])]
  }

  lemma {:induction false} UpdateSnoc(env: map<string, string>, pairs: seq<(string, string)>, p: (string, string))
    ensures Update(env, pairs + [p]) == Update(env, pairs)[p.0 := p.1]
    decreases |pairs|
  {
    var all := pairs + [p];
    if pairs == [] {
      assert all[1..] == [];
    } else {
      assert all[1..] == pairs[1..] + [p];
      UpdateSnoc(env[pairs[0].0 := pairs[0].1], pairs[1..], p);
    }
  }

  lemma {:induction false} AnyListingLists(env: map<string, string>)
    requires EnvOk(env)
    ensures PairsOk(AnyListing(env)) && Update(map[], AnyListing(env)) == env
    decreases env.Keys
  {
    if env != map[] {
      var k :| k in env && AnyListing(env) == AnyListing(env - {k}) + [(k, env[k])];
      AnyListingLists(env - {k});
      UpdateSnoc(map[], AnyListing(env - {k}), (k, env[k]));
      assert env == (env - {k})[k := env[k]];
    }
  }

  /** The results of parsing are exactly the pipelined lists. */
  lemma ParseImage(nodes: seq<Node>)
    ensures Pipelined(nodes) <==> exists tokens :: ParseBegin(tokens, map[]) == Ok(nodes)
  {
    if Pipelined(nodes) {
      var list: Listing := (env: map<string, string>) => AnyListing(env);
      forall env | EnvOk(env) ensures PairsOk(list(env)) && Update(map[], list(env)) == env {
        AnyListingLists(env);
      }
      ParseUndoesRender(nodes, list);
    }
    if tokens :| ParseBegin(tokens, map[]) == Ok(nodes) {
      BeginIsPipelined(tokens, map[]);
    }
  }
}
