/**
 * One remote command: how the engine builds the command line it sends, how
 * it fills in the artifact path, and when it counts the command as having
 * succeeded. The SSH layer itself is an oracle: what happened when the
 * engine tried to run the command.
 */
module Remote {
  import opened Wrappers
  import opened Text

  /**
   * What the SSH layer reports for one attempt: no client could be created
   * (authentication, no route, any other connect error), the command ran to
   * an exit status, or the channel raised an SSH error after connecting.
   */
  datatype Session = ConnectFailed | Exited(status: int) | ChannelError

  /** The observable effects of an operation, in the order they happen. */
  datatype Event =
    | Run(index: nat, command: string)  // a command line is handed to the SSH layer
    | Closed(index: nat)                // the connection opened for that command is closed
    | Ask(index: nat)                   // the operator is asked whether to go on after a failure
    | Tick                              // one second of the delay between two commands
    | SaveInfo(file: Option<string>, content: string, saved: bool)  // the info file is (re)written

  /** What running one command produced: whether it succeeded and its events. */
  datatype Execution = Execution(success: bool, events: seq<Event>)

  /**
   * `execute_remote_command`: a command succeeds exactly when a connection
   * was made and the command exited with status 0; a connection that was
   * made is closed again whatever happened on it.
   */
  function Execute(index: nat, command: string, session: Session): (r: Execution)
    ensures r.success <==> session == Exited(0)
    ensures |r.events| == (if session.ConnectFailed? then 1 else 2)
    ensures r.events[0] == Run(index, command)
    ensures !session.ConnectFailed? ==> r.events[1] == Closed(index)
  {
    match session
    case ConnectFailed => Execution(false, [Run(index, command)])
    case Exited(status) => Execution(status == 0, [Run(index, command), Closed(index)])
    case ChannelError => Execution(false, [Run(index, command), Closed(index)])
  }

  const Placeholder := "{bitfile_path}"

  /** A load command with every `{bitfile_path}` replaced by the artifact path. */
  function Render(template: string, path: string): string {
    Replace(template, Placeholder, path)
  }

  /** A template without the placeholder is sent as it is. */
  lemma RenderWithoutPlaceholder(template: string, path: string)
    requires !Contains(template, Placeholder)
    ensures Render(template, path) == template
  {
    ReplaceAbsent(template, Placeholder, path);
  }

  /** A template naming the placeholder names the artifact path once rendered. */
  lemma RenderNamesPath(template: string, path: string)
    requires Contains(template, Placeholder)
    ensures Contains(Render(template, path), path)
  {
    ReplaceInserts(template, Placeholder, path);
  }

  /**
   * Rendering is cutting the template at each placeholder and joining the
   * pieces with the path in between: every occurrence is replaced.
   */
  lemma RenderReplacesEvery(template: string, path: string)
    ensures Render(template, path) == Join(Split(template, Placeholder), path)
    ensures Join(Split(template, Placeholder), Placeholder) == template
  {
    ReplaceIsJoinOfSplit(template, Placeholder, path);
    SplitJoinRoundTrip(template, Placeholder);
  }

  /**
   * Rendering does not guarantee that no placeholder is left: a path that is
   * itself the placeholder text puts one back.
   */
  lemma RenderCanLeavePlaceholder()
    ensures Contains(Render(Placeholder, Placeholder), Placeholder)
  {
    ReplaceBySelf(Placeholder, Placeholder);
    assert OccursAt(Placeholder, Placeholder, 0);
  }

  /**
   * The command line sent for `cmd`: the tool path in double quotes, a space,
   * then the command. A missing tool path is formatted as `None`.
   */
  function FullCommand(confpro: Option<string>, cmd: string): (r: string)
    ensures var tool := confpro.GetOr("None");
      |r| == |tool| + |cmd| + 3 && r[0] == '"' && r[1..|tool| + 1] == tool &&
      r[|tool| + 1..|tool| + 3] == "\" " && r[|tool| + 3..] == cmd
  {
    "\"" + confpro.GetOr("None") + "\" " + cmd
  }

  /** The command line determines the command, so distinct commands are sent as distinct lines. */
  lemma FullCommandInjective(confpro: Option<string>, cmd1: string, cmd2: string)
    requires FullCommand(confpro, cmd1) == FullCommand(confpro, cmd2)
    ensures cmd1 == cmd2
  {
    var tool := confpro.GetOr("None");
    assert cmd1 == FullCommand(confpro, cmd1)[|tool| + 3..];
  }
}
