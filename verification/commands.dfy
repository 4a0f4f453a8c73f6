/**
 * CommandUtil: the argument list a shell command runs as, and the
 * configuration builder. The operating system and whether PowerShell
 * answers are parameters; running the process is not modelled.
 */
module ShellCommands {
  import opened Wrappers
  import opened JavaStrings

  const DEFAULT_TIMEOUT: int := 60
  const DEFAULT_CHARSET: string := "UTF-8"
  const COMMAND_EMPTY: string := "命令不能为空"

  /** The shells the switch knows; AUTO is resolved before the switch. */
  datatype ShellType = Auto | PowerShell | Cmd | Bash | Sh

  /** AUTO: PowerShell on Windows when it answers, else cmd; bash anywhere else. Any other choice stays. */
  function ResolveShell(shell: ShellType, isWindows: bool, powerShellAvailable: bool): (r: ShellType)
    ensures r != Auto
    ensures shell != Auto ==> r == shell
    ensures shell == Auto && !isWindows ==> r == Bash
    ensures shell == Auto && isWindows ==> (r == PowerShell <==> powerShellAvailable) && r in {PowerShell, Cmd}
  {
    if shell != Auto then shell
    else if !isWindows then Bash
    else if powerShellAvailable then PowerShell
    else Cmd
  }

  /** The executable and its "run this text" flag. */
  function Launcher(shell: ShellType): (r: (string, string))
    requires shell != Auto
  {
    match shell
    case PowerShell => ("powershell", "-Command")
    case Cmd => ("cmd", "/c")
    case Bash => ("bash", "-c")
    case Sh => ("sh", "-c")
  }

  /** buildCommandList; a null shell type makes the switch throw. */
  function BuildCommandList(command: string, shell: Option<ShellType>, isWindows: bool, powerShellAvailable: bool)
    : (r: Result<seq<string>, string>)
    ensures shell.None? <==> r.Failure?
    ensures r.Success? ==> |r.value| == 3 && r.value[2] == command
    ensures r.Success? ==>
      (r.value[0], r.value[1]) == Launcher(ResolveShell(shell.value, isWindows, powerShellAvailable))
  {
    if shell.None? then Failure("NullPointerException")
    else
      var l := Launcher(ResolveShell(shell.value, isWindows, powerShellAvailable));
      Success([l.0, l.1, command])
  }

  /** Different shells launch different executables, so the list tells which shell runs the command. */
  lemma LaunchersDistinct(a: ShellType, b: ShellType)
    requires a != Auto && b != Auto && a != b
    ensures Launcher(a).0 != Launcher(b).0
  {
  }

  /** The command is handed over untouched, as the last argument, whatever the shell. */
  lemma CommandIsLastArgument(command: string, shell: ShellType, isWindows: bool, powerShellAvailable: bool)
    ensures var r := BuildCommandList(command, Some(shell), isWindows, powerShellAvailable);
      r.Success? && r.value[|r.value| - 1] == command
  {
  }

  /** The builder's state; `environment` is null until set or first added to. */
  datatype Builder = Builder(
    command: Option<string>,
    workingDir: Option<string>,
    timeout: int,
    charset: string,
    environment: Option<map<string, string>>,
    redirectErrorStream: bool,
    shellType: Option<ShellType>)

  function NewBuilder(): (b: Builder)
    ensures b.timeout == DEFAULT_TIMEOUT && b.charset == DEFAULT_CHARSET
    ensures !b.redirectErrorStream && b.shellType == Some(Auto) && b.environment.None?
  {
    Builder(None, None, DEFAULT_TIMEOUT, DEFAULT_CHARSET, None, false, Some(Auto))
  }

  /** addEnvironment: creates the map on first use; a later value for a key replaces the earlier one. */
  function AddEnvironment(b: Builder, key: string, value: string): (r: Builder)
    ensures r.environment.Some? && key in r.environment.value && r.environment.value[key] == value
    ensures b.environment.Some? ==> forall k :: k in b.environment.value && k != key ==>
      k in r.environment.value && r.environment.value[k] == b.environment.value[k]
    ensures b.environment.None? ==> r.environment.value.Keys == {key}
    ensures r == b.(environment := r.environment)
  {
    var env := if b.environment.None? then map[] else b.environment.value;
    b.(environment := Some(env[key := value]))
  }

  /** Two additions for the same key keep the second value. */
  lemma LaterAdditionWins(b: Builder, key: string, v1: string, v2: string)
    ensures AddEnvironment(AddEnvironment(b, key, v1), key, v2).environment.value[key] == v2
    ensures AddEnvironment(AddEnvironment(b, key, v1), key, v2) == AddEnvironment(b, key, v2)
  {
    var env := if b.environment.None? then map[] else b.environment.value;
    assert env[key := v1][key := v2] == env[key := v2];
  }

  /** The finished configuration. */
  datatype CommandConfig = CommandConfig(
    command: string,
    workingDir: Option<string>,
    timeout: int,
    charset: string,
    environment: Option<map<string, string>>,
    redirectErrorStream: bool,
    shellType: Option<ShellType>)

  /** build: a null or empty command is refused; everything else is copied over. */
  function Build(b: Builder): (r: Result<CommandConfig, string>)
    ensures NullOrEmpty(b.command) <==> r == Failure(COMMAND_EMPTY)
    ensures r.Success? ==>
      && r.value.command == b.command.value && r.value.timeout == b.timeout
      && r.value.environment == b.environment && r.value.shellType == b.shellType
  {
    if NullOrEmpty(b.command) then Failure(COMMAND_EMPTY)
    else Success(CommandConfig(b.command.value, b.workingDir, b.timeout, b.charset, b.environment,
                               b.redirectErrorStream, b.shellType))
  }

  /** A builder given only a command yields the defaults: 60 seconds, UTF-8, no redirect, automatic shell. */
  lemma DefaultsBuild(command: string)
    requires command != ""
    ensures var r := Build(NewBuilder().(command := Some(command)));
      r.Success? && r.value.timeout == 60 && r.value.charset == "UTF-8"
      && !r.value.redirectErrorStream && r.value.shellType == Some(Auto)
  {
  }
}
