/**
 * SshCommandUtil: the text sent over the channel, and the two builders.
 * The connection and channel handling are not modelled.
 */
module SshCommands {
  import opened Wrappers
  import opened JavaStrings

  const DEFAULT_SSH_PORT: int := 22
  const DEFAULT_TIMEOUT: int := 3600
  const HOST_EMPTY: string := "SSH 服务器地址不能为空"
  const USER_EMPTY: string := "用户名不能为空"
  const NO_CREDENTIAL: string := "必须提供密码或私钥内容"
  const CONFIG_MISSING: string := "SSH 连接配置不能为空"
  const COMMAND_EMPTY: string := "命令不能为空"

  /** The part of the command text a non-empty initialisation script contributes. */
  function ScriptPart(script: Option<string>): (r: string)
    ensures NullOrEmpty(script) ==> r == ""
  {
    if NullOrEmpty(script) then "" else Trim(script.value) + "\n"
  }

  function DirPart(dir: Option<string>): (r: string)
    ensures NullOrEmpty(dir) ==> r == ""
  {
    if NullOrEmpty(dir) then "" else "cd " + dir.value + "\n"
  }

  /** buildFinalCommand: the trimmed script, then the change of directory, then the command itself. */
  function BuildFinalCommand(script: Option<string>, dir: Option<string>, command: string): (r: string)
    ensures |r| >= |command| && r[|r| - |command|..] == command
    ensures NullOrEmpty(script) && NullOrEmpty(dir) ==> r == command
  {
    ScriptPart(script) + DirPart(dir) + command
  }

  /** The final command always ends with the user's command, and what precedes it ends with a newline. */
  lemma FinalCommandEndsWithCommand(script: Option<string>, dir: Option<string>, command: string)
    ensures var r := BuildFinalCommand(script, dir, command);
      r[|r| - |command|..] == command
    ensures var r := BuildFinalCommand(script, dir, command);
      |r| > |command| ==> r[|r| - |command| - 1] == '\n'
  {
    var r := BuildFinalCommand(script, dir, command);
    var pre := ScriptPart(script) + DirPart(dir);
    assert r == pre + command;
    if |pre| > 0 {
      if DirPart(dir) != "" {
        assert pre[|pre| - 1] == DirPart(dir)[|DirPart(dir)| - 1];
      } else {
        assert pre == ScriptPart(script);
      }
    }
  }

  /** With a directory, the command runs right after "cd" into it, and after the script when there is one. */
  lemma DirectoryComesAfterScript(script: string, dir: string, command: string)
    requires script != "" && dir != ""
    ensures BuildFinalCommand(Some(script), Some(dir), command) == Trim(script) + "\ncd " + dir + "\n" + command
  {
    assert ScriptPart(Some(script)) == Trim(script) + "\n";
    assert DirPart(Some(dir)) == "cd " + dir + "\n";
  }

  /** The connection settings. */
  datatype SshConfig = SshConfig(host: string, port: int, username: string, password: Option<string>, privateKey: Option<string>)

  datatype SshBuilder = SshBuilder(host: Option<string>, port: int, username: Option<string>, password: Option<string>, privateKey: Option<string>)

  function NewSshBuilder(): (b: SshBuilder)
    ensures b.port == DEFAULT_SSH_PORT && b.host.None? && b.username.None?
  {
    SshBuilder(None, DEFAULT_SSH_PORT, None, None, None)
  }

  /** SshConfig.Builder.build: host first, then user, then at least one credential. */
  function BuildSsh(b: SshBuilder): (r: Result<SshConfig, string>)
    ensures r.Success? <==> !NullOrEmpty(b.host) && !NullOrEmpty(b.username) && (!NullOrEmpty(b.password) || !NullOrEmpty(b.privateKey))
    ensures NullOrEmpty(b.host) ==> r == Failure(HOST_EMPTY)
    ensures !NullOrEmpty(b.host) && NullOrEmpty(b.username) ==> r == Failure(USER_EMPTY)
    ensures !NullOrEmpty(b.host) && !NullOrEmpty(b.username) && NullOrEmpty(b.password) && NullOrEmpty(b.privateKey) ==> r == Failure(NO_CREDENTIAL)
    ensures r.Success? ==> r.value.port == b.port && r.value.host == b.host.value && r.value.username == b.username.value
  {
    if NullOrEmpty(b.host) then Failure(HOST_EMPTY)
    else if NullOrEmpty(b.username) then Failure(USER_EMPTY)
    else if NullOrEmpty(b.password) && NullOrEmpty(b.privateKey) then Failure(NO_CREDENTIAL)
    else Success(SshConfig(b.host.value, b.port, b.username.value, b.password, b.privateKey))
  }

  /** A builder given host, user and password only connects to port 22. */
  lemma DefaultPort(host: string, user: string, password: string)
    requires host != "" && user != "" && password != ""
    ensures var r := BuildSsh(NewSshBuilder().(host := Some(host), username := Some(user), password := Some(password)));
      r.Success? && r.value.port == 22
  {
  }

  datatype SshCommandConfig = SshCommandConfig(
    ssh: SshConfig, command: string, workingDir: Option<string>, initScript: Option<string>, timeout: int)

  /** SshCommandConfig.Builder.build: the connection first, then a non-empty command. */
  function BuildCommandConfig(ssh: Option<SshConfig>, command: Option<string>, workingDir: Option<string>,
                              initScript: Option<string>, timeout: int): (r: Result<SshCommandConfig, string>)
    ensures ssh.None? ==> r == Failure(CONFIG_MISSING)
    ensures ssh.Some? && NullOrEmpty(command) ==> r == Failure(COMMAND_EMPTY)
    ensures r.Success? <==> ssh.Some? && !NullOrEmpty(command)
    ensures r.Success? ==> r.value.command == command.value && r.value.ssh == ssh.value
  {
    if ssh.None? then Failure(CONFIG_MISSING)
    else if NullOrEmpty(command) then Failure(COMMAND_EMPTY)
    else Success(SshCommandConfig(ssh.value, command.value, workingDir, initScript, timeout))
  }

  /** The text a built configuration runs ends with its command. */
  lemma BuiltConfigRunsCommand(ssh: Option<SshConfig>, command: Option<string>, workingDir: Option<string>,
                               initScript: Option<string>, timeout: int)
    requires BuildCommandConfig(ssh, command, workingDir, initScript, timeout).Success?
    ensures var c := BuildCommandConfig(ssh, command, workingDir, initScript, timeout).value;
      var r := BuildFinalCommand(c.initScript, c.workingDir, c.command);
      |r| >= |command.value| && r[|r| - |command.value|..] == command.value
  {
    var c := BuildCommandConfig(ssh, command, workingDir, initScript, timeout).value;
    FinalCommandEndsWithCommand(c.initScript, c.workingDir, c.command);
  }
}
