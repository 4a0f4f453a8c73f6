/**
 * StatusUpdateTool: the agent's status log for one session. The Redis list
 * is the `seq` of entries threaded through the operations; the clock
 * reading each entry carries is a parameter, already formatted as HH:mm:ss.
 */
module StatusUpdates {
  import opened Wrappers
  import opened JavaStrings

  const NO_CONTEXT: string := "找不到当前工具执行上下文"
  const DEFAULT_PHASE: string := "执行中"
  const EMPTY_MESSAGE_ERROR: string := "错误: 状态更新消息不能为空"
  const NO_HISTORY: string := "当前会话没有状态更新历史"
  const HISTORY_CAP: nat := 100
  const MAX_SHOWN: nat := 50
  const ACK_LENGTH: nat := 50

  /** One recorded update: its time of day, its phase and its (trimmed) message. */
  datatype StatusUpdate = StatusUpdate(time: string, phase: string, message: string)

  /** normalizePhase: aliases match in lower case and map to the Chinese phase name; anything else passes through as given. */
  function NormalizePhase(phase: Option<string>): (r: string)
    ensures phase.None? || Trim(phase.value) == "" ==> r == DEFAULT_PHASE
    ensures phase.Some? && Trim(phase.value) != "" ==>
      && (Lower(phase.value) in {"discovery", "发现"} ==> r == "发现")
      && (Lower(phase.value) in {"planning", "计划"} ==> r == "计划")
      && (Lower(phase.value) in {"execution", "执行"} ==> r == "执行")
      && (Lower(phase.value) in {"summary", "总结"} ==> r == "总结")
      && (!IsAlias(Lower(phase.value)) ==> r == phase.value)
    ensures r != ""
  {
    if phase.None? || Trim(phase.value) == "" then DEFAULT_PHASE
    else
      var p := Lower(phase.value);
      if p == "discovery" || p == "发现" then "发现"
      else if p == "planning" || p == "计划" then "计划"
      else if p == "execution" || p == "执行" then "执行"
      else if p == "summary" || p == "总结" then "总结"
      else
        phase.value
  }

  predicate IsAlias(p: string) {
    p in {"discovery", "发现", "planning", "计划", "execution", "执行", "summary", "总结"}
  }

  /** Normalising a normalised phase changes nothing, as long as no text passed through that lower-cases to an alias. */
  lemma NormalizeIdempotent(phase: Option<string>)
    requires phase.Some? && Trim(phase.value) != "" && IsAlias(Lower(phase.value))
    ensures NormalizePhase(Some(NormalizePhase(phase))) == NormalizePhase(phase)
  {
    var r := NormalizePhase(phase);
    assert r in {"发现", "计划", "执行", "总结"};
    PhaseNameFixed(r);
  }

  /** The four Chinese phase names are their own lower case and their own trim. */
  lemma PhaseNameFixed(r: string)
    requires r in {"发现", "计划", "执行", "总结"}
    ensures Lower(r) == r && Trim(r) == r
  {
    assert |r| == 2 && r[0] > 'z' && r[1] > 'z';
    LowerKeeps(r);
    TrimOfTrimmed(r);
  }

  /** Aliases match regardless of ASCII case: two spellings that lower-case alike normalise alike. */
  lemma AliasesIgnoreCase(a: string, b: string)
    requires Trim(a) != "" && Trim(b) != ""
    requires Lower(a) == Lower(b) && IsAlias(Lower(a))
    ensures NormalizePhase(Some(a)) == NormalizePhase(Some(b))
  {
  }

  /** truncateMessage: unchanged up to the limit; otherwise the first `maxLength` chars and an ellipsis. */
  function Truncate(message: string, maxLength: nat): (r: string)
    ensures |message| <= maxLength ==> r == message
    ensures |message| > maxLength ==> |r| == maxLength + 3 && r[..maxLength] == message[..maxLength] && r[maxLength..] == "..."
  {
    if |message| <= maxLength then message else message[..maxLength] + "..."
  }

  /** StatusUpdate.toString. */
  function Render(u: StatusUpdate): (r: string)
    ensures |r| == |u.time| + |u.phase| + |u.message| + 6
    ensures r[..1 + |u.time|] == "[" + u.time && r[|r| - |u.message|..] == u.message
  {
    "[" + u.time + "] [" + u.phase + "] " + u.message
  }

  /** Two updates with the same time and phase render alike exactly when their messages are equal. */
  lemma RenderKeepsMessage(a: StatusUpdate, b: StatusUpdate)
    requires a.time == b.time && a.phase == b.phase
    ensures Render(a) == Render(b) <==> a.message == b.message
  {
    if Render(a) == Render(b) {
      assert a.message == Render(a)[|Render(a)| - |a.message|..];
    }
  }

  /** history.add then removeFirst when the list has grown past the cap. */
  function Push(history: seq<StatusUpdate>, u: StatusUpdate): (r: seq<StatusUpdate>)
    ensures |history| <= HISTORY_CAP ==> |r| <= HISTORY_CAP
    ensures |r| > 0 && r[|r| - 1] == u
    ensures r[..|r| - 1] == (if |history| + 1 > HISTORY_CAP then history[1..] else history)
  {
    var h := history + [u];
    if |h| > HISTORY_CAP then
      assert h[1..][..|h| - 2] == history[1..];
      h[1..]
    else
      assert h[..|h| - 1] == history;
      h
  }

  /**
   * statusUpdate: the reply and the new history. Without an execution context
   * the tool throws; a blank message is refused and the history stays as it was.
   */
  function RecordStatus(hasContext: bool, history: seq<StatusUpdate>, message: Option<string>, phase: Option<string>,
                        time: string): (r: Result<(string, seq<StatusUpdate>), string>)
    ensures r.Failure? <==> !hasContext
    ensures r.Failure? ==> r.error == NO_CONTEXT
    ensures r.Success? ==> (BlankTrimmed(message) <==> r.value.0 == EMPTY_MESSAGE_ERROR)
    ensures r.Success? && BlankTrimmed(message) ==> r.value.1 == history
    ensures r.Success? && !BlankTrimmed(message) ==>
      && r.value.0 == "✓ 状态已更新 [" + NormalizePhase(phase) + "]: " + Truncate(message.value, ACK_LENGTH)
      && r.value.1 == Push(history, StatusUpdate(time, NormalizePhase(phase), Trim(message.value)))
  {
    if !hasContext then Failure(NO_CONTEXT)
    else if BlankTrimmed(message) then Success((EMPTY_MESSAGE_ERROR, history))
    else
      var p := NormalizePhase(phase);
      var reply := "✓ 状态已更新 [" + p + "]: " + Truncate(message.value, ACK_LENGTH);
      assert reply[0] != EMPTY_MESSAGE_ERROR[0];
      Success((reply, Push(history, StatusUpdate(time, p, Trim(message.value)))))
  }

  /** message == null || message.trim().isEmpty(). */
  predicate BlankTrimmed(s: Option<string>) {
    s.None? || Trim(s.value) == ""
  }

  /** The history never holds more than 100 entries, and the newest is the last one recorded. */
  lemma HistoryStaysCapped(history: seq<StatusUpdate>, message: Option<string>, phase: Option<string>, time: string)
    requires |history| <= HISTORY_CAP
    ensures |RecordStatus(true, history, message, phase, time).value.1| <= HISTORY_CAP
    ensures !BlankTrimmed(message) ==>
      var h := RecordStatus(true, history, message, phase, time).value.1;
      h[|h| - 1].message == Trim(message.value) && h[|h| - 1].time == time
  {
  }

  /** The first of a full history is dropped when a new entry arrives; every other entry moves one place forward. */
  lemma FullHistoryDropsOldest(history: seq<StatusUpdate>, u: StatusUpdate)
    requires |history| == HISTORY_CAP
    ensures Push(history, u) == history[1..] + [u]
  {
  }

  /** Math.min(Math.max(limit, 1), 50). */
  function ClampLimit(limit: int): (r: nat)
    ensures 1 <= r <= MAX_SHOWN
    ensures 1 <= limit <= MAX_SHOWN ==> r == limit
  {
    if limit < 1 then 1 else if limit > MAX_SHOWN then MAX_SHOWN else limit
  }

  /** The entries getStatusHistory shows: the last min(limit, n) of them. */
  function Shown(history: seq<StatusUpdate>, limit: int): (r: seq<StatusUpdate>)
    ensures |r| == if |history| < ClampLimit(limit) then |history| else ClampLimit(limit)
    ensures r == history[|history| - |r|..]
  {
    var k := ClampLimit(limit);
    var start := if |history| - k < 0 then 0 else |history| - k;
    history[start..]
  }

  function RenderLines(us: seq<StatusUpdate>): string {
    if us == [] then "" else Render(us[0]) + "\n" + RenderLines(us[1..])
  }

  /**
   * getStatusHistory. Without an execution context the tool throws. The
   * heading states the clamped limit, not how many entries follow.
   */
  function GetStatusHistory(hasContext: bool, history: seq<StatusUpdate>, limit: int): (r: Result<string, string>)
    ensures r.Failure? <==> !hasContext
    ensures r.Failure? ==> r.error == NO_CONTEXT
    ensures r.Success? ==> (history == [] <==> r.value == NO_HISTORY)
  {
    if !hasContext then Failure(NO_CONTEXT)
    else if history == [] then Success(NO_HISTORY)
    else
      var s := "最近 " + IntToString(ClampLimit(limit)) + " 条状态更新:\n\n" + RenderLines(Shown(history, limit));
      assert s[0] != NO_HISTORY[0];
      Success(s)
  }

  /** Recording a new update makes it the last line of any listing of the history. */
  lemma NewestShownLast(history: seq<StatusUpdate>, message: Option<string>, phase: Option<string>, time: string, limit: int)
    requires !BlankTrimmed(message)
    ensures var h := RecordStatus(true, history, message, phase, time).value.1;
      var s := Shown(h, limit);
      |s| > 0 && s[|s| - 1] == StatusUpdate(time, NormalizePhase(phase), Trim(message.value))
  {
  }
}
