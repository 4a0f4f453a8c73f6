/**
 * TodoWriteTool: the agent's to-do list for one session. The JSON list the
 * tool receives is given already read into entries (the JSON parser is not
 * part of this model); the stored list is the `seq` threaded through.
 */
module TodoLists {
  import opened Wrappers
  import opened JavaStrings

  const DEFAULT_STATUS: string := "pending"
  const NO_TODOS: string := "当前没有待办事项"

  /** How an entry's "status" key reads: missing, present with JSON null, or a text. */
  datatype StatusField = Absent | NullStatus | Given(text: string)

  /** One entry of the incoming JSON list. */
  datatype TodoInput = TodoInput(content: Option<string>, activeForm: Option<string>, status: StatusField)

  /** A stored item; a null status is possible in the code as written. */
  datatype TodoItem = TodoItem(content: string, activeForm: Option<string>, status: Option<string>)

  /** content == null || content.trim().isEmpty(). */
  predicate Skipped(t: TodoInput) {
    t.content.None? || Trim(t.content.value) == ""
  }

  /** getOrDefault("status", "pending") as written: a JSON null is kept as null. */
  function StatusAsWritten(f: StatusField): (r: Option<string>)
    ensures r.None? <==> f.NullStatus?
    ensures r.Some? ==> r.value == StatusOf(f)
  {
    match f
    case Absent => Some(DEFAULT_STATUS)
    case NullStatus => None
    case Given(s) => Some(s)
  }

  /** The status with the default applied to a null as well as to a missing key. */
  function StatusOf(f: StatusField): (r: string)
    ensures f.Given? ==> r == f.text
    ensures !f.Given? ==> r == DEFAULT_STATUS
  {
    match f
    case Given(s) => s
    case _ => DEFAULT_STATUS
  }

  /** The parsing loop as written. */
  function ReadItemsAsWritten(inputs: seq<TodoInput>): (r: seq<TodoItem>)
    ensures |r| <= |inputs|
  {
    if inputs == [] then []
    else
      var t := inputs[0];
      (if Skipped(t) then [] else [TodoItem(t.content.value, t.activeForm, StatusAsWritten(t.status))])
        + ReadItemsAsWritten(inputs[1..])
  }

  /** The parsing loop with the corrected default: every kept item has a status. */
  function ReadItems(inputs: seq<TodoInput>): (r: seq<TodoItem>)
    ensures |r| <= |inputs|
    ensures AllStatusesSet(r)
  {
    if inputs == [] then [] else ReadEntry(inputs[0]) + ReadItems(inputs[1..])
  }

  /** One pass of the loop: a kept entry becomes one item, a skipped one nothing. */
  function ReadEntry(t: TodoInput): (r: seq<TodoItem>)
    ensures |r| <= 1 && AllStatusesSet(r)
    ensures r == [] <==> Skipped(t)
  {
    if Skipped(t) then [] else [TodoItem(t.content.value, t.activeForm, Some(StatusOf(t.status)))]
  }

  /**
   * The loop as written keeps the same entries as the corrected one, with the same
   * content and form; only a JSON-null status differs, read as null instead of "pending".
   */
  lemma {:induction false} AsWrittenDiffersOnlyInStatus(inputs: seq<TodoInput>)
    ensures |ReadItemsAsWritten(inputs)| == |ReadItems(inputs)|
    ensures forall i :: 0 <= i < |ReadItems(inputs)| ==> SameButNullStatus(ReadItemsAsWritten(inputs)[i], ReadItems(inputs)[i])
  {
    if inputs != [] {
      var t := inputs[0];
      AsWrittenDiffersOnlyInStatus(inputs[1..]);
      var x: seq<TodoItem> := if Skipped(t) then [] else [TodoItem(t.content.value, t.activeForm, StatusAsWritten(t.status))];
      var y: seq<TodoItem> := ReadItemsAsWritten(inputs[1..]);
      var x': seq<TodoItem>, y': seq<TodoItem> := ReadEntry(t), ReadItems(inputs[1..]);
      assert ReadItemsAsWritten(inputs) == x + y;
      assert ReadItems(inputs) == x' + y';
      if Skipped(t) {
        assert x == [] && x' == [];
      } else {
        assert x'[0] == TodoItem(t.content.value, t.activeForm, Some(StatusOf(t.status)));
        assert SameButNullStatus(x[0], x'[0]);
      }
      PointwiseConcat(x, y, x', y');
    }
  }

  lemma PointwiseConcat(x: seq<TodoItem>, y: seq<TodoItem>, x': seq<TodoItem>, y': seq<TodoItem>)
    requires |x| == |x'| && |y| == |y'|
    requires forall i :: 0 <= i < |x| ==> SameButNullStatus(x[i], x'[i])
    requires forall i :: 0 <= i < |y| ==> SameButNullStatus(y[i], y'[i])
    ensures forall i :: 0 <= i < |x + y| ==> SameButNullStatus((x + y)[i], (x' + y')[i])
  {
    forall i | 0 <= i < |x + y|
      ensures SameButNullStatus((x + y)[i], (x' + y')[i])
    {
      if i >= |x| {
        assert (x + y)[i] == y[i - |x|] && (x' + y')[i] == y'[i - |x|];
      }
    }
  }

  /** Two items alike except that the first may have a null status where the second has one. */
  predicate SameButNullStatus(a: TodoItem, b: TodoItem) {
    a.content == b.content && a.activeForm == b.activeForm && (a.status.None? || a.status == b.status)
  }

  /** Without a JSON-null status among the entries the loop as written is the corrected one. */
  lemma {:induction false} AsWrittenAgreesWithoutNull(inputs: seq<TodoInput>)
    requires forall i :: 0 <= i < |inputs| ==> !inputs[i].status.NullStatus?
    ensures ReadItemsAsWritten(inputs) == ReadItems(inputs)
  {
    if inputs != [] {
      var t, rest := inputs[0], inputs[1..];
      assert forall i :: 0 <= i < |rest| ==> rest[i] == inputs[i + 1];
      AsWrittenAgreesWithoutNull(rest);
      assert StatusAsWritten(t.status) == Some(StatusOf(t.status));
      var x: seq<TodoItem> := if Skipped(t) then [] else [TodoItem(t.content.value, t.activeForm, StatusAsWritten(t.status))];
      assert x == ReadEntry(t);
      assert ReadItemsAsWritten(inputs) == x + ReadItemsAsWritten(rest);
    }
  }

  /** Every item read has content that is not blank. */
  lemma {:induction false} ReadItemsHaveContent(inputs: seq<TodoInput>)
    ensures forall i :: 0 <= i < |ReadItems(inputs)| ==> Trim(ReadItems(inputs)[i].content) != ""
  {
    if inputs != [] {
      ReadItemsHaveContent(inputs[1..]);
      var x: seq<TodoItem>, y: seq<TodoItem> := ReadEntry(inputs[0]), ReadItems(inputs[1..]);
      assert ReadItems(inputs) == x + y;
      forall i | 0 <= i < |x + y|
        ensures Trim((x + y)[i].content) != ""
      {
        if i >= |x| {
          assert (x + y)[i] == y[i - |x|];
        }
      }
    }
  }

  predicate AllStatusesSet(todos: seq<TodoItem>) {
    forall i :: 0 <= i < |todos| ==> todos[i].status.Some?
  }

  /** Reading two lists one after the other gives the two readings one after the other. */
  lemma {:induction false} ReadItemsAppend(a: seq<TodoInput>, b: seq<TodoInput>)
    ensures ReadItems(a + b) == ReadItems(a) + ReadItems(b)
  {
    if a == [] {
      assert a + b == b;
    } else {
      var ab := a + b;
      assert ab[0] == a[0] && ab[1..] == a[1..] + b;
      ReadItemsAppend(a[1..], b);
    }
  }

  /** A kept entry keeps its content, form and status; a blank or missing content drops the entry. */
  lemma ReadOne(t: TodoInput)
    ensures Skipped(t) ==> ReadItems([t]) == []
    ensures !Skipped(t) ==> ReadItems([t]) == [TodoItem(t.content.value, t.activeForm, Some(StatusOf(t.status)))]
  {
    assert [t][1..] == [];
  }

  /** The stored list after todoWrite: merged onto the existing one, or replacing it. */
  function Stored(existing: seq<TodoItem>, inputs: seq<TodoInput>, merge: bool): (r: seq<TodoItem>)
    ensures merge ==> |r| == |existing| + |ReadItems(inputs)| && r[..|existing|] == existing && r[|existing|..] == ReadItems(inputs)
    ensures !merge ==> r == ReadItems(inputs)
    ensures AllStatusesSet(existing) ==> AllStatusesSet(r)
  {
    if merge then existing + ReadItems(inputs) else ReadItems(inputs)
  }

  // ---------------------------------------------------------------------------
  // formatTodoList
  // ---------------------------------------------------------------------------

  function Icon(status: string): string {
    if status == "completed" then "✅" else if status == "in_progress" then "🔄" else "⏳"
  }

  /** The numbered lines; `before` items precede these in the list. */
  function ItemLines(todos: seq<TodoItem>, before: nat): string
    requires AllStatusesSet(todos)
  {
    if todos == [] then ""
    else ItemLine(todos[0], before + 1) + ItemLines(todos[1..], before + 1)
  }

  /** "%d. %s %s\n": the number, the status icon and the content. */
  function ItemLine(t: TodoItem, number: nat): string
    requires t.status.Some?
  {
    IntToString(number) + ". " + Icon(t.status.value) + " " + t.content + "\n"
  }

  function CountStatus(todos: seq<TodoItem>, status: string): (n: nat)
    requires AllStatusesSet(todos)
    ensures n <= |todos|
  {
    if todos == [] then 0
    else (if todos[0].status.value == status then 1 else 0) + CountStatus(todos[1..], status)
  }

  /** Items counted as pending: every status other than the two named ones. */
  function CountOther(todos: seq<TodoItem>): (n: nat)
    requires AllStatusesSet(todos)
    ensures n <= |todos|
  {
    if todos == [] then 0
    else
      (if todos[0].status.value != "completed" && todos[0].status.value != "in_progress" then 1 else 0)
        + CountOther(todos[1..])
  }

  /** The three tallies partition the list. */
  lemma {:induction false} CountsAddUp(todos: seq<TodoItem>)
    requires AllStatusesSet(todos)
    ensures CountOther(todos) + CountStatus(todos, "in_progress") + CountStatus(todos, "completed") == |todos|
  {
    if todos != [] {
      CountsAddUp(todos[1..]);
    }
  }

  lemma AllStatusesAppend(a: seq<TodoItem>, b: seq<TodoItem>)
    requires AllStatusesSet(a) && AllStatusesSet(b)
    ensures AllStatusesSet(a + b)
  {
  }

  /** Lines of a concatenation: the second part is numbered on from the first. */
  lemma {:induction false} ItemLinesAppend(a: seq<TodoItem>, b: seq<TodoItem>, before: nat)
    requires AllStatusesSet(a) && AllStatusesSet(b) && AllStatusesSet(a + b)
    ensures ItemLines(a + b, before) == ItemLines(a, before) + ItemLines(b, before + |a|)
  {
    if a == [] {
      assert a + b == b;
    } else {
      var ab := a + b;
      assert ab[0] == a[0] && ab[1..] == a[1..] + b;
      ItemLinesAppend(a[1..], b, before + 1);
      var x, y, z := ItemLine(a[0], before + 1), ItemLines(a[1..], before + 1), ItemLines(b, before + |a|);
      assert ItemLines(ab, before) == x + (y + z);
      assert ItemLines(a, before) == x + y;
      ConcatAssoc(x, y, z);
    }
  }

  /**
   * formatTodoList; None when the switch meets a null status and throws.
   */
  function FormatTodoList(todos: seq<TodoItem>): (r: Option<string>)
    ensures r.None? <==> !AllStatusesSet(todos)
    ensures todos == [] ==> r == Some(NO_TODOS)
  {
    if !AllStatusesSet(todos) then None
    else if todos == [] then Some(NO_TODOS)
    else
      Some("待办事项列表 (共 " + IntToString(|todos|) + " 项):\n\n" + ItemLines(todos, 0)
        + "\n统计: ⏳待处理 " + IntToString(CountOther(todos))
        + " | 🔄进行中 " + IntToString(CountStatus(todos, "in_progress"))
        + " | ✅已完成 " + IntToString(CountStatus(todos, "completed")))
  }

  // ---------------------------------------------------------------------------
  // todoWrite
  // ---------------------------------------------------------------------------

  const NO_CONTEXT: string := "找不到当前工具执行上下文"
  const ERROR_PREFIX: string := "错误: "
  const JSON_INVALID_PREFIX: string := "错误: JSON 格式不正确 - "
  const SAVE_FAILED: string := "保存待办事项失败"

  /**
   * What ObjectMapper.readValue(todosJson, List.class) yields: a list, the JSON
   * literal null (iterating it throws a NullPointerException with the given
   * message), or a JsonProcessingException with its message.
   */
  datatype ParsedJson = JsonList(entries: seq<JsonEntry>) | JsonNull(message: string) | JsonInvalid(message: string)

  /**
   * One element of the list: a map whose three values are strings or null, or
   * an element whose reading throws (it is not a map, or one of its three
   * values is not a string), with the exception's message.
   */
  datatype JsonEntry = StringMap(input: TodoInput) | Unreadable(message: string)

  /** What todoWrite leaves behind: its reply, and the list written to Redis, if one was. */
  datatype TodoOutcome = TodoOutcome(reply: string, saved: Option<seq<TodoItem>>)

  /** The casts of the parsing loop: the first element that cannot be read stops it. */
  function CastEntries(entries: seq<JsonEntry>): (r: Result<seq<TodoInput>, string>)
    ensures r.Success? <==> forall i :: 0 <= i < |entries| ==> entries[i].StringMap?
    ensures r.Success? ==> |r.value| == |entries| && forall i :: 0 <= i < |entries| ==> r.value[i] == entries[i].input
    ensures r.Failure? ==>
      exists i :: 0 <= i < |entries| && entries[i] == Unreadable(r.error) && forall j :: 0 <= j < i ==> entries[j].StringMap?
  {
    if entries == [] then Success([])
    else if entries[0].Unreadable? then Failure(entries[0].message)
    else
      var rest := CastEntries(entries[1..]);
      if rest.Failure? then rest
      else Success([entries[0].input] + rest.value)
  }

  /**
   * Saving and listing once the new items are read. The listing reads back the
   * list just saved; `npeMessage` is the message of the NullPointerException
   * the status switch throws on a null status, which the catch-all turns into
   * a reply.
   */
  function SaveAndList(existing: seq<TodoItem>, items: seq<TodoItem>, merge: bool, saveOk: bool, npeMessage: string): (r: TodoOutcome)
    ensures !saveOk <==> r.saved.None?
    ensures !saveOk ==> r.reply == ERROR_PREFIX + SAVE_FAILED
    ensures saveOk ==> r.saved == Some(if merge then existing + items else items)
    ensures saveOk ==> r.reply == FormatTodoList(r.saved.value).GetOr(ERROR_PREFIX + npeMessage)
  {
    if !saveOk then TodoOutcome(ERROR_PREFIX + SAVE_FAILED, None)
    else
      var list := if merge then existing + items else items;
      TodoOutcome(FormatTodoList(list).GetOr(ERROR_PREFIX + npeMessage), Some(list))
  }

  /**
   * todoWrite with a null status read as "pending". `hasContext` says whether
   * an agent execution context is set; `existing` is what getTodosFromRedis
   * returns (an unreadable record reads as the empty list); `saveOk` says
   * whether the Redis write succeeds.
   */
  function TodoWrite(hasContext: bool, existing: seq<TodoItem>, parsed: ParsedJson, merge: bool, saveOk: bool, npeMessage: string): (r: Result<TodoOutcome, string>)
    ensures r.Failure? <==> !hasContext
    ensures r.Failure? ==> r.error == NO_CONTEXT
    ensures hasContext && parsed.JsonInvalid? ==> r.value == TodoOutcome(JSON_INVALID_PREFIX + parsed.message, None)
    ensures hasContext && parsed.JsonNull? ==> r.value == TodoOutcome(ERROR_PREFIX + parsed.message, None)
    ensures hasContext && parsed.JsonList? && CastEntries(parsed.entries).Failure? ==>
      r.value == TodoOutcome(ERROR_PREFIX + CastEntries(parsed.entries).error, None)
    ensures hasContext && parsed.JsonList? && CastEntries(parsed.entries).Success? ==>
      r.value == SaveAndList(existing, ReadItems(CastEntries(parsed.entries).value), merge, saveOk, npeMessage)
    ensures r.Success? && r.value.saved.None? ==> StartsWith(r.value.reply, ERROR_PREFIX)
  {
    if !hasContext then Failure(NO_CONTEXT)
    else
      match parsed
      case JsonInvalid(m) => Success(TodoOutcome(JSON_INVALID_PREFIX + m, None))
      case JsonNull(m) => Success(TodoOutcome(ERROR_PREFIX + m, None))
      case JsonList(entries) =>
        var inputs := CastEntries(entries);
        if inputs.Failure? then Success(TodoOutcome(ERROR_PREFIX + inputs.error, None))
        else Success(SaveAndList(existing, ReadItems(inputs.value), merge, saveOk, npeMessage))
  }

  /** todoWrite as written: a JSON-null status is stored as null. */
  function TodoWriteAsWritten(hasContext: bool, existing: seq<TodoItem>, parsed: ParsedJson, merge: bool, saveOk: bool, npeMessage: string): (r: Result<TodoOutcome, string>)
    ensures r.Failure? <==> !hasContext
    ensures hasContext && parsed.JsonList? && CastEntries(parsed.entries).Success? ==>
      r.value == SaveAndList(existing, ReadItemsAsWritten(CastEntries(parsed.entries).value), merge, saveOk, npeMessage)
  {
    if !hasContext then Failure(NO_CONTEXT)
    else
      match parsed
      case JsonInvalid(m) => Success(TodoOutcome(JSON_INVALID_PREFIX + m, None))
      case JsonNull(m) => Success(TodoOutcome(ERROR_PREFIX + m, None))
      case JsonList(entries) =>
        var inputs := CastEntries(entries);
        if inputs.Failure? then Success(TodoOutcome(ERROR_PREFIX + inputs.error, None))
        else Success(SaveAndList(existing, ReadItemsAsWritten(inputs.value), merge, saveOk, npeMessage))
  }

  /**
   * A successful write onto a list whose items all have a status always answers
   * with the listing of exactly the list it saved, never with the
   * NullPointerException reply.
   */
  lemma WriteRepliesWithListing(existing: seq<TodoItem>, entries: seq<JsonEntry>, merge: bool, npeMessage: string)
    requires AllStatusesSet(existing)
    requires forall i :: 0 <= i < |entries| ==> entries[i].StringMap?
    ensures var r := TodoWrite(true, existing, JsonList(entries), merge, true, npeMessage);
      && r.Success? && r.value.saved == Some(Stored(existing, CastEntries(entries).value, merge))
      && FormatTodoList(r.value.saved.value).Some?
      && r.value.reply == FormatTodoList(r.value.saved.value).value
  {
    var items := ReadItems(CastEntries(entries).value);
    if merge {
      AllStatusesAppend(existing, items);
    }
  }

  /** Every failure before the save leaves Redis untouched, and its reply is an error. */
  lemma ErrorsWriteNothing(existing: seq<TodoItem>, parsed: ParsedJson, merge: bool, saveOk: bool, npeMessage: string)
    requires !parsed.JsonList? || CastEntries(parsed.entries).Failure? || !saveOk
    ensures var r := TodoWrite(true, existing, parsed, merge, saveOk, npeMessage);
      r.Success? && r.value.saved.None? && StartsWith(r.value.reply, ERROR_PREFIX)
  {
  }

  /**
   * As written, a todo whose "status" is a JSON null is saved, and then the
   * listing throws: the caller is told "错误: …" although the list was written.
   * With the null read as "pending" the same call lists the saved todo.
   */
  lemma NullStatusWriteReportsError(content: string, npeMessage: string)
    requires Trim(content) != ""
    ensures var entries := [StringMap(TodoInput(Some(content), None, NullStatus))];
      var w := TodoWriteAsWritten(true, [], JsonList(entries), false, true, npeMessage);
      var c := TodoWrite(true, [], JsonList(entries), false, true, npeMessage);
      && w == Success(TodoOutcome(ERROR_PREFIX + npeMessage, Some([TodoItem(content, None, None)])))
      && c.value.saved == Some([TodoItem(content, None, Some(DEFAULT_STATUS))])
      && c.value.reply == FormatTodoList([TodoItem(content, None, Some(DEFAULT_STATUS))]).value
  {
    var t := TodoInput(Some(content), None, NullStatus);
    var entries := [StringMap(t)];
    assert entries[1..] == [];
    assert CastEntries(entries[1..]) == Success([]);
    assert [t] + [] == [t];
    assert [t][1..] == [] && ReadItemsAsWritten([t][1..]) == [];
    assert ReadItemsAsWritten([t]) == [TodoItem(content, None, None)];
    NullStatusBreaksListing(content, []);
    assert CastEntries(entries) == Success([t]);
    assert TodoWriteAsWritten(true, [], JsonList(entries), false, true, npeMessage)
      == Success(SaveAndList([], [TodoItem(content, None, None)], false, true, npeMessage));
    NullStatusReadsPending(content);
  }

  /** A merge lists the existing items first, numbered as before, and the new items after them. */
  lemma MergeKeepsNumbering(existing: seq<TodoItem>, inputs: seq<TodoInput>)
    requires AllStatusesSet(existing)
    ensures ItemLines(Stored(existing, inputs, true), 0) == ItemLines(existing, 0) + ItemLines(ReadItems(inputs), |existing|)
  {
    MergedLines(existing, ReadItems(inputs), Stored(existing, inputs, true));
  }

  /** The numbering of a concatenation, stated for a list already known to be one. */
  lemma MergedLines(existing: seq<TodoItem>, added: seq<TodoItem>, stored: seq<TodoItem>)
    requires AllStatusesSet(existing) && AllStatusesSet(added) && stored == existing + added
    ensures AllStatusesSet(stored)
    ensures ItemLines(stored, 0) == ItemLines(existing, 0) + ItemLines(added, |existing|)
  {
    AllStatusesAppend(existing, added);
    ItemLinesAppend(existing, added, 0);
  }

  /** As written, an entry whose status is a JSON null is stored, and every later listing of the list throws. */
  lemma NullStatusBreaksListing(content: string, later: seq<TodoInput>)
    requires Trim(content) != ""
    ensures var stored := ReadItemsAsWritten([TodoInput(Some(content), None, NullStatus)]);
      && stored == [TodoItem(content, None, None)]
      && FormatTodoList(stored).None?
      && FormatTodoList(stored + ReadItems(later)).None?
  {
    var t := TodoInput(Some(content), None, NullStatus);
    assert [t][1..] == [] && ReadItemsAsWritten([t][1..]) == [];
    var stored := ReadItemsAsWritten([t]);
    assert stored == [TodoItem(content, None, None)];
    assert (stored + ReadItems(later))[0].status.None?;
  }

  /** With the default applied to a null too, the same entry is listed as pending. */
  lemma NullStatusReadsPending(content: string)
    requires Trim(content) != ""
    ensures ReadItems([TodoInput(Some(content), None, NullStatus)]) == [TodoItem(content, None, Some(DEFAULT_STATUS))]
    ensures FormatTodoList(ReadItems([TodoInput(Some(content), None, NullStatus)])).Some?
  {
    ReadOne(TodoInput(Some(content), None, NullStatus));
  }
}
