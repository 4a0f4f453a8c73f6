/**
 * ToolCallWaitManager: the registry of tool calls an agent is blocked on,
 * keyed by "toolCallId:toolName". Each wait is a future; the model names a
 * future by a ticket number the caller supplies, so that an overwritten wait
 * stays distinguishable from its replacement.
 */
module ToolCallWait {
  import opened Wrappers
  import JavaStrings

  type Ticket = nat

  /** The waiting futures by key. */
  type Waits = map<string, Ticket>

  /** buildKey: the two parts joined by ':'; a null part renders as "null". */
  function Key(toolCallId: Option<string>, toolName: Option<string>): (k: string)
    ensures |k| == |JavaStrings.Concatenated(toolCallId)| + 1 + |JavaStrings.Concatenated(toolName)|
    ensures k[|JavaStrings.Concatenated(toolCallId)|] == ':'
  {
    JavaStrings.Concatenated(toolCallId) + ":" + JavaStrings.Concatenated(toolName)
  }

  /** While ids carry no ':', the key determines both parts. */
  lemma KeyInjective(id1: string, name1: string, id2: string, name2: string)
    requires ':' !in id1 && ':' !in id2
    requires Key(Some(id1), Some(name1)) == Key(Some(id2), Some(name2))
    ensures id1 == id2 && name1 == name2
  {
    var k := Key(Some(id1), Some(name1));
    FirstColon(id1, name1);
    FirstColon(id2, name2);
    assert id1 == k[..|id1|] && id2 == k[..|id2|];
    assert name1 == k[|id1| + 1..] && name2 == k[|id2| + 1..];
  }

  /** The first ':' of a key sits right after an id free of ':'. */
  lemma FirstColon(id: string, name: string)
    requires ':' !in id
    ensures JavaStrings.IndexOf(Key(Some(id), Some(name)), ':') == |id|
  {
    var k := Key(Some(id), Some(name));
    assert forall j :: 0 <= j < |id| ==> k[j] == id[j];
    assert k[|id|] == ':';
    var r := JavaStrings.IndexOf(k, ':');
    assert k[..r] <= k;
    assert forall j :: 0 <= j < r ==> k[..r][j] == k[j];
  }

  /** An id containing ':' can make two different calls share one key. */
  lemma KeyCollides()
    ensures Key(Some("a:b"), Some("c")) == Key(Some("a"), Some("b:c"))
  {
  }

  /** createWait: registers a fresh future under the key, replacing any earlier one. */
  function CreateWait(waits: Waits, toolCallId: Option<string>, toolName: Option<string>, ticket: Ticket): (r: Waits)
    ensures Key(toolCallId, toolName) in r && r[Key(toolCallId, toolName)] == ticket
    ensures forall k :: k != Key(toolCallId, toolName) ==> (k in r <==> k in waits)
    ensures forall k :: k in waits && k != Key(toolCallId, toolName) ==> r[k] == waits[k]
  {
    waits[Key(toolCallId, toolName) := ticket]
  }

  /** What completeWait returns and the registry after it. */
  datatype Completion = Completion(completed: bool, woken: Option<Ticket>, waits: Waits)

  /** completeWait: removes the key and wakes its future; reports whether there was one. */
  function CompleteWait(waits: Waits, toolCallId: Option<string>, toolName: Option<string>): (r: Completion)
    ensures r.completed <==> Key(toolCallId, toolName) in waits
    ensures r.completed ==> r.woken == Some(waits[Key(toolCallId, toolName)])
    ensures !r.completed ==> r.woken.None? && r.waits == waits
    ensures Key(toolCallId, toolName) !in r.waits
    ensures forall k :: k != Key(toolCallId, toolName) ==> (k in r.waits <==> k in waits)
    ensures forall k :: k in r.waits ==> r.waits[k] == waits[k]
  {
    var key := Key(toolCallId, toolName);
    if key in waits then Completion(true, Some(waits[key]), waits - {key})
    else Completion(false, None, waits)
  }

  /** What cancelWait leaves behind, and the future it cancelled. */
  datatype Cancellation = Cancellation(cancelled: Option<Ticket>, waits: Waits)

  /** cancelWait: removes the key and cancels its future; an absent key changes nothing. */
  function CancelWait(waits: Waits, toolCallId: Option<string>, toolName: Option<string>): (r: Cancellation)
    ensures Key(toolCallId, toolName) !in waits ==> r.cancelled.None? && r.waits == waits
    ensures Key(toolCallId, toolName) in waits ==> r.cancelled == Some(waits[Key(toolCallId, toolName)])
    ensures r.waits == waits - {Key(toolCallId, toolName)}
  {
    var key := Key(toolCallId, toolName);
    if key in waits then Cancellation(Some(waits[key]), waits - {key}) else Cancellation(None, waits)
  }

  /** A wait that was just created is completed by the first response and not by a second one. */
  lemma CompleteOnce(waits: Waits, toolCallId: Option<string>, toolName: Option<string>, ticket: Ticket)
    ensures var first := CompleteWait(CreateWait(waits, toolCallId, toolName, ticket), toolCallId, toolName);
      && first.completed && first.woken == Some(ticket)
      && !CompleteWait(first.waits, toolCallId, toolName).completed
  {
  }

  /** After a cancellation the response that arrives later finds no wait. */
  lemma CancelThenComplete(waits: Waits, toolCallId: Option<string>, toolName: Option<string>)
    ensures var c := CancelWait(waits, toolCallId, toolName);
      !CompleteWait(c.waits, toolCallId, toolName).completed
  {
  }

  /** A second createWait for the same key orphans the first future: completion wakes only the newer one. */
  lemma OverwriteOrphans(waits: Waits, toolCallId: Option<string>, toolName: Option<string>, t1: Ticket, t2: Ticket)
    ensures var w := CreateWait(CreateWait(waits, toolCallId, toolName, t1), toolCallId, toolName, t2);
      CompleteWait(w, toolCallId, toolName).woken == Some(t2)
  {
  }
}
