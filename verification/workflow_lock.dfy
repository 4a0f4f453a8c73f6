/**
 * WorkflowLockServiceImpl: a workflow is locked for one chat message by a
 * key "workflow:lock:<id>" in the key-value store. The store is a map;
 * expiry is not modelled, and whether the store accepts a write is a
 * parameter. Ids are Java Long references, so they may be null.
 */
module WorkflowLockService {
  import opened Wrappers
  import JavaStrings

  const LOCK_KEY_PREFIX: string := "workflow:lock:"
  const NULL_POINTER: string := "NullPointerException"

  datatype LockInfo = LockInfo(workflowId: Option<int>, messageId: Option<int>, lockedAt: int)

  /** What the store holds under a lock key: lock information, or a value of some other type. */
  datatype Stored = Held(info: LockInfo) | Foreign

  type Store = map<string, Stored>

  /** getLockKey: the prefix and the id's decimal text ("null" for a null id). */
  function LockKey(workflowId: Option<int>): (r: string)
    ensures |r| > |LOCK_KEY_PREFIX| && r[..|LOCK_KEY_PREFIX|] == LOCK_KEY_PREFIX
  {
    LOCK_KEY_PREFIX + JavaStrings.Concatenated(if workflowId.Some? then Some(JavaStrings.IntToString(workflowId.value)) else None)
  }

  /** Different workflows never share a lock key. */
  lemma LockKeyInjective(a: Option<int>, b: Option<int>)
    requires LockKey(a) == LockKey(b)
    ensures a == b
  {
    var ta := JavaStrings.Concatenated(if a.Some? then Some(JavaStrings.IntToString(a.value)) else None);
    var tb := JavaStrings.Concatenated(if b.Some? then Some(JavaStrings.IntToString(b.value)) else None);
    assert ta == LockKey(a)[|LOCK_KEY_PREFIX|..] && tb == LockKey(b)[|LOCK_KEY_PREFIX|..];
    if a.Some? {
      DecimalNotNull(a.value);
    }
    if b.Some? {
      DecimalNotNull(b.value);
    }
    if a.Some? && b.Some? {
      JavaStrings.IntToStringInjective(a.value, b.value);
    }
  }

  lemma DecimalNotNull(i: int)
    ensures JavaStrings.IntToString(i) != "null"
  {
    var t := JavaStrings.IntToString(i);
    if i < 0 {
      assert t[0] == '-';
    } else {
      assert JavaStrings.IsDigit(t[0]);
    }
  }

  datatype Outcome = Outcome(ok: bool, store: Store)

  /** getLockInfo: the stored lock, or nothing when the key is absent or holds another type. */
  function GetLockInfo(store: Store, workflowId: Option<int>): (r: Option<LockInfo>)
    ensures r.Some? <==> LockKey(workflowId) in store && store[LockKey(workflowId)].Held?
  {
    var key := LockKey(workflowId);
    if key in store && store[key].Held? then Some(store[key].info) else None
  }

  /** lockWorkflow: refused while the key exists; otherwise the write decides. */
  function LockWorkflow(store: Store, workflowId: Option<int>, messageId: Option<int>, now: int, written: bool): (r: Outcome)
    ensures LockKey(workflowId) in store ==> r == Outcome(false, store)
    ensures LockKey(workflowId) !in store ==> r.ok == written
    ensures r.ok ==> r.store == store[LockKey(workflowId) := Held(LockInfo(workflowId, messageId, now))]
    ensures !r.ok ==> r.store == store
  {
    var key := LockKey(workflowId);
    if key in store then Outcome(false, store)
    else if written then Outcome(true, store[key := Held(LockInfo(workflowId, messageId, now))])
    else Outcome(false, store)
  }

  /**
   * unlockWorkflow: only the message that holds the lock releases it. The stored
   * message id is compared with equals, so a lock stored without one throws.
   */
  function UnlockWorkflow(store: Store, workflowId: Option<int>, messageId: Option<int>): (r: Result<Outcome, string>)
    ensures GetLockInfo(store, workflowId).None? ==> r == Success(Outcome(false, store))
    ensures r.Success? && !r.value.ok ==> r.value.store == store
    ensures r.Success? && r.value.ok <==>
      GetLockInfo(store, workflowId).Some? && GetLockInfo(store, workflowId).value.messageId.Some?
      && GetLockInfo(store, workflowId).value.messageId == messageId
    ensures r.Success? && r.value.ok ==> r.value.store == store - {LockKey(workflowId)}
    ensures r.Failure? <==> GetLockInfo(store, workflowId).Some? && GetLockInfo(store, workflowId).value.messageId.None?
  {
    var info := GetLockInfo(store, workflowId);
    if info.None? then Success(Outcome(false, store))
    else if info.value.messageId.None? then Failure(NULL_POINTER)
    else if info.value.messageId != messageId then Success(Outcome(false, store))
    else Success(Outcome(true, store - {LockKey(workflowId)}))
  }

  /** isLocked: the key exists, whatever it holds. */
  predicate IsLocked(store: Store, workflowId: Option<int>)
    ensures GetLockInfo(store, workflowId).Some? ==> IsLocked(store, workflowId)
    ensures !IsLocked(store, workflowId) ==> GetLockInfo(store, workflowId).None?
  {
    LockKey(workflowId) in store
  }

  /** isLockedByMessage: the stored lock names this message; throws like unlock on a lock without one. */
  function IsLockedByMessage(store: Store, workflowId: Option<int>, messageId: Option<int>): (r: Result<bool, string>)
    ensures r == Success(true) ==> IsLocked(store, workflowId)
    ensures r.Success? ==>
              && UnlockWorkflow(store, workflowId, messageId).Success?
              && (r.value <==> UnlockWorkflow(store, workflowId, messageId).value.ok)
    ensures r.Failure? <==> UnlockWorkflow(store, workflowId, messageId).Failure?
  {
    var info := GetLockInfo(store, workflowId);
    if info.None? then Success(false)
    else if info.value.messageId.None? then Failure(NULL_POINTER)
    else Success(info.value.messageId == messageId)
  }

  /** forceUnlock: removes the key unconditionally. */
  function ForceUnlock(store: Store, workflowId: Option<int>): (r: Store)
    ensures !IsLocked(r, workflowId)
    ensures forall k :: k != LockKey(workflowId) ==> (k in r <==> k in store) && (k in r ==> r[k] == store[k])
  {
    store - {LockKey(workflowId)}
  }

  /** A successful lock is held by its message, which can then release it; the workflow is unlocked again. */
  lemma LockThenUnlock(store: Store, workflowId: Option<int>, messageId: int, now: int)
    requires !IsLocked(store, workflowId)
    ensures var locked := LockWorkflow(store, workflowId, Some(messageId), now, true);
      && locked.ok && IsLocked(locked.store, workflowId)
      && IsLockedByMessage(locked.store, workflowId, Some(messageId)) == Success(true)
      && UnlockWorkflow(locked.store, workflowId, Some(messageId)) == Success(Outcome(true, store))
      && !IsLocked(UnlockWorkflow(locked.store, workflowId, Some(messageId)).value.store, workflowId)
  {
    var key := LockKey(workflowId);
    var locked := LockWorkflow(store, workflowId, Some(messageId), now, true);
    assert locked.store - {key} == store;
  }

  /** Another message can neither take nor release a held lock. */
  lemma OtherMessageExcluded(store: Store, workflowId: Option<int>, holder: int, other: Option<int>, now: int, written: bool)
    requires GetLockInfo(store, workflowId) == Some(LockInfo(workflowId, Some(holder), now))
    requires other != Some(holder)
    ensures LockWorkflow(store, workflowId, other, now, written) == Outcome(false, store)
    ensures UnlockWorkflow(store, workflowId, other) == Success(Outcome(false, store))
    ensures IsLockedByMessage(store, workflowId, other) == Success(false)
  {
  }

  /** A value of another type under the key blocks locking, yet no message can release it. */
  lemma ForeignValueBlocks(store: Store, workflowId: Option<int>, messageId: Option<int>, now: int, written: bool)
    requires LockKey(workflowId) in store && store[LockKey(workflowId)].Foreign?
    ensures IsLocked(store, workflowId)
    ensures !LockWorkflow(store, workflowId, messageId, now, written).ok
    ensures UnlockWorkflow(store, workflowId, messageId) == Success(Outcome(false, store))
    ensures !IsLocked(ForceUnlock(store, workflowId), workflowId)
  {
  }

  /** Locking one workflow leaves every other workflow's lock state as it was. */
  lemma LockIsLocal(store: Store, w: Option<int>, v: Option<int>, messageId: Option<int>, now: int, written: bool)
    requires w != v
    ensures IsLocked(LockWorkflow(store, w, messageId, now, written).store, v) <==> IsLocked(store, v)
    ensures GetLockInfo(LockWorkflow(store, w, messageId, now, written).store, v) == GetLockInfo(store, v)
  {
    if LockKey(w) == LockKey(v) {
      LockKeyInjective(w, v);
    }
  }
}
