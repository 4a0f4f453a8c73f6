/**
 * The Workflow entity's content and lock rules, and the lowercase hex
 * rendering of the content digest. The SHA-256 digest itself is a parameter:
 * callers pass the digest bytes of the content's UTF-8 encoding.
 */
module WorkflowEntity {
  import opened Wrappers

  const LOCKED_SAVE: string := "工作流已锁定，无法保存内容"
  const ALREADY_LOCKED: string := "工作流已被锁定"

  /** A Java byte: signed, -128..127. */
  type JByte = b: int | -128 <= b < 128

  datatype Workflow = Workflow(
    id: Option<int>,
    activeContent: Option<string>,
    activeContentHash: Option<string>,
    isLocked: Option<bool>,
    lockedBy: Option<int>,
    lockedAt: Option<int>)

  // ---------------------------------------------------------------------------
  // Hex rendering of the digest
  // ---------------------------------------------------------------------------

  const HEX_DIGITS: string := "0123456789abcdef"

  predicate IsHexDigit(c: char) {
    c in HEX_DIGITS
  }

  /** `0xff & b`: the byte read as unsigned. */
  function Unsigned(b: JByte): (u: nat)
    ensures u < 256 && (u - b) % 256 == 0
  {
    if b < 0 then b + 256 else b
  }

  /** Integer.toHexString for 0..255: lowercase, no leading zeros. */
  function ToHexString(u: nat): (r: string)
    requires u < 256
    ensures 1 <= |r| <= 2
  {
    if u < 16 then [HEX_DIGITS[u]] else [HEX_DIGITS[u / 16], HEX_DIGITS[u % 16]]
  }

  /** One byte's two characters: a '0' is put in front of a one-digit text. */
  function ByteHex(b: JByte): string {
    var hex := ToHexString(Unsigned(b));
    if |hex| == 1 then "0" + hex else hex
  }

  function Hex(bytes: seq<JByte>): (r: string)
    ensures |r| == 2 * |bytes|
    ensures forall i :: 0 <= i < |r| ==> IsHexDigit(r[i])
  {
    if bytes == [] then "" else ByteHex(bytes[0]) + Hex(bytes[1..])
  }

  /** Each byte contributes the high and the low nibble of its unsigned value, in that order. */
  lemma ByteHexNibbles(b: JByte)
    ensures ByteHex(b) == [HEX_DIGITS[Unsigned(b) / 16], HEX_DIGITS[Unsigned(b) % 16]]
  {
  }

  function HexValue(c: char): (v: nat)
    requires IsHexDigit(c)
    ensures v < 16 && HEX_DIGITS[v] == c
  {
    if '0' <= c <= '9' then c as int - '0' as int else c as int - 'a' as int + 10
  }

  /** Text made of whole pairs of lowercase hex digits. */
  predicate IsHexText(s: string) {
    |s| % 2 == 0 && forall i :: 0 <= i < |s| ==> IsHexDigit(s[i])
  }

  /** Two hex digits read back as a signed byte. */
  function PairByte(hi: char, lo: char): (b: JByte)
    requires IsHexDigit(hi) && IsHexDigit(lo)
  {
    var u := HexValue(hi) * 16 + HexValue(lo);
    if u >= 128 then u - 256 else u
  }

  /** The inverse rendering: pairs of hex digits back to signed bytes. */
  function Unhex(s: string): (r: seq<JByte>)
    requires IsHexText(s)
    ensures |r| == |s| / 2
  {
    if s == "" then [] else [PairByte(s[0], s[1])] + Unhex(s[2..])
  }

  lemma HexDigitsDistinct(i: nat, j: nat)
    requires i < 16 && j < 16 && HEX_DIGITS[i] == HEX_DIGITS[j]
    ensures i == j
  {
  }

  /** A byte's two characters read back as the byte. */
  lemma ByteRoundTrip(b: JByte)
    ensures PairByte(ByteHex(b)[0], ByteHex(b)[1]) == b
  {
    ByteHexNibbles(b);
    var u := Unsigned(b);
    HexDigitsDistinct(HexValue(ByteHex(b)[0]), u / 16);
    HexDigitsDistinct(HexValue(ByteHex(b)[1]), u % 16);
  }

  /** The rendering loses nothing: reading it back gives the digest bytes. */
  lemma {:induction false} HexRoundTrip(bytes: seq<JByte>)
    ensures Unhex(Hex(bytes)) == bytes
  {
    if bytes != [] {
      var h := Hex(bytes);
      assert h[2..] == Hex(bytes[1..]);
      assert h[0] == ByteHex(bytes[0])[0] && h[1] == ByteHex(bytes[0])[1];
      ByteRoundTrip(bytes[0]);
      HexRoundTrip(bytes[1..]);
    }
  }

  /** calculateContentHash: no hash for null or empty content, else the hex of the digest. */
  function ContentHash(content: Option<string>, digest: seq<JByte>): (r: Option<string>)
    ensures content.None? || content.value == "" <==> r.None?
    ensures r.Some? ==> |r.value| == 2 * |digest| && IsHexText(r.value) && Unhex(r.value) == digest
  {
    if content.None? || content.value == "" then None
    else
      HexRoundTrip(digest);
      Some(Hex(digest))
  }

  // ---------------------------------------------------------------------------
  // Content and lock rules
  // ---------------------------------------------------------------------------

  predicate Locked(w: Workflow) {
    w.isLocked == Some(true)
  }

  /** saveContent: refused while locked; otherwise the content and its hash are replaced together. */
  function SaveContent(w: Workflow, content: Option<string>, digest: seq<JByte>): (r: Result<Workflow, string>)
    ensures Locked(w) <==> r.Failure?
    ensures r.Success? ==> r.value == w.(activeContent := content, activeContentHash := ContentHash(content, digest))
  {
    if Locked(w) then Failure(LOCKED_SAVE)
    else Success(w.(activeContent := content, activeContentHash := ContentHash(content, digest)))
  }

  /** lock: refused while locked; otherwise records the user and the time. */
  function Lock(w: Workflow, userId: Option<int>, now: int): (r: Result<Workflow, string>)
    ensures Locked(w) <==> r.Failure?
    ensures r.Success? ==> Locked(r.value) && r.value.lockedBy == userId && r.value.lockedAt == Some(now)
    ensures r.Success? ==> r.value.activeContent == w.activeContent && r.value.activeContentHash == w.activeContentHash
  {
    if Locked(w) then Failure(ALREADY_LOCKED)
    else Success(w.(isLocked := Some(true), lockedBy := userId, lockedAt := Some(now)))
  }

  /** unlock: clears the flag, the holder and the time. */
  function Unlock(w: Workflow): (r: Workflow)
    ensures !Locked(r) && r.isLocked == Some(false) && r.lockedBy.None? && r.lockedAt.None?
    ensures r.activeContent == w.activeContent && r.activeContentHash == w.activeContentHash
  {
    w.(isLocked := Some(false), lockedBy := None, lockedAt := None)
  }

  /** isLockedBy: locked, with a recorded holder equal to the user. */
  predicate IsLockedBy(w: Workflow, userId: Option<int>)
    ensures IsLockedBy(w, userId) ==> Locked(w) && userId.Some?
    ensures Locked(w) && userId.Some? ==> (IsLockedBy(w, userId) <==> w.lockedBy == userId)
  {
    Locked(w) && w.lockedBy.Some? && w.lockedBy == userId
  }

  /** canEdit: an unlocked workflow, or one the user holds. */
  predicate CanEdit(w: Workflow, userId: Option<int>)
    ensures !Locked(w) ==> CanEdit(w, userId)
    ensures Locked(w) && (userId.None? || w.lockedBy != userId) ==> !CanEdit(w, userId)
    ensures Locked(w) && userId.Some? && w.lockedBy == userId ==> CanEdit(w, userId)
  {
    !Locked(w) || IsLockedBy(w, userId)
  }

  /** Locking hands editing to the holder alone; unlocking opens it to everyone again. */
  lemma LockGivesHolderEditing(w: Workflow, holder: int, other: Option<int>, now: int)
    requires !Locked(w) && other != Some(holder)
    ensures var locked := Lock(w, Some(holder), now).value;
      && CanEdit(locked, Some(holder)) && !CanEdit(locked, other)
      && SaveContent(locked, Some("x"), []).Failure?
      && forall u :: CanEdit(Unlock(locked), u)
  {
  }

  /** A lock taken without a user id leaves the workflow editable by nobody. */
  lemma AnonymousLockBlocksEveryone(w: Workflow, now: int, u: Option<int>)
    requires !Locked(w)
    ensures !CanEdit(Lock(w, None, now).value, u)
  {
  }
}
