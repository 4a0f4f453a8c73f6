/**
 * WorkflowVersion.isSameContent: the stored hashes rule out a match when both
 * are present and differ; otherwise the contents decide, and a missing content
 * never matches.
 */
module WorkflowVersions {
  import opened Wrappers

  datatype Version = Version(content: Option<string>, contentHash: Option<string>)

  function IsSameContent(v: Version, other: Option<Version>): (same: bool)
    ensures other.None? ==> !same
    ensures same ==> v.content.Some? && other.value.content == v.content
    ensures other.Some? && v.contentHash.Some? && other.value.contentHash.Some? && v.contentHash != other.value.contentHash ==> !same
  {
    if other.None? then false
    else if v.contentHash.Some? && other.value.contentHash.Some? && v.contentHash != other.value.contentHash then false
    else if v.content.Some? && other.value.content.Some? then v.content == other.value.content
    else false
  }

  /** The comparison is symmetric. */
  lemma IsSameContentSymmetric(a: Version, b: Version)
    ensures IsSameContent(a, Some(b)) == IsSameContent(b, Some(a))
  {
  }

  /**
   * When every stored hash is a function of its content, as the entity keeps it,
   * the comparison is exactly equality of two present contents.
   */
  lemma ConsistentHashesCompareContents(a: Version, b: Version, hashOf: string -> Option<string>)
    requires a.content.Some? ==> a.contentHash == hashOf(a.content.value)
    requires b.content.Some? ==> b.contentHash == hashOf(b.content.value)
    ensures IsSameContent(a, Some(b)) <==> a.content.Some? && a.content == b.content
  {
  }

  /** A version whose content is missing matches nothing, not even itself. */
  lemma MissingContentNeverSame(a: Version, b: Option<Version>)
    requires a.content.None?
    ensures !IsSameContent(a, b)
  {
  }
}
