/**
 * FileResource: an uploaded file's storage location, download counter and
 * business link.
 */
module FileResources {
  import opened Wrappers
  import opened JavaStrings

  datatype FileResource = FileResource(
    fileName: Option<string>,
    storedName: Option<string>,
    filePath: Option<string>,
    businessType: Option<string>,
    businessId: Option<int>,
    downloadCount: Option<int>)

  /** incrementDownloadCount: null counts as zero; the Integer wraps at its maximum. */
  function IncrementDownloadCount(f: FileResource): (r: FileResource)
    requires f.downloadCount.None? || IsInt32(f.downloadCount.value)
    ensures f.downloadCount.None? ==> r.downloadCount == Some(1)
    ensures f.downloadCount.Some? && f.downloadCount.value < INT_MAX ==> r.downloadCount == Some(f.downloadCount.value + 1)
    ensures r.downloadCount.Some? && IsInt32(r.downloadCount.value)
    ensures r.(downloadCount := f.downloadCount) == f
  {
    f.(downloadCount := Some(Wrap32(f.downloadCount.GetOr(0) + 1)))
  }

  function Downloads(f: FileResource, n: nat): (r: FileResource)
    requires f.downloadCount.None? || IsInt32(f.downloadCount.value)
    ensures r.downloadCount.None? || IsInt32(r.downloadCount.value)
  {
    if n == 0 then f else IncrementDownloadCount(Downloads(f, n - 1))
  }

  /** Below the Integer maximum, n downloads of a counted file raise the counter by exactly n. */
  lemma {:induction false} DownloadsAddUp(f: FileResource, n: nat)
    requires f.downloadCount.Some? && 0 <= f.downloadCount.value && f.downloadCount.value + n <= INT_MAX
    ensures Downloads(f, n).downloadCount == Some(f.downloadCount.value + n)
  {
    if n > 0 {
      DownloadsAddUp(f, n - 1);
    }
  }

  /** updateBusinessInfo: exactly the two business fields. */
  function UpdateBusinessInfo(f: FileResource, businessType: Option<string>, businessId: Option<int>): (r: FileResource)
    ensures r.businessType == businessType && r.businessId == businessId
    ensures r.(businessType := f.businessType, businessId := f.businessId) == f
  {
    f.(businessType := businessType, businessId := businessId)
  }

  /** getFullPath: the directory, a slash and the stored name, nulls rendered as "null". */
  function FullPath(f: FileResource): (r: string)
    ensures |r| == |Concatenated(f.filePath)| + 1 + |Concatenated(f.storedName)|
    ensures r[|Concatenated(f.filePath)|] == '/'
  {
    Concatenated(f.filePath) + "/" + Concatenated(f.storedName)
  }

  /** The directory and the stored name can be read back from the full path when the directory has no slash. */
  lemma FullPathSplits(f: FileResource)
    requires f.filePath.Some? && '/' !in f.filePath.value
    ensures IndexOf(FullPath(f), '/') == |f.filePath.value|
    ensures FullPath(f)[..|f.filePath.value|] == f.filePath.value
    ensures FullPath(f)[|f.filePath.value| + 1..] == Concatenated(f.storedName)
  {
    var path := f.filePath.value;
    var full := FullPath(f);
    assert full[..|path|] == path;
    assert full[|path|] == '/';
    var r := IndexOf(full, '/');
    assert '/' in full[..|path| + 1];
    assert r >= 0 && full[r] == '/';
    assert forall i :: 0 <= i < |path| ==> full[i] == path[i] && full[i] != '/';
    assert forall i :: 0 <= i < r ==> full[..r][i] == full[i];
    assert r == |path|;
  }
}
