/**
 * WgetUtil's pure parts: the file name a download is saved under and the
 * validation of a download configuration. The HTTP transfer is not modelled;
 * the clock reading used for the fallback name is a parameter.
 */
module Wget {
  import opened Wrappers
  import opened JavaStrings

  const DEFAULT_CONNECT_TIMEOUT: int := 30
  const DEFAULT_READ_TIMEOUT: int := 5
  const FALLBACK_PREFIX: string := "downloaded_file_"
  const URL_EMPTY: string := "URL 不能为空"
  const TARGET_DIR_EMPTY: string := "目标目录不能为空"
  const NULL_POINTER: string := "NullPointerException"

  /** An empty name becomes "downloaded_file_" and the current time in milliseconds. */
  function OrFallback(name: string, now: int): (r: string)
    ensures name != "" ==> r == name
    ensures name == "" ==> r == FALLBACK_PREFIX + IntToString(now)
  {
    if name == "" then FALLBACK_PREFIX + IntToString(now) else name
  }

  /** The text before the first '?', or all of it. */
  function BeforeQuery(s: string): (r: string)
    ensures '?' !in r && r <= s
    ensures '?' !in s ==> r == s
  {
    var q := IndexOf(s, '?');
    if q == -1 then s else s[..q]
  }

  /** The text after the last '/', or all of it. */
  function AfterLastSlash(s: string): (r: string)
    ensures '/' !in r
    ensures '/' !in s ==> r == s
  {
    s[LastIndexOf(s, '/') + 1..]
  }

  /**
   * extractFileNameFromUrl as written: the text after the URL's last '/',
   * cut at its first '?'. A '/' inside the query string therefore moves the
   * cut into the query.
   */
  function ExtractFileNameAsWritten(url: Option<string>, now: int): (r: Result<string, string>)
    ensures url.None? <==> r.Failure?
    ensures r.Success? ==> r.value != "" && '?' !in r.value
  {
    if url.None? then Failure(NULL_POINTER)
    else
      var name := BeforeQuery(AfterLastSlash(url.value));
      OrFallbackKeeps(name, now);
      Success(OrFallback(name, now))
  }

  /** Query text removed first, then the text after the last '/': the last path segment. */
  function ExtractFileName(url: Option<string>, now: int): (r: Result<string, string>)
    ensures url.None? <==> r.Failure?
    ensures r.Success? ==> r.value != "" && '?' !in r.value
  {
    if url.None? then Failure(NULL_POINTER)
    else
      var name := AfterLastSlash(BeforeQuery(url.value));
      assert '?' !in name by {
        assert forall i :: 0 <= i < |name| ==> name[i] in BeforeQuery(url.value);
      }
      OrFallbackKeeps(name, now);
      Success(OrFallback(name, now))
  }

  /** The fallback has neither '?' nor '/': digits, a minus sign and the fixed prefix. */
  lemma OrFallbackKeeps(name: string, now: int)
    requires '?' !in name
    ensures '?' !in OrFallback(name, now) && OrFallback(name, now) != ""
  {
    if name == "" {
      var d := IntToString(now);
      assert forall i :: 0 <= i < |d| ==> d[i] != '?' by {
        if now < 0 {
          assert d == "-" + NatToString(-now);
          assert forall i :: 1 <= i < |d| ==> d[i] == NatToString(-now)[i - 1];
        }
      }
    }
  }

  /** The last segment of a path is found, whatever query string follows it. */
  lemma ExtractFindsLastSegment(dir: string, name: string, query: string, now: int)
    requires '?' !in dir && '?' !in name && '/' !in name && name != ""
    ensures ExtractFileName(Some(dir + "/" + name + "?" + query), now) == Success(name)
  {
    var url := dir + "/" + name + "?" + query;
    var base := dir + "/" + name;
    assert url == base + ("?" + query);
    IndexAfterPrefix(base, "?" + query, '?');
    assert BeforeQuery(url) == base;
    LastIndexAfter(dir + "/", name, '/');
    assert LastIndexOf(dir + "/", '/') == |dir|;
    assert base[|dir| + 1..] == name;
  }

  /**
   * As written, a '/' in the query string wins: the name is taken from the
   * query's last segment, so "https://h/f.zip?next=/x" is saved as "x".
   */
  lemma AsWrittenTakesQuerySegment(prefix: string, tail: string, now: int)
    requires '/' !in tail && '?' !in tail && tail != ""
    ensures ExtractFileNameAsWritten(Some(prefix + "/" + tail), now) == Success(tail)
  {
    LastIndexAfter(prefix + "/", tail, '/');
    assert LastIndexOf(prefix + "/", '/') == |prefix|;
    assert (prefix + "/" + tail)[|prefix| + 1..] == tail;
  }

  /** An explicit non-empty file name wins over the URL. */
  function FileNameFor(fileName: Option<string>, url: Option<string>, now: int): (r: Result<string, string>)
    ensures !NullOrEmpty(fileName) ==> r == Success(fileName.value)
    ensures NullOrEmpty(fileName) ==> r == ExtractFileName(url, now)
  {
    if NullOrEmpty(fileName) then ExtractFileName(url, now) else Success(fileName.value)
  }

  /** The name choice at lines 144-147 as written, with the extractor as written. */
  function FileNameForAsWritten(fileName: Option<string>, url: Option<string>, now: int): (r: Result<string, string>)
    ensures !NullOrEmpty(fileName) ==> r == Success(fileName.value)
    ensures NullOrEmpty(fileName) ==> r == ExtractFileNameAsWritten(url, now)
  {
    if NullOrEmpty(fileName) then ExtractFileNameAsWritten(url, now) else Success(fileName.value)
  }

  /** Without a query string the two extractors agree, and so do the two name choices. */
  lemma FileNameAgreesWithoutQuery(fileName: Option<string>, url: string, now: int)
    requires '?' !in url
    ensures FileNameForAsWritten(fileName, Some(url), now) == FileNameFor(fileName, Some(url), now)
  {
    var seg := AfterLastSlash(url);
    assert '?' !in seg by {
      assert forall i :: 0 <= i < |seg| ==> seg[i] == url[LastIndexOf(url, '/') + 1 + i];
    }
  }

  /** Where they differ: a '/' in the query makes the program save under the query's last segment. */
  lemma FileNameAsWrittenDiffers(dir: string, name: string, queryHead: string, tail: string, now: int)
    requires '?' !in dir && '?' !in name && '/' !in name && name != ""
    requires '/' !in tail && '?' !in tail && tail != ""
    ensures var url := dir + "/" + name + "?" + queryHead + "/" + tail;
      && FileNameForAsWritten(None, Some(url), now) == Success(tail)
      && FileNameFor(None, Some(url), now) == Success(name)
  {
    var url := dir + "/" + name + "?" + queryHead + "/" + tail;
    assert url == dir + "/" + name + "?" + (queryHead + "/" + tail);
    ExtractFindsLastSegment(dir, name, queryHead + "/" + tail, now);
    AsWrittenTakesQuerySegment(dir + "/" + name + "?" + queryHead, tail, now);
  }

  /** DownloadConfig.Builder: every setter stores its value as given. */
  datatype Builder = Builder(
    url: Option<string>,
    targetDir: Option<string>,
    fileName: Option<string>,
    connectTimeout: int,
    readTimeout: int,
    followRedirects: bool,
    headers: Option<map<string, string>>)

  function NewBuilder(): (b: Builder)
    ensures b.connectTimeout == DEFAULT_CONNECT_TIMEOUT && b.readTimeout == DEFAULT_READ_TIMEOUT
    ensures b.followRedirects && b.headers == Some(map[])
    ensures b.url.None? && b.targetDir.None? && b.fileName.None?
  {
    Builder(None, None, None, DEFAULT_CONNECT_TIMEOUT, DEFAULT_READ_TIMEOUT, true, Some(map[]))
  }

  /** addHeader: a later value for the same name replaces the earlier one; a null header map fails. */
  function AddHeader(b: Builder, key: string, value: string): (r: Result<Builder, string>)
    ensures b.headers.None? <==> r.Failure?
    ensures r.Success? ==> r.value.headers == Some(b.headers.value[key := value])
  {
    if b.headers.None? then Failure(NULL_POINTER) else Success(b.(headers := Some(b.headers.value[key := value])))
  }

  datatype DownloadConfig = DownloadConfig(
    url: string,
    targetDir: string,
    fileName: Option<string>,
    connectTimeout: int,
    readTimeout: int,
    followRedirects: bool,
    headers: Option<map<string, string>>)

  /** build: a non-empty URL and target directory are required, the URL being checked first. */
  function Build(b: Builder): (r: Result<DownloadConfig, string>)
    ensures NullOrEmpty(b.url) ==> r == Failure(URL_EMPTY)
    ensures !NullOrEmpty(b.url) && NullOrEmpty(b.targetDir) ==> r == Failure(TARGET_DIR_EMPTY)
    ensures r.Success? <==> !NullOrEmpty(b.url) && !NullOrEmpty(b.targetDir)
    ensures r.Success? ==>
      && r.value.url == b.url.value && r.value.targetDir == b.targetDir.value
      && r.value.fileName == b.fileName && r.value.headers == b.headers
      && r.value.connectTimeout == b.connectTimeout && r.value.readTimeout == b.readTimeout
      && r.value.followRedirects == b.followRedirects
  {
    if NullOrEmpty(b.url) then Failure(URL_EMPTY)
    else if NullOrEmpty(b.targetDir) then Failure(TARGET_DIR_EMPTY)
    else Success(DownloadConfig(b.url.value, b.targetDir.value, b.fileName, b.connectTimeout, b.readTimeout, b.followRedirects, b.headers))
  }

  /** A builder given only a URL and a directory builds the defaults. */
  lemma DefaultsBuild(url: string, dir: string)
    requires url != "" && dir != ""
    ensures var r := Build(NewBuilder().(url := Some(url), targetDir := Some(dir)));
      && r.Success?
      && r.value == DownloadConfig(url, dir, None, 30, 5, true, Some(map[]))
  {
  }
}
