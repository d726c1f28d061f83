/**
 * How a page decides that its source has changed: `establishLastModified`
 * finds a resource's modification time across the three kinds of Spring
 * resource it distinguishes (falling back to the "unknown" value -1 when any
 * probe fails), and the reload checker compares that time with the one the
 * page was loaded with, allowing a fixed tolerance ("granularity").
 */
module Freshness {
  import opened JavaTypes

  /** The value `establishLastModified` returns when no time can be found. */
  const UNKNOWN: long := -1

  /** `grails.gsp.reload.interval`, by default: how long a reload decision is cached (ms). */
  const LASTMODIFIED_CHECK_INTERVAL: long := 5000

  /** `grails.gsp.reload.granularity`, by default: how far apart two times may be and still count as equal (ms). */
  const LASTMODIFIED_CHECK_GRANULARITY: long := 2000

  /** What `resource.getURL()` leads to. */
  datatype Url = Url(
    protocol: string,
    localFile: Option<long>,  // for the file at `url.getFile()`: its `lastModified()` when it exists
    connection: Option<long>) // `openConnection().getLastModified()`, or None when opening it throws an IOException

  /** A Spring `Resource`, reduced to what the reload check asks of it. */
  datatype Resource =
    | FileSystemResource(present: bool, fileLastModified: long) // `getFile().lastModified()`
    | UrlBackedResource(present: bool, url: Option<Url>)        // None: `getURL()` throws an IOException

  /** The URL probe is the one that decides, and it fails. */
  predicate UrlProbeFails(resource: Resource) {
    resource.UrlBackedResource? &&
    (resource.url.None? ||
     (!(resource.url.value.protocol == "file" && resource.url.value.localFile.Some?) &&
      resource.url.value.connection.None?))
  }

  /**
   * `establishLastModified`: the file's time for a file-system resource; for
   * any other, the local file's time when its URL is a `file:` URL naming an
   * existing file, else the time its URL connection reports. A null resource
   * and every IOException give UNKNOWN; nothing is thrown.
   */
  function EstablishLastModified(resource: Option<Resource>): (t: long)
    ensures resource.None? ==> t == UNKNOWN
    ensures resource.Some? && UrlProbeFails(resource.value) ==> t == UNKNOWN
    ensures resource.Some? && resource.value.FileSystemResource? ==> t == resource.value.fileLastModified
    ensures resource.Some? && resource.value.UrlBackedResource? && !UrlProbeFails(resource.value) ==>
      var url := resource.value.url.value;
      t == (if url.protocol == "file" && url.localFile.Some? then url.localFile.value else url.connection.value)
  {
    match resource
    case None => UNKNOWN
    case Some(FileSystemResource(_, time)) => time
    case Some(UrlBackedResource(_, None)) => UNKNOWN
    case Some(UrlBackedResource(_, Some(url))) =>
      if url.protocol == "file" && url.localFile.Some? then url.localFile.value
      else url.connection.GetOr(UNKNOWN)
  }

  /**
   * The body of the checker callable in `checkIfReloadableResourceHasChanged`:
   * the located resource when it exists, has a known positive time, and that
   * time differs from `lastModified` by more than `granularity`, computed
   * with Java's `long` subtraction and `Math.abs`; otherwise null.
   */
  function CheckResource(resource: Option<Resource>, lastModified: long, granularity: long): (r: Option<Resource>)
    ensures r.Some? ==> r == resource && resource.value.present && EstablishLastModified(resource) > 0
  {
    if resource.Some? && resource.value.present then
      var current := EstablishLastModified(resource);
      if current > 0 && LongAbs(LongSub(current, lastModified)) > granularity then resource else None
    else None
  }

  function Abs(x: int): nat {
    if x < 0 then -x else x
  }

  /**
   * Whenever the two times are not so far apart that the `long` arithmetic
   * overflows, the checker reports a change exactly when the resource exists,
   * its time is known and positive, and the times differ by more than the
   * granularity.
   */
  lemma ChangeRule(resource: Option<Resource>, lastModified: long, granularity: long)
    requires MIN_LONG < EstablishLastModified(resource) - lastModified <= MAX_LONG
    ensures var current := EstablishLastModified(resource);
      CheckResource(resource, lastModified, granularity).Some? <==>
        resource.Some? && resource.value.present && current > 0 && Abs(current - lastModified) > granularity
  {
    var current := EstablishLastModified(resource);
    var d := LongSub(current, lastModified);
    assert d == current - lastModified;
    assert LongAbs(d) == Abs(current - lastModified);
  }

  /**
   * An observed time exactly `granularity` away from the recorded one is no
   * change; one millisecond more is.
   */
  lemma ToleranceBoundary(resource: Resource, lastModified: long, granularity: long)
    requires resource.present && 0 <= granularity && 0 <= lastModified
    requires EstablishLastModified(Some(resource)) > 0
    ensures EstablishLastModified(Some(resource)) == lastModified + granularity ==>
      CheckResource(Some(resource), lastModified, granularity) == None
    ensures EstablishLastModified(Some(resource)) == lastModified + granularity + 1 ==>
      CheckResource(Some(resource), lastModified, granularity) == Some(resource)
    ensures EstablishLastModified(Some(resource)) == lastModified - granularity ==>
      CheckResource(Some(resource), lastModified, granularity) == None
    ensures EstablishLastModified(Some(resource)) == lastModified - granularity - 1 ==>
      CheckResource(Some(resource), lastModified, granularity) == Some(resource)
  {
    ChangeRule(Some(resource), lastModified, granularity);
  }

  /** The recorded time 10000 with the default granularity: 12000 is unchanged, 12001 changed. */
  lemma DefaultToleranceExample()
    ensures CheckResource(Some(FileSystemResource(true, 12000)), 10000, LASTMODIFIED_CHECK_GRANULARITY) == None
    ensures CheckResource(Some(FileSystemResource(true, 12001)), 10000, LASTMODIFIED_CHECK_GRANULARITY)
      == Some(FileSystemResource(true, 12001))
    ensures CheckResource(Some(FileSystemResource(false, 12001)), 10000, LASTMODIFIED_CHECK_GRANULARITY) == None
  {
    ToleranceBoundary(FileSystemResource(true, 12000), 10000, LASTMODIFIED_CHECK_GRANULARITY);
    ToleranceBoundary(FileSystemResource(true, 12001), 10000, LASTMODIFIED_CHECK_GRANULARITY);
  }

  /** A time that cannot be established never reports a change. */
  lemma UnknownIsUnchanged(resource: Option<Resource>, lastModified: long, granularity: long)
    requires resource.None? || UrlProbeFails(resource.value)
    ensures EstablishLastModified(resource) == UNKNOWN
    ensures CheckResource(resource, lastModified, granularity) == None
  {
  }

  /**
   * The `long` arithmetic is Java's: at the extremes the subtraction wraps, and
   * `Math.abs` of the least `long` is negative, so the largest possible time
   * against a recorded UNKNOWN reads as no change.
   */
  lemma WrapAroundHidesChange()
    ensures CheckResource(Some(FileSystemResource(true, MAX_LONG)), UNKNOWN, LASTMODIFIED_CHECK_GRANULARITY) == None
  {
    assert LongSub(MAX_LONG, UNKNOWN) == MIN_LONG;
  }
}
