/**
 * Properties of GroovyPageMetaInfo that span several calls: the reload
 * decision is cached for the check interval, the initializer runs once, a
 * line-number table once loaded is kept, and what a page built by the
 * constructor reads from its side-data resources.
 */
module PageMetaInfoProperties {
  import opened JavaTypes
  import opened BigEndian
  import opened SideData
  import opened Freshness
  import opened ReloadCache
  import opened PageMetaInfo

  /**
   * Once a check has located the source, every check within the next
   * interval gives the same answer without locating it again, however the
   * source has changed in between.
   */
  method ReloadDecisionIsCached(page: GroovyPageMetaInfo, source: SourceLocator<Resource>,
                                t1: long, t2: long, moved: Option<Resource>)
    returns (first: bool, second: bool)
    requires page.shouldReloadCacheEntry.NeedsUpdate(LASTMODIFIED_CHECK_INTERVAL, t1)
    requires t1 <= t2 <= t1 + LASTMODIFIED_CHECK_INTERVAL
    modifies page.shouldReloadCacheEntry, source
    ensures first == second
    ensures first == CheckResource(old(source.current), page.lastModified, LASTMODIFIED_CHECK_GRANULARITY).Some?
    ensures source.runs == old(source.runs) + 1
  {
    first := page.ShouldReload(source, t1);
    source.current := moved;
    second := page.ShouldReload(source, t2);
  }

  /** A second `initializeOnDemand` never runs its initializer. */
  method InitializeOnDemandRunsOnce(page: GroovyPageMetaInfo, first: Initializer, second: Initializer)
    returns (ranFirst: bool, ranSecond: bool)
    modifies page
    ensures ranFirst == !old(page.initialized) && !ranSecond && page.initialized
    ensures ranFirst ==> page.grailsApplication == first.application
  {
    ranFirst := page.InitializeOnDemand(first);
    ranSecond := page.InitializeOnDemand(second);
  }

  /**
   * A table `getLineNumbers` has returned is returned again by the next call
   * and stays the page's table: it is never read twice. A table the page
   * already had is the one returned.
   */
  method LineNumbersAreKept(page: GroovyPageMetaInfo) returns (r1: array?<int32>, r2: array?<int32>)
    modifies page
    ensures old(page.lineNumbers) != null ==> r1 == old(page.lineNumbers)
    ensures r1 != null ==> r2 == r1 && page.lineNumbers == r1
  {
    var thrown;
    r1, thrown := page.GetLineNumbers();
    r2, thrown := page.GetLineNumbers();
  }

  /**
   * The recorded time is 10000. A source at 12001 calls for a reload; four
   * seconds later the source is back at 12000 but the cached decision
   * stands; ten seconds after the first check the source is located again
   * and 12000 is within the granularity. Without a callback nothing is
   * reloaded. The source was located twice.
   */
  method ReloadExample() returns (first: bool, cached: bool, later: bool, withoutCallback: bool, located: nat)
    ensures first && cached && !later && !withoutCallback && located == 2
  {
    var page := new GroovyPageMetaInfo();
    page.SetLastModified(10000);
    var source := new SourceLocator(Some(FileSystemResource(true, 12001)));
    DefaultToleranceExample();
    first := page.ShouldReload(source, 100000);
    source.current := Some(FileSystemResource(true, 12000));
    cached := page.ShouldReload(source, 104000);
    later := page.ShouldReload(source, 110000);
    withoutCallback := page.ShouldReload(null, 120000);
    located := source.runs;
  }

  /**
   * A precompiled page whose line-number resource holds the encoding of
   * `xs`, and which has no html resource, is made by the constructor and
   * gets `xs` from `getLineNumbers`, and nothing is thrown.
   */
  method PrecompiledLineNumbers(name: string, xs: seq<int32>) returns (numbers: seq<int32>, thrown: Option<ReadFailure>)
    requires |xs| <= MAX_INT
    ensures numbers == xs && thrown.None?
  {
    var noConstants := PageConstants(None, None, 0, None, None, None, None, None, None);
    var resources := map[ResolveDataResourceName(name, LINENUMBERS_DATA_POSTFIX) := EncodeLineNumbers(xs)];
    var page := PageClass(name, [], resources, noConstants);
    DataResourceNamesDiffer(name);
    var made := GroovyPageMetaInfo.ForPageClass(page);
    var meta := made.value;
    LineNumbersRoundTrip(xs, []);
    assert EncodeLineNumbers(xs) + [] == EncodeLineNumbers(xs);
    var r;
    r, thrown := meta.GetLineNumbers();
    numbers := r[..];
  }

  /**
   * A line-number resource that declares `n` numbers but holds only `xs`:
   * `getLineNumbers` throws nothing and returns a table of length `n`
   * holding `xs` first and Java's default 0 after them.
   */
  method TruncatedLineNumbersArePadded(name: string, n: int32, xs: seq<int32>)
    returns (numbers: seq<int32>, thrown: Option<ReadFailure>)
    requires |xs| < n
    ensures thrown.None? && |numbers| == n
    ensures numbers[..|xs|] == xs
    ensures forall j :: |xs| <= j < n ==> numbers[j] == 0
  {
    var noConstants := PageConstants(None, None, 0, None, None, None, None, None, None);
    var payload := Int32Bytes(n) + IntsBytes(xs);
    var resources := map[ResolveDataResourceName(name, LINENUMBERS_DATA_POSTFIX) := payload];
    var page := PageClass(name, [], resources, noConstants);
    DataResourceNamesDiffer(name);
    var made := GroovyPageMetaInfo.ForPageClass(page);
    var meta := made.value;
    LineNumbersTruncated(n, xs, []);
    assert payload + [] == payload;
    var r;
    r, thrown := meta.GetLineNumbers();
    numbers := r[..];
    ZeroFilledSlots(xs, n);
  }

  /**
   * A precompiled page whose html resource holds the encoding of `parts` is
   * made by the constructor, with the `j`-th html part `parts[j]`.
   */
  method PrecompiledHtmlParts(name: string, parts: seq<Utf>) returns (htmlParts: seq<Option<Utf>>)
    requires |parts| <= MAX_INT
    ensures |htmlParts| == |parts|
    ensures forall j :: 0 <= j < |parts| ==> htmlParts[j] == Some(parts[j])
  {
    var noConstants := PageConstants(None, None, 0, None, None, None, None, None, None);
    var resources := map[ResolveDataResourceName(name, HTML_DATA_POSTFIX) := EncodeHtmlData(parts)];
    var page := PageClass(name, [], resources, noConstants);
    HtmlDataRoundTrip(parts, []);
    assert EncodeHtmlData(parts) + [] == EncodeHtmlData(parts);
    var made := GroovyPageMetaInfo.ForPageClass(page);
    htmlParts := made.value.htmlParts[..];
    NullFilledSlots(parts, |parts|);
  }
}
