# GroovyPageMetaInfo in Dafny

A Dafny model of `GroovyPageMetaInfo`, the metadata record the Grails GSP
engine keeps for each compiled page. The model covers four parts of the class.

- **Side data.** A precompiled page ships two binary resources beside its
  class. `<SimpleName>_html.data` holds a big-endian `int` count followed by
  that many `writeUTF` strings. `<SimpleName>_linenumbers.data` holds a count
  followed by that many big-endian `int`s. The html parts are read eagerly by
  the constructor. The line numbers are read on first use.
- **Reload decision.** `shouldReload` asks a callback for the page's current
  source resource, but at most once per check interval (5000 ms). The
  decision is cached in a `CacheEntry`. A resource counts as changed when it
  exists, its modification time is known and positive, and that time differs
  from the page's `lastModified` by more than the granularity (2000 ms).
- **One-shot state.** `initializeOnDemand` runs its initializer only while
  the page is not initialized. `initialize` resolves the four encoders, the
  plugin origin and the model fields. `getLineNumbers` and `getModelFields`
  fill their fields on first use and return them unchanged afterwards.
- **Normalisations.** `setJspTags(null)` stores the empty map. A plugin
  manager that knows no path for the class gives `DEFAULT_PLUGIN_PATH` (`""`).

Files:

- `java_types.dfy` (`JavaTypes`): Java's integer ranges, `Option`, `Result`,
  and `long` subtraction and `Math.abs` with their wrap-around.
- `big_endian.dfy` (`BigEndian`): `readInt`/`writeInt` and
  `readUTF`/`writeUTF` on byte sequences, and a `DataInputStream` class, a
  cursor over the bytes of a resource.
- `side_data.dfy` (`SideData`): the resource-name rule, and the two payload
  decoders as functions from bytes to an `ArrayLoad`. An `ArrayLoad` is either
  not allocated, with the exception, or an allocated array whose first slots
  were read. The file also has the matching encoders and the round-trip
  lemmas.
- `freshness.dfy` (`Freshness`): `establishLastModified` over an abstract
  resource, and the checker rule with its tolerance.
- `reload_cache.dfy` (`ReloadCache`): the cache entry and the callback that
  locates the source.
- `page_meta_info.dfy` (`PageMetaInfo`): the class `GroovyPageMetaInfo`, with
  its fields and methods.
- `page_meta_info_properties.dfy` (`PageMetaInfoProperties`): properties that
  span several calls.

Exceptions are values of `ReadFailure`:

- `EndOfStream` is an `EOFException`, which is an `IOException`.
- `NegativeArraySize` is the `NegativeArraySizeException` of `new int[-1]`.
- `NullPointer` is a `NullPointerException`.

A method that can throw returns the failure as an `Option<ReadFailure>`. The
throwing constructor is `ForPageClass`, which returns a `Result`. The clock is
an explicit `now` parameter. The callback is a `SourceLocator` object. It
counts its invocations, so contracts can say whether the source was located.

### Behaviour worth noting

- **Truncated line-number payload.** `readLineNumbers` stores the array
  before its loop. The `EOFException` of a payload cut short is an
  `IOException`, which `getPrecompiledLineNumbers` logs and swallows. So the
  page keeps an array of the declared length, zero after the last `int` read
  (`GetLineNumbers`, `TruncatedLineNumbersArePadded`).
- **Bad html payload.** The constructor catches only `IOException`. A payload
  cut short ends in an `EOFException`, which it wraps in a
  `RuntimeException`. A negative count ends in a
  `NegativeArraySizeException`, which is not an `IOException` and escapes
  unwrapped. Either way no record is created (`ForPageClass`).
- **Older sources reload too.** The javadoc of `shouldReload` promises true
  when the source is newer than the loaded page. The check compares the
  absolute difference of the two times with the granularity. So a source
  more than 2000 ms older than `lastModified` also calls for a reload. Both
  directions are in `CheckResource` and `ToleranceBoundary`.
- **Missing resources.** A missing html resource is tolerated. A missing
  line-number resource makes `new DataInputStream(null)` throw on its first
  read. That `NullPointerException` propagates out of `getLineNumbers`
  (`LineNumbersLoad`).

## Model

| member | source | states |
|---|---|---|
| JavaTypes.LongSub | grails-gsp/src/main/groovy/org/grails/gsp/GroovyPageMetaInfo.java:480 | Java `long` subtraction: the true difference whenever it fits in 64 bits, otherwise that difference shifted by 2^64 |
| JavaTypes.LongAbs | grails-gsp/src/main/groovy/org/grails/gsp/GroovyPageMetaInfo.java:480 | `Math.abs` on `long`: the magnitude for every value but the least, which stays negative |
| BigEndian.UInt16RoundTrip | grails-gsp/src/main/groovy/org/grails/gsp/GroovyPageMetaInfo.java:246 | the two-byte length prefix `writeUTF` emits reads back as the same length |
| BigEndian.Int32RoundTrip | grails-gsp/src/main/groovy/org/grails/gsp/GroovyPageMetaInfo.java:266-269 | `readInt` of the four bytes `writeInt(x)` emits is `x`, for every `int` including negatives |
| BigEndian.Int32BytesOfRead | grails-gsp/src/main/groovy/org/grails/gsp/GroovyPageMetaInfo.java:266-269 | `writeInt` of what `readInt` read reproduces the four bytes: the encoding is onto |
| BigEndian.UtfRoundTrip | grails-gsp/src/main/groovy/org/grails/gsp/GroovyPageMetaInfo.java:246 | `readUTF` of what `writeUTF` emitted returns the same string and ends right after it |
| BigEndian.UtfBytesOfRead | grails-gsp/src/main/groovy/org/grails/gsp/GroovyPageMetaInfo.java:246 | re-encoding an entry `readUTF` read reproduces its bytes exactly |
| BigEndian.DataInputStream.ReadInt | grails-gsp/src/main/groovy/org/grails/gsp/GroovyPageMetaInfo.java:269 | with four bytes left it returns the big-endian `int` there and advances four bytes; otherwise it fails with EOF and the stream is exhausted |
| BigEndian.DataInputStream.ReadUTF | grails-gsp/src/main/groovy/org/grails/gsp/GroovyPageMetaInfo.java:246 | with a whole entry left it returns its body and advances past it; otherwise (length or body cut short) it fails with EOF |
| SideData.LastIndexOf | grails-gsp/src/main/groovy/org/grails/gsp/GroovyPageMetaInfo.java:286 | `lastIndexOf`: -1 or an index holding the character, with no occurrence after it |
| SideData.ResolveDataResourceName | grails-gsp/src/main/groovy/org/grails/gsp/GroovyPageMetaInfo.java:284-292 | the name ends with the postfix, and what precedes it is the class name's part after its last '.', containing no '.' (the whole name when there is none) |
| SideData.SimpleNameUnique | grails-gsp/src/main/groovy/org/grails/gsp/GroovyPageMetaInfo.java:284-292 | that description fixes the stem: two stems that both satisfy it are equal |
| SideData.ResourceNameExamples | grails-gsp/src/main/groovy/org/grails/gsp/GroovyPageMetaInfo.java:284-292 | `a.b.Page` and `Page` give `Page` + postfix; `Page.` gives the bare postfix, for every postfix |
| SideData.DataResourceNamesDiffer | grails-gsp/src/main/groovy/org/grails/gsp/GroovyPageMetaInfo.java:284-292 | the html and the line-number resource of one class never share a name |
| SideData.ReadInts | grails-gsp/src/main/groovy/org/grails/gsp/GroovyPageMetaInfo.java:268-270 | `k` reads from `pos` obtain at most `k` ints, and exactly `k` iff `4k` bytes are left |
| SideData.ReadIntsAt | grails-gsp/src/main/groovy/org/grails/gsp/GroovyPageMetaInfo.java:268-270 | the `j`-th int read is the big-endian int at `pos + 4j` |
| SideData.LoadLineNumbers | grails-gsp/src/main/groovy/org/grails/gsp/GroovyPageMetaInfo.java:265-270 | no array when the count is missing (EOF) or negative; otherwise an array of the declared length whose `j`-th read slot is the int at `4 + 4j`, read completely iff `4 + 4N` bytes are there |
| SideData.ReadIntsOfEncoded | grails-gsp/src/main/groovy/org/grails/gsp/GroovyPageMetaInfo.java:268-270 | reading the `writeInt` encoding of `xs` gives back `xs` |
| SideData.ReadIntsOfTruncated | grails-gsp/src/main/groovy/org/grails/gsp/GroovyPageMetaInfo.java:268-270 | asking for more `int`s than a cut-short payload holds gives back exactly the ones that are there, in order |
| SideData.EncodedOfReadInts | grails-gsp/src/main/groovy/org/grails/gsp/GroovyPageMetaInfo.java:268-270 | a complete read of `k` ints consumed exactly their encoding |
| SideData.LineNumbersRoundTrip | grails-gsp/src/main/groovy/org/grails/gsp/GroovyPageMetaInfo.java:265-270 | decoding the encoding of any `xs`, whatever bytes follow, is a complete array equal to `xs` |
| SideData.LineNumbersReencode | grails-gsp/src/main/groovy/org/grails/gsp/GroovyPageMetaInfo.java:265-270 | a complete decode consumed a prefix of the payload that is exactly the encoding of the result |
| SideData.LineNumbersTruncated | grails-gsp/src/main/groovy/org/grails/gsp/GroovyPageMetaInfo.java:265-270 | a payload declaring `n` numbers but holding only `xs` gives an array of length `n`, not complete, whose read slots are `xs` |
| SideData.LineNumbersExample | grails-gsp/src/main/groovy/org/grails/gsp/GroovyPageMetaInfo.java:265-270 | `[0, 7, 1000000, -5]` survives encoding and decoding |
| SideData.ReadUtfs | grails-gsp/src/main/groovy/org/grails/gsp/GroovyPageMetaInfo.java:245-247 | `k` reads obtain at most `k` strings, in stream order |
| SideData.LoadHtmlData | grails-gsp/src/main/groovy/org/grails/gsp/GroovyPageMetaInfo.java:242-247 | no array when the count is missing (EOF) or negative; otherwise an array of the declared length holding at most that many strings read |
| SideData.ReadUtfsOfEncoded | grails-gsp/src/main/groovy/org/grails/gsp/GroovyPageMetaInfo.java:245-247 | reading the `writeUTF` encodings of `parts` gives back `parts`, in order |
| SideData.EncodedOfReadUtfs | grails-gsp/src/main/groovy/org/grails/gsp/GroovyPageMetaInfo.java:245-247 | a complete read of `k` strings consumed exactly their encodings |
| SideData.HtmlDataRoundTrip | grails-gsp/src/main/groovy/org/grails/gsp/GroovyPageMetaInfo.java:242-247 | decoding the encoding of any parts, whatever bytes follow, is a complete array of length `N` equal to the parts |
| SideData.HtmlDataReencode | grails-gsp/src/main/groovy/org/grails/gsp/GroovyPageMetaInfo.java:242-247 | a complete decode consumed a prefix of the payload that is exactly the encoding of the result |
| SideData.ZeroFilledSlots | grails-gsp/src/main/groovy/org/grails/gsp/GroovyPageMetaInfo.java:267 | a partly filled `int[N]` holds the ints read first and Java's default 0 after them |
| SideData.NullFilledSlots | grails-gsp/src/main/groovy/org/grails/gsp/GroovyPageMetaInfo.java:244 | a partly filled `String[N]` holds the strings read first and null after them |
| Freshness.EstablishLastModified | grails-gsp/src/main/groovy/org/grails/gsp/GroovyPageMetaInfo.java:404-450 | -1 for a null resource and whenever the URL probe fails; the file time for a file-system resource; the local file's time for a `file:` URL naming an existing file; else the connection's time |
| Freshness.CheckResource | grails-gsp/src/main/groovy/org/grails/gsp/GroovyPageMetaInfo.java:474-484 | reports only the located resource itself, and only when it exists and has a positive time |
| Freshness.ChangeRule | grails-gsp/src/main/groovy/org/grails/gsp/GroovyPageMetaInfo.java:474-484 | when neither the subtraction nor `Math.abs` overflows: changed iff the resource is non-null, exists, its time is positive, and the times differ by strictly more than the granularity |
| Freshness.ToleranceBoundary | grails-gsp/src/main/groovy/org/grails/gsp/GroovyPageMetaInfo.java:479-480 | a time exactly the granularity away (either side) is unchanged; one millisecond further is changed |
| Freshness.DefaultToleranceExample | grails-gsp/src/main/groovy/org/grails/gsp/GroovyPageMetaInfo.java:474-484 | with `lastModified` 10000 and the default granularity, 12000 is unchanged, 12001 changed, and a resource that does not exist unchanged |
| Freshness.UnknownIsUnchanged | grails-gsp/src/main/groovy/org/grails/gsp/GroovyPageMetaInfo.java:404-434 | a null resource or a failing URL probe yields -1, which never counts as a change |
| Freshness.WrapAroundHidesChange | grails-gsp/src/main/groovy/org/grails/gsp/GroovyPageMetaInfo.java:479-480 | with Java's arithmetic, the largest time against a recorded -1 wraps and reads as unchanged |
| ReloadCache.CacheEntry.SetValue | grails-gsp/src/main/groovy/org/grails/gsp/GroovyPageMetaInfo.java:487 | the entry holds the new outcome, stamped with the current time |
| ReloadCache.SourceLocator.Run | grails-gsp/src/main/groovy/org/grails/gsp/GroovyPageMetaInfo.java:474 | locating the source yields the current resource and counts one invocation |
| PageMetaInfo.GroovyPageMetaInfo.constructor | grails-gsp/src/main/groovy/org/grails/gsp/GroovyPageMetaInfo.java:134-136 | a run-time page: not precompiled, no class, empty JSP tags, nothing initialized, an empty reload cache |
| PageMetaInfo.GroovyPageMetaInfo.FromConstants | grails-gsp/src/main/groovy/org/grails/gsp/GroovyPageMetaInfo.java:139-164 | precompiled mode, the class's constants copied, and the two mode flags false unless the class declares them |
| PageMetaInfo.GroovyPageMetaInfo.ForPageClass | grails-gsp/src/main/groovy/org/grails/gsp/GroovyPageMetaInfo.java:139-172 | a record exists iff the html resource is absent or read completely; it then holds the class's constants, every other field at its default and an empty cache, and `htmlParts` null (absent resource) or the parts read; otherwise the failure is the reader's (EOF, wrapped by the constructor, or a negative size, which escapes) |
| PageMetaInfo.ReadUtfsInto | grails-gsp/src/main/groovy/org/grails/gsp/GroovyPageMetaInfo.java:245-247 | the array ends up holding exactly the strings the stream yields, in order, null after them; complete iff every slot was read |
| PageMetaInfo.ReadIntsInto | grails-gsp/src/main/groovy/org/grails/gsp/GroovyPageMetaInfo.java:268-270 | the array ends up holding exactly the ints the stream yields, zero after them; complete iff every slot was read |
| PageMetaInfo.GroovyPageMetaInfo.ReadHtmlData | grails-gsp/src/main/groovy/org/grails/gsp/GroovyPageMetaInfo.java:234-253 | absent resource: nothing changes, nothing thrown; missing or negative count: the failure, field unchanged; else a fresh array of the declared length holding the decoded parts, and EOF when it was cut short |
| PageMetaInfo.GroovyPageMetaInfo.ReadLineNumbers | grails-gsp/src/main/groovy/org/grails/gsp/GroovyPageMetaInfo.java:260-275 | as `readHtmlData` for ints, except that an absent resource is a null-pointer failure; a truncated payload leaves the zero-padded array stored |
| PageMetaInfo.GroovyPageMetaInfo.GetLineNumbers | grails-gsp/src/main/groovy/org/grails/gsp/GroovyPageMetaInfo.java:343-349 | not precompiled, or a table already there: that table, untouched; else the table is read once, an IOException swallowed (the partial table kept), other failures propagated |
| PageMetaInfo.GroovyPageMetaInfo.GetPrecompiledLineNumbers | grails-gsp/src/main/groovy/org/grails/gsp/GroovyPageMetaInfo.java:351-361 | reads only while the field is null; EOF is swallowed, null-pointer and negative-size failures are not |
| PageMetaInfo.GroovyPageMetaInfo.SetJspTags | grails-gsp/src/main/groovy/org/grails/gsp/GroovyPageMetaInfo.java:368-370 | the given map, or the empty map for null |
| PageMetaInfo.GroovyPageMetaInfo.SetGrailsApplication | grails-gsp/src/main/groovy/org/grails/gsp/GroovyPageMetaInfo.java:498-500 | the application is stored; nothing else changes |
| PageMetaInfo.GroovyPageMetaInfo.SetPageClass | grails-gsp/src/main/groovy/org/grails/gsp/GroovyPageMetaInfo.java:314-317 | the class is stored and its plugin origin looked up again |
| PageMetaInfo.GroovyPageMetaInfo.SetLastModified | grails-gsp/src/main/groovy/org/grails/gsp/GroovyPageMetaInfo.java:323-325 | the time is stored; nothing else changes |
| PageMetaInfo.GroovyPageMetaInfo.InitializeEncoders | grails-gsp/src/main/groovy/org/grails/gsp/GroovyPageMetaInfo.java:181-184 | each encoder is the lookup of its own codec name in the page's application |
| PageMetaInfo.GroovyPageMetaInfo.InitializePluginPath | grails-gsp/src/main/groovy/org/grails/gsp/GroovyPageMetaInfo.java:211-227 | without application, class, context or plugin manager nothing changes; else the manager's path (`""` when it has none) and plugin |
| PageMetaInfo.GroovyPageMetaInfo.InitializeModelFields | grails-gsp/src/main/groovy/org/grails/gsp/GroovyPageMetaInfo.java:192-205 | with a class: exactly its declared non-static, non-synthetic fields (none unless model-fields mode is on); without one: unchanged |
| PageMetaInfo.GroovyPageMetaInfo.GetModelFields | grails-gsp/src/main/groovy/org/grails/gsp/GroovyPageMetaInfo.java:558-563 | a set already computed is returned untouched; else it is computed once as above |
| PageMetaInfo.GroovyPageMetaInfo.Initialize | grails-gsp/src/main/groovy/org/grails/gsp/GroovyPageMetaInfo.java:180-190 | encoders, plugin origin and model fields as above, and the page is initialized |
| PageMetaInfo.GroovyPageMetaInfo.InitializeOnDemand | grails-gsp/src/main/groovy/org/grails/gsp/GroovyPageMetaInfo.java:174-178 | the initializer runs iff the page is not initialized; when it runs, the page gets the initializer's application and then everything `initialize` sets, and no other field changes; when it does not run, nothing changes |
| PageMetaInfo.GroovyPageMetaInfo.ApplyLastModifiedFromResource | grails-gsp/src/main/groovy/org/grails/gsp/GroovyPageMetaInfo.java:393-395 | `lastModified` becomes the resource's established time |
| PageMetaInfo.GroovyPageMetaInfo.CheckIfReloadableResourceHasChanged | grails-gsp/src/main/groovy/org/grails/gsp/GroovyPageMetaInfo.java:471-488 | cache stale or empty: the source is located exactly once, checked, and the outcome cached at `now`; cache fresh: the cached outcome, the source not located, the cache untouched |
| PageMetaInfo.GroovyPageMetaInfo.ShouldReload | grails-gsp/src/main/groovy/org/grails/gsp/GroovyPageMetaInfo.java:463-469 | a null callback: false, with neither cache nor callback touched; otherwise true iff the check yields a resource; a stale cache is refilled at `now` with the outcome of checking the located source, which later calls within the interval return |
| PageMetaInfoProperties.ReloadDecisionIsCached | grails-gsp/src/main/groovy/org/grails/gsp/GroovyPageMetaInfo.java:471-488 | two checks within one interval give the same answer however the source changed in between, and the source is located once |
| PageMetaInfoProperties.InitializeOnDemandRunsOnce | grails-gsp/src/main/groovy/org/grails/gsp/GroovyPageMetaInfo.java:174-190 | a second `initializeOnDemand` never runs its initializer |
| PageMetaInfoProperties.LineNumbersAreKept | grails-gsp/src/main/groovy/org/grails/gsp/GroovyPageMetaInfo.java:343-361 | a table once returned is returned again by the next call and stays the page's table |
| PageMetaInfoProperties.ReloadExample | grails-gsp/src/main/groovy/org/grails/gsp/GroovyPageMetaInfo.java:463-488 | `lastModified` 10000: a source at 12001 reloads; 4 s later, at 12000, the cached answer stands; 10 s after the first check, 12000 does not reload; no callback, no reload; the source was located twice |
| PageMetaInfoProperties.PrecompiledLineNumbers | grails-gsp/src/main/groovy/org/grails/gsp/GroovyPageMetaInfo.java:343-361 | a class with no html resource whose line-number resource encodes `xs` gets a record from the constructor, and `getLineNumbers` on it gives exactly `xs` with nothing thrown |
| PageMetaInfoProperties.TruncatedLineNumbersArePadded | grails-gsp/src/main/groovy/org/grails/gsp/GroovyPageMetaInfo.java:343-361 | a line-number resource that declares `n` numbers but holds only `xs`: nothing thrown, and the table has length `n`, `xs` first and 0 after them |
| PageMetaInfoProperties.PrecompiledHtmlParts | grails-gsp/src/main/groovy/org/grails/gsp/GroovyPageMetaInfo.java:139-172 | a class whose html resource encodes `parts` gets a record from the constructor whose `j`-th html part is `parts[j]` |

## Left out

- Modified UTF-8: html parts are kept as the byte strings `readUTF` decodes. Decoding them into characters, and the `UTFDataFormatException` for malformed bytes, are not modelled.
- Stream closing (`closeQuietly`) and real resource I/O: a resource is the byte sequence it holds. `File`, `URL` and `URLConnection` are abstracted into the `Resource` and `Url` datatypes, each with an optional timestamp.
- Reflection: the constants of a precompiled class are the `PageConstants` datatype. A missing `lastModified` constant, which throws on unboxing, is not modelled. `makeAccessible` has no counterpart.
- `WithCodecHelper.lookupEncoder` is not part of this model. An encoder is looked up by codec name in the application's encoder map, and there is none without an application, a codec name or a map entry.
- Spring wiring: the main `ApplicationContext` and the `GrailsPluginManager` bean are datatypes holding the plugin path and the plugin of each class, by class name.
- `grails.util.CacheEntry` is not part of this model. The expiry rule (stale once more than the interval has passed since the value was set) is an assumption kept in `CacheEntry.HasExpired`. `returnExpiredWhileUpdating` and the cache request object are not modelled; they only matter with concurrent callers.
- Concurrency: `synchronized` and `volatile` are read as plain sequential execution.
- The implementations of `GroovyPageMetaInfoInitializer` are not part of this model. An `Initializer` gives the page its application and then calls `initialize`.
- The clock is the `now` parameter. The system properties `grails.gsp.reload.interval` and `grails.gsp.reload.granularity` are fixed at their defaults.
- `removePageMetaClass` and `writeToFinished` change the Groovy meta-class registry, which is outside this record.
- Plain getters, and the setters for the codec names, the mode flags, `contentType`, `lineNumbers`, `htmlParts`, `groovySource`, `compilationException`, `tagLibraryLookup` and `jspTagLibraryResolver`: each only stores or returns a field.
- PageMetaInfo.GroovyPageMetaInfo.ReadHtmlData: requires a page class. Its only caller is the constructor, which has just stored the class.
