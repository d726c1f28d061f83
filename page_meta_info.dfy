/**
 * `GroovyPageMetaInfo`: the metadata record of one compiled GSP page. A
 * precompiled page reads its html parts eagerly and its line numbers on
 * first use from the side-data resources beside its class; every page
 * resolves its encoders, plugin origin and model fields once, at
 * initialization; and `shouldReload` answers, through a time-gated cache,
 * whether the page's source is newer than the page.
 */
module PageMetaInfo {
  import opened JavaTypes
  import opened BigEndian
  import opened SideData
  import opened Freshness
  import opened ReloadCache

  const DEFAULT_PLUGIN_PATH: string := ""

  /** A field the page class declares, as reflection reports it. */
  datatype Field = Field(name: string, isStatic: bool, isSynthetic: bool)

  /**
   * The static constants a precompiled page class carries, as the
   * constructor reads them by reflection. The two mode flags are None when
   * the class does not declare them.
   */
  datatype PageConstants = PageConstants(
    contentType: Option<string>,
    jspTags: Option<map<string, string>>,
    lastModified: long,
    expressionCodecName: Option<string>,
    staticCodecName: Option<string>,
    outCodecName: Option<string>,
    taglibCodecName: Option<string>,
    compileStaticMode: Option<bool>,
    modelFieldsMode: Option<bool>)

  /** A compiled page class: its name, its declared fields, the resources of its package, its constants. */
  datatype PageClass = PageClass(
    name: string,
    declaredFields: seq<Field>,
    resources: map<string, seq<byte>>,
    constants: PageConstants)

  /** `Class.getResourceAsStream`: the bytes of the named resource, or null. */
  function ResourceAsStream(page: PageClass, name: string): Option<seq<byte>> {
    if name in page.resources then Some(page.resources[name]) else None
  }

  /** An encoder the encoder registry hands out; only its identity matters here. */
  datatype Encoder = Encoder(id: nat)

  datatype Plugin = Plugin(name: string)

  /** The `GrailsPluginManager`: the plugin path and the plugin of each class it knows, by class name. */
  datatype PluginManager = PluginManager(pluginPaths: map<string, string>, plugins: map<string, Plugin>)

  /** The main application context, with its `GrailsPluginManager` bean when it has one. */
  datatype ApplicationContext = ApplicationContext(pluginManager: Option<PluginManager>)

  /** The application: its main context, and the encoders its codec registry knows, by codec name. */
  datatype GrailsApplication = GrailsApplication(mainContext: Option<ApplicationContext>, encoders: map<string, Encoder>)

  /**
   * `WithCodecHelper.lookupEncoder(application, codecName)`: no encoder
   * without an application, without a codec name, or for a codec the
   * application does not know.
   */
  function LookupEncoder(application: Option<GrailsApplication>, codecName: Option<string>): Option<Encoder>
  {
    if application.None? || codecName.None? || codecName.value !in application.value.encoders then None
    else Some(application.value.encoders[codecName.value])
  }

  /**
   * The initializer a template engine hands to `initializeOnDemand`: it
   * gives the page the application and then calls `initialize`.
   */
  datatype Initializer = Initializer(application: Option<GrailsApplication>)

  /** The fields `initializeModelFields` keeps: declared, not static, not compiler-generated. */
  predicate IsModelField(f: Field) {
    !f.isStatic && !f.isSynthetic
  }

  function ModelFieldsOf(fields: seq<Field>, modelFieldsMode: bool): set<Field> {
    if modelFieldsMode then set f | f in fields && IsModelField(f) else {}
  }

  /**
   * What `initializePluginPath` finds: None when it returns early (no
   * application, no page class, no context, or no plugin manager bean),
   * else the plugin path, with null replaced by DEFAULT_PLUGIN_PATH, and
   * the plugin (null when the manager knows none).
   */
  function PluginOrigin(app: Option<GrailsApplication>, page: Option<PageClass>): Option<(string, Option<Plugin>)> {
    if app.None? || page.None? then None
    else if app.value.mainContext.None? || app.value.mainContext.value.pluginManager.None? then None
    else
      var manager := app.value.mainContext.value.pluginManager.value;
      var name := page.value.name;
      var path := if name in manager.pluginPaths then manager.pluginPaths[name] else DEFAULT_PLUGIN_PATH;
      var plugin := if name in manager.plugins then Some(manager.plugins[name]) else None;
      Some((path, plugin))
  }

  /** What `readHtmlData` finds for the page: None when the resource is absent. */
  function HtmlDataLoad(page: PageClass): Option<ArrayLoad<Utf>> {
    match ResourceAsStream(page, ResolveDataResourceName(page.name, HTML_DATA_POSTFIX))
    case None => None
    case Some(data) => Some(LoadHtmlData(data))
  }

  /**
   * What `readLineNumbers` finds: reading a missing resource (or resolving
   * the name of a missing page class) throws a NullPointerException.
   */
  function LineNumbersLoad(page: Option<PageClass>): ArrayLoad<int32> {
    if page.None? then NotAllocated(NullPointer)
    else match ResourceAsStream(page.value, ResolveDataResourceName(page.value.name, LINENUMBERS_DATA_POSTFIX))
      case None => NotAllocated(NullPointer)
      case Some(data) => LoadLineNumbers(data)
  }

  /** An IOException, which `getPrecompiledLineNumbers` logs and swallows. */
  predicate IsIOException(f: ReadFailure) {
    f.EndOfStream?
  }

  /**
   * The loop of `readHtmlData`: `readUTF` into each slot of `parts` in turn,
   * stopping at the first read that runs off the end of the stream.
   */
  method ReadUtfsInto(input: DataInputStream, parts: array<Option<Utf>>) returns (complete: bool)
    requires input.Valid() && forall j :: 0 <= j < parts.Length ==> parts[j] == None
    modifies input, parts
    ensures var read := ReadUtfs(input.data, old(input.pos), parts.Length);
      parts[..] == NullFilled(read, parts.Length) && (complete <==> |read| == parts.Length)
  {
    var n := parts.Length;
    ghost var data, start := input.data, input.pos;
    ghost var read: seq<Utf> := [];
    assert parts[..] == NullFilled(read, n);
    for i := 0 to n
      invariant input.Valid() && |read| == i
      invariant read + ReadUtfs(data, input.pos, n - i) == ReadUtfs(data, start, n)
      invariant parts[..] == NullFilled(read, n)
    {
      ghost var before := input.pos;
      var part := input.ReadUTF();
      if part.None? {
        assert ReadUtfs(data, before, n - i) == [];
        return false;
      }
      ReadUtfsAdvance(data, start, before, n - i, read);
      NullFilledStore(read, part.value, n);
      parts[i] := part;
      read := read + [part.value];
    }
    return true;
  }

  /**
   * The loop of `readLineNumbers`: `readInt` into each slot of `numbers` in
   * turn, stopping at the first read that runs off the end of the stream.
   */
  method ReadIntsInto(input: DataInputStream, numbers: array<int32>) returns (complete: bool)
    requires input.Valid() && forall j :: 0 <= j < numbers.Length ==> numbers[j] == 0
    modifies input, numbers
    ensures old(input.pos) <= |input.data|
    ensures var read := ReadInts(input.data, old(input.pos), numbers.Length);
      numbers[..] == ZeroFilled(read, numbers.Length) && (complete <==> |read| == numbers.Length)
  {
    var n := numbers.Length;
    ghost var data, start := input.data, input.pos;
    ghost var read: seq<int32> := [];
    assert numbers[..] == ZeroFilled(read, n);
    for i := 0 to n
      invariant input.Valid() && |read| == i
      invariant read + ReadInts(data, input.pos, n - i) == ReadInts(data, start, n)
      invariant numbers[..] == ZeroFilled(read, n)
    {
      ghost var before := input.pos;
      var number := input.ReadInt();
      if number.None? {
        assert ReadInts(data, before, n - i) == [];
        return false;
      }
      ReadIntsAdvance(data, start, before, n - i, read);
      ZeroFilledStore(read, number.value, n);
      numbers[i] := number.value;
      read := read + [number.value];
    }
    return true;
  }

  class GroovyPageMetaInfo {
    var precompiledMode: bool
    var pageClass: Option<PageClass>
    var lastModified: long
    var contentType: Option<string>
    var lineNumbers: array?<int32>
    var htmlParts: array?<Option<Utf>>
    var jspTags: Option<map<string, string>>
    var expressionEncoder: Option<Encoder>
    var staticEncoder: Option<Encoder>
    var outEncoder: Option<Encoder>
    var taglibEncoder: Option<Encoder>
    var expressionCodecName: Option<string>
    var staticCodecName: Option<string>
    var outCodecName: Option<string>
    var taglibCodecName: Option<string>
    var compileStaticMode: bool
    var modelFieldsMode: bool
    var modelFields: Option<set<Field>>
    var grailsApplication: Option<GrailsApplication>
    var pluginPath: Option<string>
    var pagePlugin: Option<Plugin>
    var initialized: bool
    const shouldReloadCacheEntry: CacheEntry<Option<Resource>>

    /** The no-argument constructor: a page compiled at run time, every field at its default. */
    constructor ()
      ensures !precompiledMode && pageClass.None? && lastModified == 0 && contentType.None?
      ensures lineNumbers == null && htmlParts == null && jspTags == Some(map[])
      ensures expressionEncoder.None? && staticEncoder.None? && outEncoder.None? && taglibEncoder.None?
      ensures expressionCodecName.None? && staticCodecName.None? && outCodecName.None? && taglibCodecName.None?
      ensures !compileStaticMode && !modelFieldsMode && modelFields.None?
      ensures grailsApplication.None? && pluginPath.None? && pagePlugin.None? && !initialized
      ensures fresh(shouldReloadCacheEntry) && shouldReloadCacheEntry.value.None?
    {
      precompiledMode := false;
      pageClass := None;
      lastModified := 0;
      contentType := None;
      lineNumbers := null;
      htmlParts := null;
      jspTags := Some(map[]);
      expressionEncoder, staticEncoder, outEncoder, taglibEncoder := None, None, None, None;
      expressionCodecName, staticCodecName, outCodecName, taglibCodecName := None, None, None, None;
      compileStaticMode := false;
      modelFieldsMode := false;
      modelFields := None;
      grailsApplication := None;
      pluginPath := None;
      pagePlugin := None;
      initialized := false;
      shouldReloadCacheEntry := new CacheEntry();
    }

    /**
     * The state the precompiled-class constructor sets up, apart from
     * `htmlParts`: precompiled mode, the class and its constants (the two
     * mode flags false unless the class declares them), and everything else
     * at its default, with an empty reload cache.
     */
    ghost predicate IsPrecompiledFrom(page: PageClass)
      reads this, shouldReloadCacheEntry
    {
      && precompiledMode && pageClass == Some(page)
      && contentType == page.constants.contentType && jspTags == page.constants.jspTags
      && lastModified == page.constants.lastModified
      && expressionCodecName == page.constants.expressionCodecName
      && staticCodecName == page.constants.staticCodecName
      && outCodecName == page.constants.outCodecName
      && taglibCodecName == page.constants.taglibCodecName
      && compileStaticMode == page.constants.compileStaticMode.GetOr(false)
      && modelFieldsMode == page.constants.modelFieldsMode.GetOr(false)
      && lineNumbers == null
      && expressionEncoder.None? && staticEncoder.None? && outEncoder.None? && taglibEncoder.None?
      && modelFields.None? && grailsApplication.None? && pluginPath.None? && pagePlugin.None? && !initialized
      && shouldReloadCacheEntry.value.None?
    }

    /**
     * The field assignments of the precompiled-class constructor, before it
     * reads the html data: the constants of the class, and the two mode
     * flags only when the class declares them.
     */
    constructor FromConstants(page: PageClass)
      ensures IsPrecompiledFrom(page) && htmlParts == null
      ensures fresh(shouldReloadCacheEntry)
    {
      var constants := page.constants;
      precompiledMode := true;
      pageClass := Some(page);
      contentType := constants.contentType;
      jspTags := constants.jspTags;
      lastModified := constants.lastModified;
      expressionCodecName := constants.expressionCodecName;
      staticCodecName := constants.staticCodecName;
      outCodecName := constants.outCodecName;
      taglibCodecName := constants.taglibCodecName;
      compileStaticMode := constants.compileStaticMode.GetOr(false);
      modelFieldsMode := constants.modelFieldsMode.GetOr(false);
      lineNumbers := null;
      htmlParts := null;
      expressionEncoder, staticEncoder, outEncoder, taglibEncoder := None, None, None, None;
      modelFields := None;
      grailsApplication := None;
      pluginPath := None;
      pagePlugin := None;
      initialized := false;
      shouldReloadCacheEntry := new CacheEntry();
    }

    /**
     * The constructor `GroovyPageMetaInfo(Class)`: the constants, then
     * `readHtmlData`. No record is made unless the html resource is absent
     * or is read completely. A payload cut short ends in an EOFException,
     * which the constructor wraps in a RuntimeException; a negative count
     * ends in a NegativeArraySizeException, which is no IOException and
     * escapes as it is. Either way the failure is the reader's.
     */
    static method ForPageClass(page: PageClass) returns (r: Result<GroovyPageMetaInfo, ReadFailure>)
      ensures r.Success? <==> HtmlDataLoad(page).None? || HtmlDataLoad(page).value.Complete()
      ensures r.Failure? ==> r.error == (match HtmlDataLoad(page).value
                                         case NotAllocated(f) => f
                                         case Allocated(_, _) => EndOfStream)
      ensures r.Success? ==> fresh(r.value) && fresh(r.value.shouldReloadCacheEntry)
      ensures r.Success? ==> r.value.IsPrecompiledFrom(page)
      ensures r.Success? && HtmlDataLoad(page).None? ==> r.value.htmlParts == null
      ensures r.Success? && HtmlDataLoad(page).Some? ==>
        var parts := HtmlDataLoad(page).value.items;
        r.value.htmlParts != null && r.value.htmlParts[..] == NullFilled(parts, |parts|)
    {
      var m := new GroovyPageMetaInfo.FromConstants(page);
      var thrown := m.ReadHtmlData();
      assert m.IsPrecompiledFrom(page);
      if thrown.Some? {
        return Failure(thrown.value);
      }
      return Success(m);
    }

    /**
     * `readHtmlData`: reads the count, allocates `htmlParts`, then reads the
     * parts one by one. An absent resource leaves `htmlParts` as it was; a
     * payload cut short leaves the array allocated and partly filled.
     */
    method ReadHtmlData() returns (thrown: Option<ReadFailure>)
      requires pageClass.Some?
      modifies this`htmlParts
      ensures HtmlDataLoad(pageClass.value).None? ==> thrown.None? && htmlParts == old(htmlParts)
      ensures HtmlDataLoad(pageClass.value).Some? ==>
        match HtmlDataLoad(pageClass.value).value
        case NotAllocated(f) => thrown == Some(f) && htmlParts == old(htmlParts)
        case Allocated(n, items) =>
          htmlParts != null && fresh(htmlParts) && htmlParts[..] == NullFilled(items, n) &&
          thrown == (if |items| == n then None else Some(EndOfStream))
    {
      var page := pageClass.value;
      var dataResourceName := ResolveDataResourceName(page.name, HTML_DATA_POSTFIX);
      var resourceStream := ResourceAsStream(page, dataResourceName);
      if resourceStream.None? {
        return None;
      }
      var data := resourceStream.value;
      var input := new DataInputStream(data);
      var count := input.ReadInt();
      if count.None? {
        return Some(EndOfStream);
      }
      if count.value < 0 {
        return Some(NegativeArraySize);
      }
      var arrayLen: nat := count.value;
      var parts := new Option<Utf>[arrayLen](_ => None);
      htmlParts := parts;
      var complete := ReadUtfsInto(input, parts);
      return if complete then None else Some(EndOfStream);
    }

    /**
     * `readLineNumbers`: as `readHtmlData`, for the line-number table, but
     * with no check for an absent resource.
     */
    method ReadLineNumbers() returns (thrown: Option<ReadFailure>)
      modifies this`lineNumbers
      ensures match LineNumbersLoad(pageClass)
        case NotAllocated(f) => thrown == Some(f) && lineNumbers == old(lineNumbers)
        case Allocated(n, items) =>
          lineNumbers != null && fresh(lineNumbers) && lineNumbers[..] == ZeroFilled(items, n) &&
          thrown == (if |items| == n then None else Some(EndOfStream))
    {
      if pageClass.None? {
        return Some(NullPointer);
      }
      var page := pageClass.value;
      var dataResourceName := ResolveDataResourceName(page.name, LINENUMBERS_DATA_POSTFIX);
      var resourceStream := ResourceAsStream(page, dataResourceName);
      if resourceStream.None? {
        return Some(NullPointer);
      }
      var data := resourceStream.value;
      var input := new DataInputStream(data);
      var count := input.ReadInt();
      if count.None? {
        return Some(EndOfStream);
      }
      if count.value < 0 {
        return Some(NegativeArraySize);
      }
      var arrayLen: nat := count.value;
      var numbers := new int32[arrayLen](_ => 0);
      lineNumbers := numbers;
      var complete := ReadIntsInto(input, numbers);
      return if complete then None else Some(EndOfStream);
    }

    /**
     * `getLineNumbers`: a precompiled page reads its table on the first call
     * that finds none (an IOException is logged and swallowed, other
     * exceptions propagate); afterwards, and for any other page, the stored
     * table is returned as it is.
     */
    method GetLineNumbers() returns (r: array?<int32>, thrown: Option<ReadFailure>)
      modifies this`lineNumbers
      ensures !precompiledMode || old(lineNumbers) != null ==>
        r == lineNumbers == old(lineNumbers) && thrown.None?
      ensures precompiledMode && old(lineNumbers) == null ==>
        match LineNumbersLoad(pageClass)
        case NotAllocated(f) =>
          lineNumbers == null && r == null && thrown == (if IsIOException(f) then None else Some(f))
        case Allocated(n, items) =>
          lineNumbers != null && fresh(lineNumbers) && lineNumbers[..] == ZeroFilled(items, n) &&
          r == lineNumbers && thrown.None?
    {
      if precompiledMode {
        r, thrown := GetPrecompiledLineNumbers();
        return;
      }
      return lineNumbers, None;
    }

    /** `getPrecompiledLineNumbers`: read the table only while there is none. */
    method GetPrecompiledLineNumbers() returns (r: array?<int32>, thrown: Option<ReadFailure>)
      modifies this`lineNumbers
      ensures old(lineNumbers) != null ==> r == lineNumbers == old(lineNumbers) && thrown.None?
      ensures old(lineNumbers) == null ==>
        match LineNumbersLoad(pageClass)
        case NotAllocated(f) =>
          lineNumbers == null && r == null && thrown == (if IsIOException(f) then None else Some(f))
        case Allocated(n, items) =>
          lineNumbers != null && fresh(lineNumbers) && lineNumbers[..] == ZeroFilled(items, n) &&
          r == lineNumbers && thrown.None?
    {
      thrown := None;
      if lineNumbers == null {
        var failure := ReadLineNumbers();
        if failure.Some? && !IsIOException(failure.value) {
          thrown := failure;
        }
      }
      r := lineNumbers;
    }

    /** `setJspTags`: null stands for the empty map. */
    method SetJspTags(tags: Option<map<string, string>>)
      modifies this`jspTags
      ensures jspTags.Some? && jspTags.value == tags.GetOr(map[])
    {
      jspTags := Some(if tags.Some? then tags.value else map[]);
    }

    /** `setGrailsApplication`. */
    method SetGrailsApplication(application: Option<GrailsApplication>)
      modifies this`grailsApplication
      ensures grailsApplication == application
    {
      grailsApplication := application;
    }

    /** `setPageClass`: the new class, and its plugin origin looked up again. */
    method SetPageClass(page: Option<PageClass>)
      modifies this`pageClass, this`pluginPath, this`pagePlugin
      ensures pageClass == page
      ensures PluginOrigin(grailsApplication, page).None? ==>
        pluginPath == old(pluginPath) && pagePlugin == old(pagePlugin)
      ensures PluginOrigin(grailsApplication, page).Some? ==>
        pluginPath == Some(PluginOrigin(grailsApplication, page).value.0) &&
        pagePlugin == PluginOrigin(grailsApplication, page).value.1
    {
      pageClass := page;
      InitializePluginPath();
    }

    /** The first half of `initialize`: each of the four encoders looked up by its codec name. */
    method InitializeEncoders()
      modifies this`expressionEncoder, this`staticEncoder, this`outEncoder, this`taglibEncoder
      ensures expressionEncoder == LookupEncoder(grailsApplication, expressionCodecName)
      ensures staticEncoder == LookupEncoder(grailsApplication, staticCodecName)
      ensures outEncoder == LookupEncoder(grailsApplication, outCodecName)
      ensures taglibEncoder == LookupEncoder(grailsApplication, taglibCodecName)
    {
      expressionEncoder := LookupEncoder(grailsApplication, expressionCodecName);
      staticEncoder := LookupEncoder(grailsApplication, staticCodecName);
      outEncoder := LookupEncoder(grailsApplication, outCodecName);
      taglibEncoder := LookupEncoder(grailsApplication, taglibCodecName);
    }

    /**
     * `initializePluginPath`: asks the plugin manager, when there is one,
     * for the page's plugin path (the default path when it has none) and
     * plugin; otherwise changes nothing.
     */
    method InitializePluginPath()
      modifies this`pluginPath, this`pagePlugin
      ensures PluginOrigin(grailsApplication, pageClass).None? ==>
        pluginPath == old(pluginPath) && pagePlugin == old(pagePlugin)
      ensures PluginOrigin(grailsApplication, pageClass).Some? ==>
        pluginPath == Some(PluginOrigin(grailsApplication, pageClass).value.0) &&
        pagePlugin == PluginOrigin(grailsApplication, pageClass).value.1
    {
      if grailsApplication.None? || pageClass.None? {
        return;
      }
      var applicationContext := grailsApplication.value.mainContext;
      if applicationContext.None? || applicationContext.value.pluginManager.None? {
        return;
      }
      var pluginManager := applicationContext.value.pluginManager.value;
      var className := pageClass.value.name;
      var path: Option<string> := if className in pluginManager.pluginPaths then Some(pluginManager.pluginPaths[className]) else None;
      if path.None? {
        path := Some(DEFAULT_PLUGIN_PATH);
      }
      pluginPath := path;
      pagePlugin := if className in pluginManager.plugins then Some(pluginManager.plugins[className]) else None;
    }

    /**
     * `initializeModelFields`: for a page with a class, the set of its
     * declared instance fields that are not compiler-generated (empty unless
     * model-fields mode is on); without a class, nothing changes.
     */
    method InitializeModelFields()
      modifies this`modelFields
      ensures pageClass.None? ==> modelFields == old(modelFields)
      ensures pageClass.Some? ==>
        modelFields == Some(ModelFieldsOf(pageClass.value.declaredFields, modelFieldsMode))
    {
      if pageClass.Some? {
        var fields := pageClass.value.declaredFields;
        var collected: set<Field> := {};
        if modelFieldsMode {
          for i := 0 to |fields|
            invariant collected == set j | 0 <= j < i && IsModelField(fields[j]) :: fields[j]
          {
            if !fields[i].isStatic && !fields[i].isSynthetic {
              collected := collected + {fields[i]};
            }
          }
          assert collected == ModelFieldsOf(fields, true) by {
            forall f | f in ModelFieldsOf(fields, true) ensures f in collected {
              var j :| 0 <= j < |fields| && fields[j] == f;
            }
          }
        }
        modelFields := Some(collected);
      }
    }

    /** `getModelFields`: computes the set on first use. */
    method GetModelFields() returns (r: Option<set<Field>>)
      modifies this`modelFields
      ensures old(modelFields).Some? ==> r == modelFields == old(modelFields)
      ensures old(modelFields).None? && pageClass.None? ==> r == modelFields == None
      ensures old(modelFields).None? && pageClass.Some? ==>
        r == modelFields == Some(ModelFieldsOf(pageClass.value.declaredFields, modelFieldsMode))
    {
      if modelFields.None? {
        InitializeModelFields();
      }
      r := modelFields;
    }

    /**
     * `initialize`: the four encoders looked up by codec name, the plugin
     * origin, the model fields; then the page counts as initialized.
     */
    method Initialize()
      modifies this`expressionEncoder, this`staticEncoder, this`outEncoder, this`taglibEncoder
      modifies this`pluginPath, this`pagePlugin, this`modelFields, this`initialized
      ensures expressionEncoder == LookupEncoder(grailsApplication, expressionCodecName)
      ensures staticEncoder == LookupEncoder(grailsApplication, staticCodecName)
      ensures outEncoder == LookupEncoder(grailsApplication, outCodecName)
      ensures taglibEncoder == LookupEncoder(grailsApplication, taglibCodecName)
      ensures PluginOrigin(grailsApplication, pageClass).None? ==>
        pluginPath == old(pluginPath) && pagePlugin == old(pagePlugin)
      ensures PluginOrigin(grailsApplication, pageClass).Some? ==>
        pluginPath == Some(PluginOrigin(grailsApplication, pageClass).value.0) &&
        pagePlugin == PluginOrigin(grailsApplication, pageClass).value.1
      ensures pageClass.None? ==> modelFields == old(modelFields)
      ensures pageClass.Some? ==>
        modelFields == Some(ModelFieldsOf(pageClass.value.declaredFields, modelFieldsMode))
      ensures initialized
    {
      InitializeEncoders();
      InitializePluginPath();
      InitializeModelFields();
      initialized := true;
    }

    /** `initializeOnDemand`: runs the initializer only while the page is not initialized. */
    method InitializeOnDemand(initializer: Initializer) returns (invoked: bool)
      modifies this`grailsApplication
      modifies this`expressionEncoder, this`staticEncoder, this`outEncoder, this`taglibEncoder
      modifies this`pluginPath, this`pagePlugin, this`modelFields, this`initialized
      ensures invoked == !old(initialized)
      ensures !invoked ==> unchanged(this)
      ensures invoked ==> initialized && grailsApplication == initializer.application
      ensures invoked ==> expressionEncoder == LookupEncoder(initializer.application, expressionCodecName)
      ensures invoked ==> staticEncoder == LookupEncoder(initializer.application, staticCodecName)
      ensures invoked ==> outEncoder == LookupEncoder(initializer.application, outCodecName)
      ensures invoked ==> taglibEncoder == LookupEncoder(initializer.application, taglibCodecName)
      ensures invoked && PluginOrigin(initializer.application, pageClass).None? ==>
        pluginPath == old(pluginPath) && pagePlugin == old(pagePlugin)
      ensures invoked && PluginOrigin(initializer.application, pageClass).Some? ==>
        pluginPath == Some(PluginOrigin(initializer.application, pageClass).value.0) &&
        pagePlugin == PluginOrigin(initializer.application, pageClass).value.1
      ensures invoked && pageClass.None? ==> modelFields == old(modelFields)
      ensures invoked && pageClass.Some? ==>
        modelFields == Some(ModelFieldsOf(pageClass.value.declaredFields, modelFieldsMode))
    {
      invoked := !initialized;
      if invoked {
        SetGrailsApplication(initializer.application);
        Initialize();
      }
    }

    /** `setLastModified`. */
    method SetLastModified(time: long)
      modifies this`lastModified
      ensures lastModified == time
    {
      lastModified := time;
    }

    /** `applyLastModifiedFromResource`. */
    method ApplyLastModifiedFromResource(resource: Option<Resource>)
      modifies this`lastModified
      ensures lastModified == EstablishLastModified(resource)
    {
      lastModified := EstablishLastModified(resource);
    }

    /**
     * `checkIfReloadableResourceHasChanged`: while the cached decision is
     * fresh it is returned and the source is not located; otherwise the
     * source is located exactly once, checked against `lastModified`, and
     * the outcome cached at `now`.
     */
    method CheckIfReloadableResourceHasChanged(resourceCallable: SourceLocator<Resource>, now: long)
      returns (r: Option<Resource>)
      modifies shouldReloadCacheEntry, resourceCallable`runs
      ensures old(shouldReloadCacheEntry.NeedsUpdate(LASTMODIFIED_CHECK_INTERVAL, now)) ==>
        resourceCallable.runs == old(resourceCallable.runs) + 1 &&
        r == CheckResource(resourceCallable.current, lastModified, LASTMODIFIED_CHECK_GRANULARITY) &&
        shouldReloadCacheEntry.value == Some(r) && shouldReloadCacheEntry.createdMillis == now
      ensures !old(shouldReloadCacheEntry.NeedsUpdate(LASTMODIFIED_CHECK_INTERVAL, now)) ==>
        resourceCallable.runs == old(resourceCallable.runs) &&
        r == old(shouldReloadCacheEntry.value).value && unchanged(shouldReloadCacheEntry)
    {
      if shouldReloadCacheEntry.NeedsUpdate(LASTMODIFIED_CHECK_INTERVAL, now) {
        var resource := resourceCallable.Run();
        r := CheckResource(resource, lastModified, LASTMODIFIED_CHECK_GRANULARITY);
        shouldReloadCacheEntry.SetValue(r, now);
      } else {
        r := shouldReloadCacheEntry.value.value;
      }
    }

    /** `shouldReload`: no callback means no reload; otherwise whether the check found a changed source. */
    method ShouldReload(resourceCallable: SourceLocator?<Resource>, now: long) returns (reload: bool)
      modifies shouldReloadCacheEntry, resourceCallable
      ensures resourceCallable == null ==> !reload && unchanged(shouldReloadCacheEntry)
      ensures resourceCallable != null && old(shouldReloadCacheEntry.NeedsUpdate(LASTMODIFIED_CHECK_INTERVAL, now)) ==>
        resourceCallable.runs == old(resourceCallable.runs) + 1 && resourceCallable.current == old(resourceCallable.current) &&
        reload == CheckResource(resourceCallable.current, lastModified, LASTMODIFIED_CHECK_GRANULARITY).Some? &&
        shouldReloadCacheEntry.value == Some(CheckResource(resourceCallable.current, lastModified, LASTMODIFIED_CHECK_GRANULARITY)) &&
        shouldReloadCacheEntry.createdMillis == now
      ensures resourceCallable != null && !old(shouldReloadCacheEntry.NeedsUpdate(LASTMODIFIED_CHECK_INTERVAL, now)) ==>
        unchanged(resourceCallable) && reload == old(shouldReloadCacheEntry.value).value.Some? &&
        unchanged(shouldReloadCacheEntry)
      ensures resourceCallable != null ==>
        shouldReloadCacheEntry.value.Some? && reload == shouldReloadCacheEntry.value.value.Some?
    {
      if resourceCallable == null {
        return false;
      }
      var resource := CheckIfReloadableResourceHasChanged(resourceCallable, now);
      reload := resource.Some?;
    }
  }
}
