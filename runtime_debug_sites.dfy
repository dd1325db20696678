/** The assertion-site and instrumentation-site registries
    (src/runtime/runtime-debug.cc). Both are append-only vectors whose public
    indexes are offset by `1 << 16`, so that the bytecode emitter always
    encodes them in four bytes. The registries are modelled after
    `RecordReplayInitInstrumentationState` has created them; their mutexes
    are left out (the model is sequential). */
module SiteRegistries {
  import opened Wrappers

  /** `BytecodeSiteOffset`. */
  const BytecodeSiteOffset: int := 0x1_0000

  /** The largest C++ `int`. */
  const MaxInt32: int := 0x7FFF_FFFF

  /** An `AssertionSite`; its location is filled in lazily and starts empty. */
  datatype AssertionSite = AssertionSite(desc: string, sourcePosition: int, location: string)

  /** An `InstrumentationSite`: its kind, source position and its index
      within its function. */
  datatype InstrumentationSite = InstrumentationSite(kind: string, sourcePosition: int, functionIndex: int)

  /** The site an offset index names: `(size_t)(index - offset) < size`, so a
      negative difference also fails the CHECK. */
  function SiteAt<T>(sites: seq<T>, index: int): (r: Result<T>)
    ensures r.Ok? <==> BytecodeSiteOffset <= index < BytecodeSiteOffset + |sites|
    ensures r.Ok? ==> r.value == sites[index - BytecodeSiteOffset]
  {
    var i := index - BytecodeSiteOffset;
    if 0 <= i < |sites| then Ok(sites[i]) else Crash("CHECK failed: (size_t)index < size")
  }

  /** The index handed out for a new site names that site, and appending
      leaves every earlier index naming what it named before. */
  lemma SiteAtAfterAppend<T>(sites: seq<T>, site: T, index: int)
    ensures SiteAt(sites + [site], |sites| + BytecodeSiteOffset) == Ok(site)
    ensures SiteAt(sites, index).Ok? ==> SiteAt(sites + [site], index) == SiteAt(sites, index)
    ensures index != |sites| + BytecodeSiteOffset ==>
              SiteAt(sites + [site], index).Ok? == SiteAt(sites, index).Ok?
  {
  }

  /** No index below the offset ever names a site. */
  lemma NoSiteBelowOffset<T>(sites: seq<T>, index: int)
    requires index < BytecodeSiteOffset
    ensures SiteAt(sites, index).Crash?
  {
  }

  /** `gAssertionSites`. */
  class AssertionSites {
    var sites: seq<AssertionSite>

    constructor()
      ensures sites == []
    {
      sites := [];
    }

    /** `RegisterAssertValueSite`: appends the site and returns its offset
        index. The `int` arithmetic must not overflow. */
    method Register(desc: string, sourcePosition: int) returns (index: int)
      requires |sites| + BytecodeSiteOffset <= MaxInt32
      modifies this
      ensures sites == old(sites) + [AssertionSite(desc, sourcePosition, "")]
      ensures index == |old(sites)| + BytecodeSiteOffset
    {
      index := |sites| + BytecodeSiteOffset;
      sites := sites + [AssertionSite(desc, sourcePosition, "")];
    }

    /** `GetAssertValueSite`. */
    method Get(index: int) returns (r: Result<AssertionSite>)
      ensures r.Ok? <==> BytecodeSiteOffset <= index < BytecodeSiteOffset + |sites|
      ensures r.Ok? ==> r.value == sites[index - BytecodeSiteOffset]
    {
      r := SiteAt(sites, index);
    }
  }

  /** `gInstrumentationSites` and its main-thread cache
      `gMainThreadInstrumentationSites`, which is always a prefix of it. */
  class InstrumentationSites {
    var sites: seq<InstrumentationSite>
    var mainThread: seq<InstrumentationSite>

    predicate Valid()
      reads this
    {
      mainThread <= sites
    }

    constructor()
      ensures Valid() && sites == [] && mainThread == []
    {
      sites := [];
      mainThread := [];
    }

    /** `RegisterInstrumentationSite`: appends to the global list only; the
        cache catches up later. */
    method Register(kind: string, sourcePosition: int, functionIndex: int) returns (index: int)
      requires Valid()
      requires |sites| + BytecodeSiteOffset <= MaxInt32
      modifies this
      ensures Valid()
      ensures sites == old(sites) + [InstrumentationSite(kind, sourcePosition, functionIndex)]
      ensures mainThread == old(mainThread)
      ensures index == |old(sites)| + BytecodeSiteOffset
    {
      index := |sites| + BytecodeSiteOffset;
      sites := sites + [InstrumentationSite(kind, sourcePosition, functionIndex)];
    }

    /** `CopyMainThreadInstrumentationSites`: appends the missing tail of the
        global list to the cache, one site at a time. */
    method CopyMainThread()
      requires Valid()
      modifies this
      ensures Valid()
      ensures sites == old(sites) && mainThread == sites
    {
      var i := |mainThread|;
      while i < |sites|
        invariant |mainThread| == i <= |sites|
        invariant sites == old(sites) && mainThread == sites[..i]
      {
        mainThread := mainThread + [sites[i]];
        i := i + 1;
      }
      assert sites[..i] == sites;
    }

    /** `GetInstrumentationSite`: reads through the cache, refilling it once
        when the index is past its end; an index that is still out of range
        fails the CHECK. */
    method Get(index: int) returns (r: Result<InstrumentationSite>)
      requires Valid()
      modifies this
      ensures Valid() && sites == old(sites)
      ensures r.Ok? <==> BytecodeSiteOffset <= index < BytecodeSiteOffset + |sites|
      ensures r.Ok? ==> r.value == sites[index - BytecodeSiteOffset]
      ensures mainThread == if 0 <= index - BytecodeSiteOffset < |old(mainThread)|
                            then old(mainThread) else sites
    {
      var i := index - BytecodeSiteOffset;
      if !(0 <= i < |mainThread|) {
        CopyMainThread();
        if !(0 <= i < |mainThread|) {
          return Crash("CHECK failed: (size_t)index < gMainThreadInstrumentationSites->size()");
        }
      }
      r := Ok(mainThread[i]);
    }

    /** `InstrumentationSiteKind`. */
    method Kind(index: int) returns (r: Result<string>)
      requires Valid()
      modifies this
      ensures Valid() && sites == old(sites)
      ensures r.Ok? <==> SiteAt(sites, index).Ok?
      ensures r.Ok? ==> r.value == SiteAt(sites, index).value.kind
      ensures mainThread == if 0 <= index - BytecodeSiteOffset < |old(mainThread)|
                            then old(mainThread) else sites
    {
      var site := Get(index);
      r := if site.Ok? then Ok(site.value.kind) else Crash(site.reason);
    }

    /** `InstrumentationSiteSourcePosition`. */
    method SourcePosition(index: int) returns (r: Result<int>)
      requires Valid()
      modifies this
      ensures Valid() && sites == old(sites)
      ensures r.Ok? <==> SiteAt(sites, index).Ok?
      ensures r.Ok? ==> r.value == SiteAt(sites, index).value.sourcePosition
      ensures mainThread == if 0 <= index - BytecodeSiteOffset < |old(mainThread)|
                            then old(mainThread) else sites
    {
      var site := Get(index);
      r := if site.Ok? then Ok(site.value.sourcePosition) else Crash(site.reason);
    }

    /** `InstrumentationSiteFunctionIndex`. */
    method FunctionIndex(index: int) returns (r: Result<int>)
      requires Valid()
      modifies this
      ensures Valid() && sites == old(sites)
      ensures r.Ok? <==> SiteAt(sites, index).Ok?
      ensures r.Ok? ==> r.value == SiteAt(sites, index).value.functionIndex
      ensures mainThread == if 0 <= index - BytecodeSiteOffset < |old(mainThread)|
                            then old(mainThread) else sites
    {
      var site := Get(index);
      r := if site.Ok? then Ok(site.value.functionIndex) else Crash(site.reason);
    }
  }

  /** Reading through any prefix cache gives what the global list holds. */
  lemma CachedSiteIsGlobalSite(mainThread: seq<InstrumentationSite>, sites: seq<InstrumentationSite>, index: int)
    requires mainThread <= sites
    requires SiteAt(mainThread, index).Ok?
    ensures SiteAt(sites, index) == SiteAt(mainThread, index)
  {
    var i := index - BytecodeSiteOffset;
    assert mainThread[i] == sites[..|mainThread|][i];
  }
}
