/** The in-memory image cache and the versioned localStorage entry for menu images. The
    cache keeps two maps: images that finished loading, and loads in flight. A browser image
    load is an external event here: `OnLoad` and `OnError` are the image element's callbacks. */
module ImageCache {
  import opened Types

  /** What `preloadImage` hands back: an already-resolved promise, or the promise of the load
      in flight (named by its ticket). */
  datatype Preload = Resolved | Pending(ticket: nat)

  /** The srcs a batch preload starts loads for, in order: those not already known (cached or
      in flight), each at its first occurrence only. */
  function NewLoads(sources: seq<string>, known: set<string>): seq<string> {
    if sources == [] then []
    else
      var rest, s := sources[..|sources| - 1], sources[|sources| - 1];
      NewLoads(rest, known) + (if s in known || s in rest then [] else [s])
  }

  /** A batch preload starts a load for exactly the srcs of the list that were not known, and
      for none of them twice. */
  lemma {:induction false} NewLoadsSpec(sources: seq<string>, known: set<string>)
    ensures forall x :: x in NewLoads(sources, known) <==> x in sources && x !in known
    ensures var r := NewLoads(sources, known); forall a, b :: 0 <= a < b < |r| ==> r[a] != r[b]
    ensures |NewLoads(sources, known)| <= |sources|
  {
    if sources != [] {
      var rest, s := sources[..|sources| - 1], sources[|sources| - 1];
      NewLoadsSpec(rest, known);
      var r, before := NewLoads(sources, known), NewLoads(rest, known);
      forall x ensures x in r <==> x in sources && x !in known {
        assert sources == rest + [s];
      }
      forall a, b | 0 <= a < b < |r| ensures r[a] != r[b] {
        if b >= |before| {
          assert r[b] == s && s !in rest && r[a] == before[a];
        }
      }
    }
  }

  /** One more src: it starts a load unless it is known or came earlier in the list. */
  lemma NewLoadsSnoc(sources: seq<string>, i: nat, known: set<string>)
    requires i < |sources|
    ensures NewLoads(sources[..i + 1], known) ==
      NewLoads(sources[..i], known) + (if sources[i] in known || sources[i] in sources[..i] then [] else [sources[i]])
  {
    assert sources[..i + 1][..i] == sources[..i];
  }

  /** Where `preloadImages` stands after its first `i` srcs, on the values of the cache's
      fields: the in-flight map gained the srcs seen that were not cached and kept its old
      entries, a load was started for each new src seen, and each result says whether its src
      was cached or names the load in flight for it. */
  ghost predicate Progress(sources: seq<string>, i: nat, cached: set<string>, loading0: map<string, nat>,
                           started0: seq<string>, next0: nat,
                           loading: map<string, nat>, started: seq<string>, next: nat, ps: seq<Preload>)
  {
    && i <= |sources| && |ps| == i
    && loading.Keys == loading0.Keys + (set h | 0 <= h < i && sources[h] !in cached :: sources[h])
    && (forall s :: s in loading0 ==> s in loading && loading[s] == loading0[s])
    && started == started0 + NewLoads(sources[..i], cached + loading0.Keys)
    && next == next0 + |NewLoads(sources[..i], cached + loading0.Keys)|
    && (forall h :: 0 <= h < i ==> (ps[h] == Resolved <==> sources[h] in cached))
    && (forall h :: 0 <= h < i && sources[h] !in cached ==> ps[h] == Pending(loading[sources[h]]))
  }

  /** One more `preloadImage` call, with the effect its contract gives, keeps `Progress`. */
  lemma ProgressStep(sources: seq<string>, i: nat, cached: set<string>, loading0: map<string, nat>,
                     started0: seq<string>, next0: nat,
                     loading: map<string, nat>, started: seq<string>, next: nat, ps: seq<Preload>,
                     loading': map<string, nat>, started': seq<string>, next': nat, p: Preload)
    requires i < |sources|
    requires Progress(sources, i, cached, loading0, started0, next0, loading, started, next, ps)
    requires sources[i] in cached ==>
      p == Resolved && loading' == loading && next' == next && started' == started
    requires sources[i] !in cached && sources[i] in loading ==>
      p == Pending(loading[sources[i]]) && loading' == loading && next' == next && started' == started
    requires sources[i] !in cached && sources[i] !in loading ==>
      && p == Pending(next) && loading' == loading[sources[i] := next]
      && next' == next + 1 && started' == started + [sources[i]]
    ensures Progress(sources, i + 1, cached, loading0, started0, next0, loading', started', next', ps + [p])
  {
    var known := cached + loading0.Keys;
    StepSeen(sources, i, cached, loading0, loading);
    StepStarted(sources, i, known, started0, next0, started, next, started', next');
    StepLoading(sources, i, cached, loading0, loading, next, loading');
    StepResults(sources, i, cached, loading, loading', ps, p);
  }

  /** One more src starts a load exactly when it was not known and did not come earlier. */
  lemma StepStarted(sources: seq<string>, i: nat, known: set<string>, started0: seq<string>, next0: nat,
                    started: seq<string>, next: nat, started': seq<string>, next': nat)
    requires i < |sources|
    requires started == started0 + NewLoads(sources[..i], known)
    requires next == next0 + |NewLoads(sources[..i], known)|
    requires sources[i] in known || sources[i] in sources[..i] ==> started' == started && next' == next
    requires !(sources[i] in known || sources[i] in sources[..i]) ==>
      started' == started + [sources[i]] && next' == next + 1
    ensures started' == started0 + NewLoads(sources[..i + 1], known)
    ensures next' == next0 + |NewLoads(sources[..i + 1], known)|
  {
    NewLoadsSnoc(sources, i, known);
  }

  /** One more src puts it in flight unless it was cached, and keeps the loads in flight. */
  lemma StepLoading(sources: seq<string>, i: nat, cached: set<string>, loading0: map<string, nat>,
                    loading: map<string, nat>, next: nat, loading': map<string, nat>)
    requires i < |sources|
    requires loading.Keys == loading0.Keys + (set h | 0 <= h < i && sources[h] !in cached :: sources[h])
    requires forall s :: s in loading0 ==> s in loading && loading[s] == loading0[s]
    requires sources[i] in cached || sources[i] in loading ==> loading' == loading
    requires sources[i] !in cached && sources[i] !in loading ==> loading' == loading[sources[i] := next]
    ensures loading'.Keys == loading0.Keys + (set h | 0 <= h < i + 1 && sources[h] !in cached :: sources[h])
    ensures forall s :: s in loading ==> s in loading' && loading'[s] == loading[s]
    ensures forall s :: s in loading0 ==> s in loading' && loading'[s] == loading0[s]
  {
    assert (set h | 0 <= h < i + 1 && sources[h] !in cached :: sources[h])
      == (set h | 0 <= h < i && sources[h] !in cached :: sources[h])
         + (if sources[i] !in cached then {sources[i]} else {});
  }

  /** One more result: it says whether its src was cached, and names the src's load in flight
      otherwise; the earlier results keep naming theirs. */
  lemma StepResults(sources: seq<string>, i: nat, cached: set<string>,
                    loading: map<string, nat>, loading': map<string, nat>, ps: seq<Preload>, p: Preload)
    requires i < |sources| && |ps| == i
    requires forall h :: 0 <= h < i ==> (ps[h] == Resolved <==> sources[h] in cached)
    requires forall h :: 0 <= h < i && sources[h] !in cached ==>
      sources[h] in loading && ps[h] == Pending(loading[sources[h]])
    requires forall s :: s in loading ==> s in loading' && loading'[s] == loading[s]
    requires sources[i] in cached ==> p == Resolved
    requires sources[i] !in cached ==> sources[i] in loading' && p == Pending(loading'[sources[i]])
    ensures forall h :: 0 <= h < i + 1 ==> ((ps + [p])[h] == Resolved <==> sources[h] in cached)
    ensures forall h :: 0 <= h < i + 1 && sources[h] !in cached ==>
      sources[h] in loading' && (ps + [p])[h] == Pending(loading'[sources[h]])
  {
  }

  /** A src is cached or in flight exactly when it was known or came earlier in the list. */
  lemma StepSeen(sources: seq<string>, i: nat, cached: set<string>, loading0: map<string, nat>,
                 loading: map<string, nat>)
    requires i < |sources|
    requires loading.Keys == loading0.Keys + (set h | 0 <= h < i && sources[h] !in cached :: sources[h])
    ensures sources[i] in cached || sources[i] in loading <==>
      sources[i] in cached + loading0.Keys || sources[i] in sources[..i]
  {
    var src := sources[i];
    if src in sources[..i] {
      var h :| 0 <= h < i && sources[..i][h] == src;
      assert sources[h] == src;
    }
    if src in loading && src !in loading0 {
      var h :| 0 <= h < i && sources[h] !in cached && sources[h] == src;
      assert sources[..i][h] == src;
    }
  }

  /** `Progress` over the whole list. */
  lemma ProgressDone(sources: seq<string>, cached: set<string>, loading0: map<string, nat>,
                     started0: seq<string>, next0: nat,
                     loading: map<string, nat>, started: seq<string>, next: nat, ps: seq<Preload>)
    requires Progress(sources, |sources|, cached, loading0, started0, next0, loading, started, next, ps)
    ensures started == started0 + NewLoads(sources, cached + loading0.Keys)
    ensures |started| - |started0| == next - next0 <= |sources|
    ensures forall i :: 0 <= i < |sources| ==> sources[i] in cached || sources[i] in loading
  {
    assert sources[..|sources|] == sources;
    NewLoadsSpec(sources, cached + loading0.Keys);
    forall i | 0 <= i < |sources| && sources[i] !in cached ensures sources[i] in loading {
      assert sources[i] in (set h | 0 <= h < |sources| && sources[h] !in cached :: sources[h]);
    }
  }

  class ImageCache {
    /** `imageCache`: src to the loaded image, named by the ticket of the load that fetched it. */
    var cached: map<string, nat>
    /** `loadingPromises`: src to the ticket of the load in flight. */
    var loading: map<string, nat>
    /** The ticket the next load gets. */
    var nextTicket: nat
    /** The srcs loads were started for, in order (`img.src = src`). */
    var started: seq<string>

    /** A src is never both cached and loading, and every ticket in use was issued. */
    predicate Valid()
      reads this
    {
      && (forall s :: s in cached ==> s !in loading)
      && (forall s :: s in loading ==> loading[s] < nextTicket)
    }

    constructor()
      ensures Valid()
      ensures cached == map[] && loading == map[] && nextTicket == 0 && started == []
    {
      cached := map[];
      loading := map[];
      nextTicket := 0;
      started := [];
    }

    /** `preloadImage(src)`: resolved at once for a cached src; the same pending load for a src
        already loading; otherwise a new load is started and recorded as in flight. */
    method PreloadImage(src: string) returns (p: Preload)
      requires Valid()
      modifies this
      ensures Valid()
      ensures cached == old(cached)
      ensures src in old(cached) ==>
        && p == Resolved && loading == old(loading)
        && nextTicket == old(nextTicket) && started == old(started)
      ensures src !in old(cached) && src in old(loading) ==>
        && p == Pending(old(loading)[src])
        && loading == old(loading) && nextTicket == old(nextTicket) && started == old(started)
      ensures src !in old(cached) && src !in old(loading) ==>
        && p == Pending(old(nextTicket))
        && loading == old(loading)[src := old(nextTicket)]
        && nextTicket == old(nextTicket) + 1 && started == old(started) + [src]
    {
      if src in cached {
        return Resolved;
      }
      if src in loading {
        return Pending(loading[src]);
      }
      p := Pending(nextTicket);
      loading := loading[src := nextTicket];
      nextTicket := nextTicket + 1;
      started := started + [src];
    }

    /** The image for `src` loaded: it is cached and no longer in flight. */
    method OnLoad(src: string)
      requires Valid() && src in loading
      modifies this
      ensures Valid()
      ensures cached == old(cached)[src := old(loading)[src]]
      ensures loading == old(loading) - {src}
      ensures nextTicket == old(nextTicket) && started == old(started)
    {
      cached := cached[src := loading[src]];
      loading := loading - {src};
    }

    /** The image for `src` failed: it is no longer in flight and is not cached, so a later
        request starts a new load. */
    method OnError(src: string)
      requires Valid() && src in loading
      modifies this
      ensures Valid()
      ensures cached == old(cached)
      ensures loading == old(loading) - {src}
      ensures src !in cached && src !in loading
      ensures nextTicket == old(nextTicket) && started == old(started)
    {
      loading := loading - {src};
    }

    /** Every src of the list is either loaded or failed: the promise `preloadImages` awaits
        has settled. */
    predicate Settled(sources: seq<string>)
      reads this
    {
      forall i :: 0 <= i < |sources| ==> sources[i] !in loading
    }

    /** `preloadImages(sources)`: every src is requested at once, in order; afterwards each is
        cached or in flight, nothing has loaded yet, and a load was started only for the srcs
        neither cached nor already loading, once each. */
    method PreloadImages(sources: seq<string>) returns (ps: seq<Preload>)
      requires Valid()
      modifies this
      ensures Valid()
      ensures |ps| == |sources|
      ensures cached == old(cached)
      ensures forall i :: 0 <= i < |sources| ==> sources[i] in cached || sources[i] in loading
      ensures loading.Keys == old(loading).Keys + (set i | 0 <= i < |sources| && sources[i] !in old(cached) :: sources[i])
      ensures forall s :: s in old(loading) ==> s in loading && loading[s] == old(loading)[s]
      ensures |started| - |old(started)| == nextTicket - old(nextTicket)
      ensures nextTicket - old(nextTicket) <= |sources|
      ensures started == old(started) + NewLoads(sources, old(cached).Keys + old(loading).Keys)
      ensures forall i :: 0 <= i < |sources| ==> (ps[i] == Resolved <==> sources[i] in old(cached))
      ensures forall i :: 0 <= i < |sources| && sources[i] !in old(cached) ==> ps[i] == Pending(loading[sources[i]])
    {
      ghost var cached0, loading0, started0, next0 := cached, loading, started, nextTicket;
      ps := [];
      var i := 0;
      assert sources[..0] == [];
      while i < |sources|
        invariant 0 <= i <= |sources|
        invariant Valid() && cached == cached0
        invariant Progress(sources, i, cached0.Keys, loading0, started0, next0, loading, started, nextTicket, ps)
      {
        ghost var loading1, started1, next1, ps1 := loading, started, nextTicket, ps;
        var p := PreloadImage(sources[i]);
        ps := ps + [p];
        ProgressStep(sources, i, cached0.Keys, loading0, started0, next0,
                     loading1, started1, next1, ps1, loading, started, nextTicket, p);
        i := i + 1;
      }
      ProgressDone(sources, cached0.Keys, loading0, started0, next0, loading, started, nextTicket, ps);
    }

    /** `isImageCached(src)`. */
    function IsImageCached(src: string): (r: bool)
      reads this
      ensures r <==> src in cached
    {
      src in cached
    }

    /** `getCachedImage(src)`: the loaded image, if any. */
    function GetCachedImage(src: string): (r: Option<nat>)
      reads this
      ensures r.Some? <==> src in cached
      ensures r.Some? ==> r.value == cached[src]
    {
      if src in cached then Some(cached[src]) else None
    }

    /** `clearImageCache()`: the loaded images are forgotten; loads in flight go on. */
    method ClearImageCache()
      requires Valid()
      modifies this
      ensures Valid()
      ensures cached == map[] && loading == old(loading)
      ensures nextTicket == old(nextTicket) && started == old(started)
    {
      cached := map[];
    }

    /** `getCacheSize()`. */
    function GetCacheSize(): (n: nat)
      reads this
      ensures n == |cached.Keys|
      ensures n == 0 <==> cached == map[]
    {
      |cached.Keys|
    }
  }

  /** A localStorage value, as far as the image cache reads it: the version text, the JSON
      text of an object of src-to-image strings, or any other text. */
  datatype Stored = Text(text: string) | Images(images: map<string, string>)

  const MenuImagesKey: string := "menu_images_cache"
  const CacheVersionKey: string := "menu_images_version"
  const CurrentVersion: string := "1.0.0"

  /** The storage after `initLocalStorageCache()`: unless the stored version is the current
      one, the image entry is removed and the current version stored. */
  function InitCache(entries: map<string, Stored>): (r: map<string, Stored>)
    ensures CacheVersionKey in r && r[CacheVersionKey] == Text(CurrentVersion)
    ensures CacheVersionKey in entries && entries[CacheVersionKey] == Text(CurrentVersion) ==> r == entries
    ensures !(CacheVersionKey in entries && entries[CacheVersionKey] == Text(CurrentVersion)) ==>
      MenuImagesKey !in r && r == (entries - {MenuImagesKey})[CacheVersionKey := Text(CurrentVersion)]
  {
    if CacheVersionKey in entries && entries[CacheVersionKey] == Text(CurrentVersion) then entries
    else (entries - {MenuImagesKey})[CacheVersionKey := Text(CurrentVersion)]
  }

  /** Initialising twice is initialising once. */
  lemma InitCacheIdempotent(entries: map<string, Stored>)
    ensures InitCache(InitCache(entries)) == InitCache(entries)
  {
  }

  /** `getImageFromLocalStorage(src)`: the stored image for the src when the entry is an
      object holding a non-empty string for it; null when the entry is missing, holds no such
      string, or is not an object (a parse error is caught). */
  function ImageFromStorage(entries: map<string, Stored>, src: string): (r: Option<string>)
    ensures MenuImagesKey !in entries ==> r == None
    ensures r.Some? ==>
      && r.value != [] && MenuImagesKey in entries && entries[MenuImagesKey].Images?
      && src in entries[MenuImagesKey].images && entries[MenuImagesKey].images[src] == r.value
    ensures (&& MenuImagesKey in entries && entries[MenuImagesKey].Images?
             && src in entries[MenuImagesKey].images && entries[MenuImagesKey].images[src] != []) ==> r.Some?
  {
    if MenuImagesKey !in entries then None
    else match entries[MenuImagesKey]
      case Text(_) => None
      case Images(images) => if src in images && images[src] != [] then Some(images[src]) else None
  }

  /** After initialisation with an outdated version no stored image is found. */
  lemma OutdatedCacheEmpty(entries: map<string, Stored>, src: string)
    requires !(CacheVersionKey in entries && entries[CacheVersionKey] == Text(CurrentVersion))
    ensures ImageFromStorage(InitCache(entries), src) == None
  {
  }

  /** The browser's localStorage, as the image cache uses it. */
  class LocalStorage {
    var entries: map<string, Stored>

    constructor(initial: map<string, Stored>)
      ensures entries == initial
    {
      entries := initial;
    }

    /** `initLocalStorageCache()`. */
    method InitLocalStorageCache()
      modifies this
      ensures entries == InitCache(old(entries))
    {
      var version := if CacheVersionKey in entries then Some(entries[CacheVersionKey]) else None;
      if version != Some(Text(CurrentVersion)) {
        entries := entries - {MenuImagesKey};
        entries := entries[CacheVersionKey := Text(CurrentVersion)];
      }
    }

    /** `getImageFromLocalStorage(src)`. */
    function GetImageFromLocalStorage(src: string): Option<string>
      reads this
    {
      ImageFromStorage(entries, src)
    }
  }
}
