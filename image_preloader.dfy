/** The two image-preloading hooks. `useImagePreloader` preloads the images of a dish list that
    were not preloaded before; `useMenuImagePreloader` preloads the whole menu once, six
    images at a time, each batch only after the previous one settled. The hooks' refs become
    the fields of a class; the image cache they feed is `ImageCache.ImageCache`. */
module ImagePreloader {
  import opened Types
  import opened Strings
  import AssetUrl
  import ImageCache

  const BatchSize: nat := 6

  /** The resolved image url of every dish, in order. */
  function ImageUrls(dishes: seq<Dish>, baseEnv: string): (urls: seq<string>)
    ensures |urls| == |dishes|
    ensures forall i :: 0 <= i < |dishes| ==> urls[i] == AssetUrl.AssetUrl(dishes[i].image, baseEnv)
  {
    seq(|dishes|, i requires 0 <= i < |dishes| => AssetUrl.AssetUrl(dishes[i].image, baseEnv))
  }

  /** The urls not yet preloaded, in order. */
  function NotPreloaded(urls: seq<string>, preloaded: set<string>): (r: seq<string>)
    ensures |r| <= |urls|
    ensures forall u {:trigger u in r} :: u in r <==> u in urls && u !in preloaded
  {
    if urls == [] then []
    else (if urls[0] in preloaded then [] else [urls[0]]) + NotPreloaded(urls[1..], preloaded)
  }

  /** The urls left keep their order: the urls not preloaded of a joined list are those of
      each part. */
  lemma {:induction false} NotPreloadedAppend(a: seq<string>, b: seq<string>, preloaded: set<string>)
    ensures NotPreloaded(a + b, preloaded) == NotPreloaded(a, preloaded) + NotPreloaded(b, preloaded)
  {
    if a == [] {
      assert a + b == b;
    } else {
      var head := if a[0] in preloaded then [] else [a[0]];
      assert (a + b)[0] == a[0] && (a + b)[1..] == a[1..] + b;
      NotPreloadedAppend(a[1..], b, preloaded);
      calc {
        NotPreloaded(a + b, preloaded);
        head + NotPreloaded(a[1..] + b, preloaded);
        head + (NotPreloaded(a[1..], preloaded) + NotPreloaded(b, preloaded));
        (head + NotPreloaded(a[1..], preloaded)) + NotPreloaded(b, preloaded);
      }
    }
  }

  /** A single url is kept exactly when it was not preloaded. */
  lemma NotPreloadedSingle(u: string, preloaded: set<string>)
    ensures NotPreloaded([u], preloaded) == if u in preloaded then [] else [u]
  {
    assert [u][1..] == [];
  }

  /** Once every url of a list is preloaded, the list asks for nothing. */
  lemma NothingLeft(urls: seq<string>, preloaded: set<string>)
    requires forall i :: 0 <= i < |urls| ==> urls[i] in preloaded
    ensures NotPreloaded(urls, preloaded) == []
  {
  }

  /** `images.slice(start, start + 6)`. */
  function Batch(images: seq<string>, start: nat): (b: seq<string>)
    ensures start >= |images| ==> b == []
    ensures start + BatchSize <= |images| ==> b == images[start..start + BatchSize]
    ensures start < |images| < start + BatchSize ==> b == images[start..]
  {
    if start >= |images| then []
    else if start + BatchSize <= |images| then images[start..start + BatchSize]
    else images[start..]
  }

  /** `loadBatch(startIndex)` unrolled: the batches loaded from `start` on, in order. */
  function BatchesFrom(images: seq<string>, start: nat): seq<seq<string>>
    decreases |images| - start
  {
    if start >= |images| then [] else [Batch(images, start)] + BatchesFrom(images, start + BatchSize)
  }

  function Flatten(bs: seq<seq<string>>): seq<string> {
    if bs == [] then [] else bs[0] + Flatten(bs[1..])
  }

  /** The batches, laid end to end, are the images from `start` on: every image is loaded,
      in order, exactly once. */
  lemma {:induction false} BatchesCover(images: seq<string>, start: nat)
    requires start <= |images|
    ensures Flatten(BatchesFrom(images, start)) == images[start..]
    decreases |images| - start
  {
    if start < |images| {
      var bs := BatchesFrom(images, start);
      assert bs[1..] == BatchesFrom(images, start + BatchSize);
      if start + BatchSize <= |images| {
        BatchesCover(images, start + BatchSize);
        assert images[start..start + BatchSize] + images[start + BatchSize..] == images[start..];
      } else {
        assert BatchesFrom(images, start + BatchSize) == [];
      }
    }
  }

  /** Every batch holds one to six images, and all but the last exactly six. */
  lemma {:induction false} BatchSizes(images: seq<string>, start: nat)
    ensures forall k :: 0 <= k < |BatchesFrom(images, start)| ==> 0 < |BatchesFrom(images, start)[k]| <= BatchSize
    ensures forall k :: 0 <= k < |BatchesFrom(images, start)| - 1 ==> |BatchesFrom(images, start)[k]| == BatchSize
    decreases |images| - start
  {
    if start < |images| {
      var bs := BatchesFrom(images, start);
      BatchSizes(images, start + BatchSize);
      assert bs[1..] == BatchesFrom(images, start + BatchSize);
      if start + BatchSize > |images| {
        assert BatchesFrom(images, start + BatchSize) == [];
      }
      forall k | 0 <= k < |bs|
        ensures 0 < |bs[k]| <= BatchSize
        ensures k < |bs| - 1 ==> |bs[k]| == BatchSize
      {
        if k > 0 {
          assert bs[k] == bs[1..][k - 1];
        }
      }
    }
  }

  /** There are as many batches as the image count divided by six, rounded up. */
  lemma {:induction false} BatchCount(images: seq<string>, start: nat)
    requires start <= |images|
    ensures |BatchesFrom(images, start)| == (|images| - start + BatchSize - 1) / BatchSize
    decreases |images| - start
  {
    if start < |images| {
      if start + BatchSize <= |images| {
        BatchCount(images, start + BatchSize);
      } else {
        assert BatchesFrom(images, start + BatchSize) == [];
      }
    }
  }

  /** `useImagePreloader`: the set of urls already preloaded, and the batches requested whose
      preloading has not settled yet. */
  class ImagePreloader {
    var preloaded: set<string>
    var pending: seq<seq<string>>

    constructor()
      ensures preloaded == {} && pending == []
    {
      preloaded := {};
      pending := [];
    }

    /** The effect, run for a dish list: the dishes' image urls not yet preloaded are handed to
        the cache at once, and remembered as pending; nothing is asked for when there are none. */
    method Request(dishes: seq<Dish>, baseEnv: string, cache: ImageCache.ImageCache) returns (toLoad: seq<string>)
      requires cache.Valid()
      modifies this, cache
      ensures cache.Valid()
      ensures toLoad == NotPreloaded(ImageUrls(dishes, baseEnv), preloaded)
      ensures forall i :: 0 <= i < |toLoad| ==> toLoad[i] !in preloaded
      ensures forall i :: 0 <= i < |dishes| && AssetUrl.AssetUrl(dishes[i].image, baseEnv) !in preloaded ==>
        AssetUrl.AssetUrl(dishes[i].image, baseEnv) in toLoad
      ensures preloaded == old(preloaded)
      ensures pending == old(pending) + (if toLoad == [] then [] else [toLoad])
      ensures cache.cached == old(cache.cached)
      ensures forall i :: 0 <= i < |toLoad| ==> toLoad[i] in cache.cached || toLoad[i] in cache.loading
      ensures toLoad == [] ==> unchanged(cache)
    {
      var urls := ImageUrls(dishes, baseEnv);
      toLoad := NotPreloaded(urls, preloaded);
      forall i | 0 <= i < |dishes| && AssetUrl.AssetUrl(dishes[i].image, baseEnv) !in preloaded
        ensures AssetUrl.AssetUrl(dishes[i].image, baseEnv) in toLoad
      {
        assert urls[i] == AssetUrl.AssetUrl(dishes[i].image, baseEnv) && urls[i] in urls;
      }
      forall i | 0 <= i < |toLoad| ensures toLoad[i] !in preloaded {
        assert toLoad[i] in toLoad;
      }
      if |toLoad| > 0 {
        var _ := cache.PreloadImages(toLoad);
        pending := pending + [toLoad];
      }
    }

    /** The `then` of a pending request: once every url of it is loaded or failed, all of them
        count as preloaded. */
    method Complete(k: nat, cache: ImageCache.ImageCache)
      requires k < |pending| && cache.Settled(pending[k])
      modifies this
      ensures preloaded == old(preloaded) + (set i | 0 <= i < |old(pending)[k]| :: old(pending)[k][i])
      ensures pending == old(pending)[..k] + old(pending)[k + 1..]
    {
      preloaded := preloaded + (set i | 0 <= i < |pending[k]| :: pending[k][i]);
      pending := pending[..k] + pending[k + 1..];
    }
  }

  /** `useMenuImagePreloader`: the one-shot flag, the image list it works through, the start
      index of the batch in flight or next, and the batches handed to the cache so far. */
  class MenuImagePreloader {
    var hasPreloaded: bool
    var images: seq<string>
    var cursor: nat
    var waiting: bool
    var fired: seq<seq<string>>

    /** While a batch is in flight it is the batch at the cursor and the last one handed over,
        and the batches handed over followed by the ones after it are all the batches; once
        nothing is in flight every batch has been handed over. */
    predicate Valid()
      reads this
    {
      && (waiting ==>
            && cursor < |images| && fired != [] && fired[|fired| - 1] == Batch(images, cursor)
            && fired + BatchesFrom(images, cursor + BatchSize) == BatchesFrom(images, 0))
      && (!waiting ==> fired == BatchesFrom(images, 0))
      && (!hasPreloaded ==> images == [] && fired == [] && !waiting)
    }

    constructor()
      ensures Valid()
      ensures !hasPreloaded && images == [] && !waiting && fired == []
    {
      hasPreloaded := false;
      images := [];
      cursor := 0;
      waiting := false;
      fired := [];
    }

    /** `loadBatch(cursor)`: the batch at the cursor goes to the cache, unless it is empty. */
    method LoadBatch(cache: ImageCache.ImageCache)
      requires cache.Valid()
      requires fired + BatchesFrom(images, cursor) == BatchesFrom(images, 0)
      requires hasPreloaded
      modifies this, cache
      ensures Valid() && cache.Valid()
      ensures hasPreloaded && images == old(images) && cursor == old(cursor)
      ensures waiting <==> cursor < |images|
      ensures cursor >= |images| ==> fired == old(fired) && unchanged(cache)
      ensures cursor < |images| ==> fired == old(fired) + [Batch(images, cursor)]
      ensures cache.cached == old(cache.cached)
      ensures !waiting ==> fired == BatchesFrom(images, 0)
    {
      var batch := Batch(images, cursor);
      if |batch| == 0 {
        assert BatchesFrom(images, cursor) == [];
        waiting := false;
        return;
      }
      var _ := cache.PreloadImages(batch);
      assert BatchesFrom(images, cursor) == [batch] + BatchesFrom(images, cursor + BatchSize);
      fired := fired + [batch];
      waiting := true;
    }

    /** The effect: at most once per preloader, the images of all dishes are resolved and
        their first batch handed to the cache. */
    method Run(allDishes: seq<Dish>, baseEnv: string, cache: ImageCache.ImageCache)
      requires Valid() && cache.Valid()
      modifies this, cache
      ensures Valid() && cache.Valid()
      ensures old(hasPreloaded) ==> unchanged(this) && unchanged(cache)
      ensures !old(hasPreloaded) ==>
        && hasPreloaded && images == ImageUrls(allDishes, baseEnv) && cursor == 0
        && fired == (if images == [] then [] else [Batch(images, 0)])
      ensures cache.cached == old(cache.cached)
    {
      if hasPreloaded {
        return;
      }
      hasPreloaded := true;
      images := ImageUrls(allDishes, baseEnv);
      cursor := 0;
      fired := [];
      LoadBatch(cache);
    }

    /** The batch in flight settled and the 100 ms timer fired: the next batch goes to the
        cache. When none is left the preloader stops, having handed every batch over once,
        in order. */
    method BatchSettled(cache: ImageCache.ImageCache)
      requires Valid() && cache.Valid()
      requires waiting && cache.Settled(fired[|fired| - 1])
      modifies this, cache
      ensures Valid() && cache.Valid()
      ensures images == old(images) && cursor == old(cursor) + BatchSize
      ensures waiting ==> fired == old(fired) + [Batch(images, cursor)]
      ensures !waiting ==> fired == old(fired) && fired == BatchesFrom(images, 0)
      ensures cache.cached == old(cache.cached)
    {
      cursor := cursor + BatchSize;
      LoadBatch(cache);
    }
  }
}
