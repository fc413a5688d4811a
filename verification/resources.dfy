/** The image cache (resources.go): every image file is loaded once, the
    first time it is asked for, and the same image is handed out after
    that. */
module Resources {

  /** A loaded image; the loader's `nil` (a file that failed to load) is
      `null`. */
  class Image {
  }

  /** One lookup in the cache `images`: a cached path gives its image and
      leaves the cache as it is; an uncached one gives what the loader
      gave, `loaded`, and records it. */
  function Fetch(images: map<string, Image?>, path: string, loaded: Image?): (r: (Image?, map<string, Image?>))
    ensures path in r.1 && r.1[path] == r.0
    ensures path in images ==> r.0 == images[path] && r.1 == images
    ensures path !in images ==> r.0 == loaded && r.1.Keys == images.Keys + {path}
    ensures forall p :: p in images ==> p in r.1 && r.1[p] == images[p]
  {
    if path in images then (images[path], images)
    else (loaded, images[path := loaded])
  }

  /** Asking twice for the same path gives the same image the second time,
      whatever the loader would give, and leaves the cache unchanged: a
      failed load (`null`) is cached too and never retried. */
  lemma FetchIdempotent(images: map<string, Image?>, path: string, loaded: Image?, again: Image?)
    ensures var (img, cache) := Fetch(images, path, loaded);
      Fetch(cache, path, again) == (img, cache)
  {
  }

  /** Fetching one path leaves what any other path fetches unchanged once
      that path is cached. */
  lemma FetchOthers(images: map<string, Image?>, path: string, other: string, loaded: Image?, l2: Image?)
    requires other in images
    ensures Fetch(Fetch(images, path, loaded).1, other, l2).0 == Fetch(images, other, l2).0
  {
  }

  /** The cache (`ImageResources`) and, as a record, the paths the loader
      was called for. */
  class ImageCache {
    var images: map<string, Image?>
    ghost var loads: seq<string>

    /** Every path the loader was called for is cached, and none was
        loaded twice. */
    ghost predicate Valid()
      reads this
    {
      (forall i :: 0 <= i < |loads| ==> loads[i] in images) &&
      (forall i, j :: 0 <= i < j < |loads| ==> loads[i] != loads[j])
    }

    constructor ()
      ensures images == map[] && loads == [] && Valid()
    {
      images := map[];
      loads := [];
    }

    /** `GetImage`: the loader's result for an uncached path is `loaded`;
        it is called only on a miss. */
    method GetImage(path: string, loaded: Image?) returns (res: Image?)
      requires Valid()
      modifies this
      ensures Valid()
      ensures (res, images) == Fetch(old(images), path, loaded)
      ensures loads == old(loads) + (if path in old(images) then [] else [path])
    {
      if path in images {
        res := images[path];
      } else {
        res := loaded;
        images := images[path := res];
        loads := loads + [path];
      }
    }
  }
}
