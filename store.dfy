/** The record store behind `useIndexedDB` (hooks/useIndexedDB.ts): the two
    IndexedDB object stores, both keyed by the records' `id`, held as maps, and
    the hook's `videos` list. Each operation is one atomic step; the
    connection handle and the asynchronous scheduling are not modelled. */
module Store {
  import opened Types

  predicate VideosKeyedById(store: map<Id, Video>) {
    forall k :: k in store ==> store[k].id == k
  }

  predicate AnnotationsKeyedById(store: map<Id, Annotation>) {
    forall k :: k in store ==> store[k].id == k
  }

  /** The annotations of one video: what the `videoId` index holds under that key. */
  function RecordsOf(store: map<Id, Annotation>, videoId: Id): set<Annotation> {
    set k | k in store && store[k].videoId == videoId :: store[k]
  }

  /** The annotation store once every record of `videoId` is gone: the records
      of other videos stay, under the same keys, unchanged. */
  function WithoutVideo(store: map<Id, Annotation>, videoId: Id): (r: map<Id, Annotation>)
    ensures forall k :: k in r <==> k in store && store[k].videoId != videoId
    ensures forall k :: k in r ==> r[k] == store[k]
  {
    map k | k in store && store[k].videoId != videoId :: store[k]
  }

  /** After the cascade no annotation of the deleted video is left, and every
      other video keeps exactly the annotations it had. */
  lemma CascadeEffect(store: map<Id, Annotation>, videoId: Id, other: Id)
    ensures RecordsOf(WithoutVideo(store, videoId), videoId) == {}
    ensures other != videoId ==> RecordsOf(WithoutVideo(store, videoId), other) == RecordsOf(store, other)
  {
    var after := WithoutVideo(store, videoId);
    if other != videoId {
      forall a | a in RecordsOf(store, other) ensures a in RecordsOf(after, other) {
        var k :| k in store && store[k].videoId == other && store[k] == a;
        assert k in after;
      }
    }
  }

  /** Adding a record under a new key gives its video one more annotation and
      leaves every other video's annotations as they were. */
  lemma AddEffect(store: map<Id, Annotation>, a: Annotation, videoId: Id)
    requires a.id !in store
    ensures RecordsOf(store[a.id := a], videoId)
         == if a.videoId == videoId then RecordsOf(store, videoId) + {a} else RecordsOf(store, videoId)
  {
    var after := store[a.id := a];
    forall b | b in RecordsOf(store, videoId) ensures b in RecordsOf(after, videoId) {
      var k :| k in store && store[k].videoId == videoId && store[k] == b;
      assert k != a.id && after[k] == b;
    }
    forall b | b in RecordsOf(after, videoId) && b != a ensures b in RecordsOf(store, videoId) {
      var k :| k in after && after[k].videoId == videoId && after[k] == b;
      assert k != a.id && store[k] == b;
    }
    if a.videoId == videoId {
      assert after[a.id] == a;
    }
  }

  /** Removing the record under a key takes exactly that record away from its
      video's annotations, when the store is keyed by id. */
  lemma DeleteEffect(store: map<Id, Annotation>, id: Id, videoId: Id)
    requires AnnotationsKeyedById(store)
    ensures RecordsOf(store - {id}, videoId)
         == if id in store then RecordsOf(store, videoId) - {store[id]} else RecordsOf(store, videoId)
  {
    var after := store - {id};
    forall b | b in RecordsOf(store, videoId) && (id in store ==> b != store[id])
      ensures b in RecordsOf(after, videoId)
    {
      var k :| k in store && store[k].videoId == videoId && store[k] == b;
      assert k != id;
      assert k in after && after[k] == b;
    }
  }

  class AnnotationDb {
    var videoStore: map<Id, Video>
    var annotationStore: map<Id, Annotation>
    /** The hook's `videos` state, refreshed from the video store. */
    var videos: seq<Video>

    ghost predicate Valid()
      reads this
    {
      VideosKeyedById(videoStore) && AnnotationsKeyedById(annotationStore)
    }

    constructor ()
      ensures Valid()
      ensures videoStore == map[] && annotationStore == map[] && videos == []
    {
      videoStore := map[];
      annotationStore := map[];
      videos := [];
    }

    /** `getVideos`: the list becomes every record of the video store, each
        once (in an order this model leaves open). */
    method GetVideos()
      requires Valid()
      modifies this`videos
      ensures Valid()
      ensures forall v :: v in videos <==> v in videoStore.Values
      ensures |videos| == |videoStore|
    {
      var keys := videoStore.Keys;
      var list: seq<Video> := [];
      while keys != {}
        invariant keys <= videoStore.Keys
        invariant |list| + |keys| == |videoStore.Keys|
        invariant forall i :: 0 <= i < |list| ==>
          list[i].id in videoStore && videoStore[list[i].id] == list[i] && list[i].id !in keys
        invariant forall k :: k in videoStore && k !in keys ==> videoStore[k] in list
        decreases keys
      {
        var k :| k in keys;
        list := list + [videoStore[k]];
        keys := keys - {k};
      }
      videos := list;
      forall v | v in videoStore.Values ensures v in videos {
        var k :| k in videoStore && videoStore[k] == v;
      }
      assert |videoStore.Keys| == |videoStore|;
    }

    /** `addVideo`: stores `{ id, name: file.name, file }` under the fresh id
        and refreshes the list, which then holds it. `db.add` refuses a key
        that is already present; then nothing changes and the list is not
        refreshed. */
    method AddVideo(file: MediaFile, freshId: Id) returns (ok: bool)
      requires Valid()
      modifies this`videoStore, this`videos
      ensures Valid()
      ensures ok == (freshId !in old(videoStore))
      ensures !ok ==> videoStore == old(videoStore) && videos == old(videos)
      ensures ok ==> videoStore == old(videoStore)[freshId := Video(freshId, file.name, file)]
      ensures ok ==> Video(freshId, file.name, file) in videos
      ensures ok ==> forall v :: v in videos <==> v in videoStore.Values
    {
      var newVideo := Video(freshId, file.name, file);
      if freshId in videoStore {
        return false;
      }
      videoStore := videoStore[freshId := newVideo];
      GetVideos();
      assert videoStore[freshId] == newVideo;
      ok := true;
    }

    /** `deleteVideo`: deletes the video record, then walks the `videoId`
        index with a cursor, deleting every annotation of that video; other
        videos and their annotations are left as they were. */
    method DeleteVideo(videoId: Id)
      requires Valid()
      modifies this`videoStore, this`annotationStore, this`videos
      ensures Valid()
      ensures videoStore == old(videoStore) - {videoId}
      ensures annotationStore == WithoutVideo(old(annotationStore), videoId)
      ensures forall v :: v in videos <==> v in videoStore.Values
    {
      videoStore := videoStore - {videoId};
      ghost var before := annotationStore;
      var cursor := set k | k in annotationStore && annotationStore[k].videoId == videoId;
      while cursor != {}
        invariant videoStore == old(videoStore) - {videoId}
        invariant cursor <= annotationStore.Keys
        invariant forall k :: k in annotationStore <==>
          k in before && (before[k].videoId != videoId || k in cursor)
        invariant forall k :: k in annotationStore ==> annotationStore[k] == before[k]
        decreases cursor
      {
        var k :| k in cursor;
        annotationStore := annotationStore - {k};
        cursor := cursor - {k};
      }
      assert annotationStore == WithoutVideo(before, videoId);
      GetVideos();
    }

    /** `getAnnotationsForVideo`: every annotation whose `videoId` matches,
        each exactly once and nothing else (index order is left open). */
    method GetAnnotationsForVideo(videoId: Id) returns (r: seq<Annotation>)
      requires Valid()
      ensures forall a :: a in r <==> a in RecordsOf(annotationStore, videoId)
      ensures forall i, j :: 0 <= i < j < |r| ==> r[i].id != r[j].id
    {
      var keys := annotationStore.Keys;
      r := [];
      while keys != {}
        invariant keys <= annotationStore.Keys
        invariant forall i :: 0 <= i < |r| ==>
          r[i].id in annotationStore && annotationStore[r[i].id] == r[i]
          && r[i].id !in keys && r[i].videoId == videoId
        invariant forall k :: k in annotationStore && k !in keys && annotationStore[k].videoId == videoId ==>
          annotationStore[k] in r
        invariant forall i, j :: 0 <= i < j < |r| ==> r[i].id != r[j].id
        decreases keys
      {
        var k :| k in keys;
        if annotationStore[k].videoId == videoId {
          r := r + [annotationStore[k]];
        }
        keys := keys - {k};
      }
    }

    /** `addAnnotation`: stores and returns the draft's fields unchanged plus
        the fresh id; `db.add` refuses a key already present, and then nothing
        is stored. */
    method AddAnnotation(draft: NewAnnotation, freshId: Id) returns (r: Option<Annotation>)
      requires Valid()
      modifies this`annotationStore
      ensures Valid()
      ensures r.Some? == (freshId !in old(annotationStore))
      ensures r.None? ==> annotationStore == old(annotationStore)
      ensures r.Some? ==> r.value == WithId(draft, freshId)
      ensures r.Some? ==> annotationStore == old(annotationStore)[freshId := r.value]
    {
      if freshId in annotationStore {
        return None;
      }
      var full := WithId(draft, freshId);
      annotationStore := annotationStore[freshId := full];
      r := Some(full);
    }

    /** `updateAnnotation`: `db.put` writes the whole record under its id,
        inserting it if absent; no other record changes. */
    method UpdateAnnotation(a: Annotation)
      requires Valid()
      modifies this`annotationStore
      ensures Valid()
      ensures annotationStore == old(annotationStore)[a.id := a]
    {
      annotationStore := annotationStore[a.id := a];
    }

    /** `deleteAnnotation`: removes the record with that id, if any, and only it. */
    method DeleteAnnotation(id: Id)
      requires Valid()
      modifies this`annotationStore
      ensures Valid()
      ensures annotationStore == old(annotationStore) - {id}
    {
      annotationStore := annotationStore - {id};
    }
  }
}
