/**
 * The photo and face collections behind api/controllers/photosController.js,
 * with the handlers that read and change them: `getPhotos`,
 * `getTrashedPhotos`, the save at the end of each image's pipeline in
 * `generateThumbnailsAndExif`, `trash`, `deleteAll` and `saveFaceDescriptors`.
 * Every outcome of the database, the file system and the JSON parser that the
 * handlers depend on is a parameter; each failure is all-or-nothing.
 */
module PhotoStore {
  import opened Wrappers
  import opened Metadata
  import opened TrashRequest

  /** A stored photo document; `trashed` defaults to false. */
  datatype PhotoRecord = PhotoRecord(name: string, dateCreated: Instant, metaData: MetaData, trashed: bool)

  type Descriptor = seq<real>

  /** A stored face document. */
  datatype FaceRecord = FaceRecord(faceLabel: string, descriptors: seq<Descriptor>)

  /** What a handler sends back. */
  datatype Response =
    | Trashed(modifiedCount: nat)  // "<n> Photos trashed successfully!"
    | Deleted                      // "Deleted successfully!"
    | FacesSaved                   // "Images uploaded!"
    | PhotoSaved                   // the pipeline went on to next()
    | ParamMissing                 // STATUS_CODES.PARAM_MISSING
    | ServerError                  // STATUS_CODES.SERVER_ERROR
    | NoResponse                   // the handler's promise rejected; the handler itself sends nothing

  /** The steps of `deleteAll`, in the order they are attempted. */
  datatype PurgeStep = ClearUploadDir | ClearThumbnailDir | DeletePhotoRecords | DeleteFaceRecords

  /** The outcome of reading an image's Exif tags: a failure, or a bag that may be absent. */
  datatype Extraction = ExtractionFailed | Extracted(exif: Option<Exif>)

  /** The document `photo.save()` stores for a freshly built record. */
  function NewRecord(p: Photo): (r: PhotoRecord)
    ensures !r.trashed
    ensures r.name == p.name && r.dateCreated == p.dateCreated && r.metaData == p.metaData
  {
    PhotoRecord(p.name, p.dateCreated, p.metaData, false)
  }

  /** `Photo.find({trashed})`: the records whose flag equals `trashed`. */
  function Listing(photos: map<ObjectId, PhotoRecord>, trashed: bool): (r: map<ObjectId, PhotoRecord>)
    ensures forall id :: id in r <==> id in photos && photos[id].trashed == trashed
    ensures forall id :: id in r ==> r[id] == photos[id]
  {
    map id | id in photos && photos[id].trashed == trashed :: photos[id]
  }

  /** The two listings split the store: disjoint, and together everything. */
  lemma ListingsPartition(photos: map<ObjectId, PhotoRecord>)
    ensures Listing(photos, false).Keys !! Listing(photos, true).Keys
    ensures Listing(photos, false) + Listing(photos, true) == photos
    ensures |Listing(photos, false)| + |Listing(photos, true)| == |photos|
  {
  }

  /** `updateMany({_id: {$in: ids}}, {trashed: true})`: only the listed records change, and only their flag. */
  function MarkTrashed(photos: map<ObjectId, PhotoRecord>, ids: set<ObjectId>): (r: map<ObjectId, PhotoRecord>)
    ensures r.Keys == photos.Keys
    ensures forall id :: id in photos && id in ids ==> r[id] == photos[id].(trashed := true)
    ensures forall id :: id in photos && id !in ids ==> r[id] == photos[id]
  {
    map id | id in photos :: if id in ids then photos[id].(trashed := true) else photos[id]
  }

  /** The records the update actually changes: listed, stored and not yet trashed. */
  function Modified(photos: map<ObjectId, PhotoRecord>, ids: set<ObjectId>): (s: set<ObjectId>)
    ensures s <= ids
    ensures forall id :: id in s <==> id in photos && MarkTrashed(photos, ids)[id] != photos[id]
    ensures forall id :: id in s <==> id in ids && id in photos && !photos[id].trashed
  {
    set id | id in ids && id in photos && !photos[id].trashed
  }

  /** `modifiedCount`: the update reports how many records it changed. */
  function ModifiedCount(photos: map<ObjectId, PhotoRecord>, ids: set<ObjectId>): (n: nat)
    ensures n <= |ids|
  {
    SubsetCard(Modified(photos, ids), ids);
    |Modified(photos, ids)|
  }

  lemma {:induction false} SubsetCard<T>(a: set<T>, b: set<T>)
    requires a <= b
    ensures |a| <= |b|
  {
    if a != {} {
      var x :| x in a;
      SubsetCard(a - {x}, b - {x});
    }
  }

  /** Trashing moves exactly the listed, stored records from one listing to the other. */
  lemma TrashMovesListed(photos: map<ObjectId, PhotoRecord>, ids: set<ObjectId>)
    ensures Listing(MarkTrashed(photos, ids), false).Keys == Listing(photos, false).Keys - ids
    ensures Listing(MarkTrashed(photos, ids), true).Keys == Listing(photos, true).Keys + (ids * photos.Keys)
  {
  }

  /** The reported count is how many records left the normal listing. */
  lemma ModifiedCountIsListingDrop(photos: map<ObjectId, PhotoRecord>, ids: set<ObjectId>)
    ensures |Listing(MarkTrashed(photos, ids), false)| + ModifiedCount(photos, ids) == |Listing(photos, false)|
  {
    var before := Listing(photos, false).Keys;
    var after := Listing(MarkTrashed(photos, ids), false).Keys;
    var changed := Modified(photos, ids);
    forall id
      ensures id in after <==> id in before && id !in changed
    {
      TrashMovesListed(photos, ids);
    }
    assert after == before - changed;
    RemoveCard(before, changed);
  }

  lemma RemoveCard<T>(a: set<T>, b: set<T>)
    requires b <= a
    ensures |a - b| + |b| == |a|
  {
  }

  /** Trashing the same ids again changes nothing and reports zero. */
  lemma TrashIdempotent(photos: map<ObjectId, PhotoRecord>, ids: set<ObjectId>)
    ensures MarkTrashed(MarkTrashed(photos, ids), ids) == MarkTrashed(photos, ids)
    ensures ModifiedCount(MarkTrashed(photos, ids), ids) == 0
  {
  }

  /** Ids that match no record are ignored. */
  lemma UnknownIdsIgnored(photos: map<ObjectId, PhotoRecord>, ids: set<ObjectId>)
    ensures MarkTrashed(photos, ids) == MarkTrashed(photos, ids * photos.Keys)
    ensures ModifiedCount(photos, ids) == ModifiedCount(photos, ids * photos.Keys)
  {
    assert Modified(photos, ids) == Modified(photos, ids * photos.Keys);
  }

  /** `facesObject` as `Object.keys` lists it: one face record per key, in key order. */
  function FaceRecords(entries: seq<(string, seq<Descriptor>)>): (r: seq<FaceRecord>)
    ensures |r| == |entries|
    ensures forall i :: 0 <= i < |entries| ==> r[i].faceLabel == entries[i].0 && r[i].descriptors == entries[i].1
  {
    if entries == [] then []
    else [FaceRecord(entries[0].0, entries[0].1)] + FaceRecords(entries[1..])
  }

  /** How many faces are saved before the first save that rejects. */
  function SavedCount(count: nat, failAt: Option<nat>): (n: nat)
    ensures n <= count
    ensures n < count <==> failAt.Some? && failAt.value < count
  {
    if failAt.Some? && failAt.value < count then failAt.value else count
  }

  class Store {
    var photos: map<ObjectId, PhotoRecord>
    var faces: seq<FaceRecord>

    constructor ()
      ensures photos == map[] && faces == []
    {
      photos := map[];
      faces := [];
    }

    /** `getPhotos`: the records not in the trash. */
    method GetPhotos() returns (r: map<ObjectId, PhotoRecord>)
      ensures forall id :: id in r <==> id in photos && !photos[id].trashed
      ensures forall id :: id in r ==> r[id] == photos[id]
    {
      r := Listing(photos, false);
    }

    /** `getTrashedPhotos`: the records in the trash. */
    method GetTrashedPhotos() returns (r: map<ObjectId, PhotoRecord>)
      ensures forall id :: id in r <==> id in photos && photos[id].trashed
      ensures forall id :: id in r ==> r[id] == photos[id]
    {
      r := Listing(photos, true);
    }

    /**
     * One image of `generateThumbnailsAndExif`: the thumbnail, then the Exif
     * tags, then the record, saved under the fresh `id` the store assigns.
     * `helpersOk` is whether the Utils helpers return rather than throw; they
     * are called only when there is an Exif bag. Any failing step ends in a
     * server error with no record saved.
     */
    method IngestUpload(upload: Upload, thumbnailOk: bool, extraction: Extraction,
                        clock: Clock, utils: Helpers, helpersOk: bool, id: ObjectId, saveOk: bool)
      returns (r: Response)
      requires id !in photos
      modifies this
      ensures faces == old(faces)
      ensures r == PhotoSaved <==>
        thumbnailOk && extraction.Extracted? && (extraction.exif.None? || helpersOk) && saveOk
      ensures r != PhotoSaved ==> r == ServerError && photos == old(photos)
      ensures r == PhotoSaved ==>
        photos == old(photos)[id := NewRecord(BuildPhoto(upload, extraction.exif, clock, utils))]
    {
      if !thumbnailOk || extraction.ExtractionFailed? {
        return ServerError;
      }
      if extraction.exif.Some? && !helpersOk {
        return ServerError;
      }
      if !saveOk {
        return ServerError;
      }
      var photo := BuildPhoto(upload, extraction.exif, clock, utils);
      photos := photos[id := NewRecord(photo)];
      r := PhotoSaved;
    }

    /**
     * `trash`: the guard on `ids`, then every conversion, then one bulk
     * update; `updateOk` is whether the database accepts the update.
     */
    method Trash(ids: Option<string>, updateOk: bool) returns (r: Response)
      modifies this
      ensures faces == old(faces)
      ensures ReadIds(ids).Missing? ==> r == ParamMissing && photos == old(photos)
      ensures ReadIds(ids).Malformed? ==> r == ServerError && photos == old(photos)
      ensures ReadIds(ids).Ids? && !updateOk ==> r == ServerError && photos == old(photos)
      ensures ReadIds(ids).Ids? && updateOk ==>
        && photos == MarkTrashed(old(photos), ReadIds(ids).ids)
        && r == Trashed(ModifiedCount(old(photos), ReadIds(ids).ids))
    {
      match ReadIds(ids)
      case Missing =>
        r := ParamMissing;
      case Malformed =>
        r := ServerError;
      case Ids(chosen) =>
        if !updateOk {
          return ServerError;
        }
        r := Trashed(ModifiedCount(photos, chosen));
        photos := MarkTrashed(photos, chosen);
    }

    /**
     * `deleteAll`: the two directories are cleared in one try whose failure
     * is only logged (a failing upload directory skips the thumbnail one),
     * then the photo records and then the face records are deleted.
     */
    method DeleteAll(uploadDirOk: bool, thumbnailDirOk: bool, photosOk: bool, facesOk: bool)
      returns (r: Response, steps: seq<PurgeStep>)
      modifies this
      ensures steps == (if uploadDirOk then [ClearUploadDir, ClearThumbnailDir] else [ClearUploadDir])
                       + [DeletePhotoRecords] + (if photosOk then [DeleteFaceRecords] else [])
      ensures photos == (if photosOk then map[] else old(photos))
      ensures faces == (if photosOk && facesOk then [] else old(faces))
      ensures r == (if photosOk && facesOk then Deleted else ServerError)
    {
      steps := [ClearUploadDir];
      if uploadDirOk {
        steps := steps + [ClearThumbnailDir];
      }
      steps := steps + [DeletePhotoRecords];
      if !photosOk {
        return ServerError, steps;
      }
      photos := map[];
      steps := steps + [DeleteFaceRecords];
      if !facesOk {
        return ServerError, steps;
      }
      faces := [];
      r := Deleted;
    }

    /**
     * `saveFaceDescriptors`: `parsed` is the body's `faces` field after
     * JSON.parse, as `Object.keys` orders it (None when parsing throws);
     * `failAt` is the index of the first `face.save()` that rejects. The handler
     * catches nothing, so a rejection leaves the reply to whatever handles
     * the rejected promise.
     */
    method SaveFaceDescriptors(parsed: Option<seq<(string, seq<Descriptor>)>>, failAt: Option<nat>)
      returns (r: Response)
      modifies this
      ensures photos == old(photos)
      ensures parsed.None? ==> r == NoResponse && faces == old(faces)
      ensures parsed.Some? ==>
        var n := SavedCount(|parsed.value|, failAt);
        && faces == old(faces) + FaceRecords(parsed.value)[..n]
        && r == (if n == |parsed.value| then FacesSaved else NoResponse)
    {
      if parsed.None? {
        return NoResponse;
      }
      var entries := parsed.value;
      ghost var records := FaceRecords(entries);
      var i := 0;
      while i < |entries|
        invariant 0 <= i <= |entries|
        invariant failAt.Some? ==> i <= failAt.value
        invariant faces == old(faces) + records[..i]
        invariant photos == old(photos)
      {
        if failAt == Some(i) {
          return NoResponse;
        }
        faces := faces + [FaceRecord(entries[i].0, entries[i].1)];
        assert records[..i + 1] == records[..i] + [records[i]];
        i := i + 1;
      }
      assert records[..i] == records;
      r := FacesSaved;
    }
  }
}
