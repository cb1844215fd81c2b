# gphotos_api photo controller, modelled in Dafny

This project models the core of the photo controller of gphotos_api, an
Express service that stores uploaded photos with their Exif metadata in
MongoDB. It covers four parts of `api/controllers/photosController.js`:

- **the upload filter** (`fileFilter`): content type and name collision decide
  which callbacks multer receives (`UploadFilter.dfy`);
- **the per-image record** built by `generateThumbnailsAndExif` from an
  optional Exif bag, the upload's size and name, and the clock
  (`Metadata.dfy`);
- **the `ids` parameter of `trash`**: presence guard, split on ",", ObjectId
  conversion of every piece (`TrashRequest.dfy`);
- **the photo and face collections** as a class `Store` with a map of photo
  records and a sequence of face records, and the handlers `getPhotos`,
  `getTrashedPhotos`, the save of one image, `trash`, `deleteAll` and
  `saveFaceDescriptors` (`PhotoStore.dfy`).

The file system, the Exif reader, the Utils helpers, moment and the database
are not modelled: their outcomes are parameters. Existence of a file in the
upload directory is a `set<string>` of names; each failure of the database
or the file system is a `bool` parameter; the Utils helpers and moment's
formatting and parsing are function-valued fields of the datatypes `Helpers`
and `Clock`, left uninterpreted; "now" is `Clock.now`.

The model follows the code as written, including these behaviours that are
easy to miss:

- the code swaps width and height for the main image (lines 72-73) as well as
  for the thumbnail (lines 83-84), not only for the thumbnail;
- a name collision does not skip the file silently: the filter calls back
  with `false` and then with `true` (see Findings);
- the count `trash` reports is MongoDB's `modifiedCount`: the listed records
  that were not trashed already, not every listed record that exists;
- in `deleteAll` a failure clearing the upload directory also skips the
  thumbnail directory (both are in one `try`), and a failure deleting the
  face records comes after the photo records are already gone;
- the failure cleanup of `generateThumbnailsAndExif` deletes nothing (it
  names a variable that is not in scope there, and the error is swallowed).

## Model

| member | source | states |
|---|---|---|
| `UploadFilter.FileFilter` | api/controllers/photosController.js:32-43 | a type outside png/jpeg/jpg/webp gives exactly one error callback; an allowed type whose name is on disk gives `false` then `true`; any other file a single `true` |
| `UploadFilter.LastCallAcceptsAllowedTypes` | api/controllers/photosController.js:35-42 | the filter calls back once or twice, and its last call accepts exactly when the type is allowed and is an error exactly when it is not |
| `UploadFilter.DoubleCallOnCollision` | api/controllers/photosController.js:39-42 | two calls happen exactly for an allowed type with a taken name, and the two answers contradict each other |
| `UploadFilter.RejectionIgnoresName` | api/controllers/photosController.js:35-37 | a disallowed type is rejected the same way whatever the name and the directory contents |
| `UploadFilter.CollidingPngIsAcceptedAfterRefusal` | api/controllers/photosController.js:39-42 | a PNG named `cat.png` with `cat.png` already on disk gets `false` and then `true` |
| `UploadFilter.FileFilterIntended` | api/controllers/photosController.js:32-43 | the collision guard as intended: always one callback, an error exactly for a disallowed type, `false` exactly for a taken name, `true` otherwise |
| `UploadFilter.IntendedIsFirstCall` | api/controllers/photosController.js:39-42 | the intended answer is the written filter's first call, and the two filters agree except on a taken name |
| `Metadata.JsText` | api/controllers/photosController.js:76 | a missing Make or Model is rendered as "undefined" in the device text |
| `Metadata.DateText` | api/controllers/photosController.js:68-70 | the metadata date is CreateDate when present and non-empty, else now formatted |
| `Metadata.Normalize` | api/controllers/photosController.js:68-100 | width is the reported ImageHeight and height the ImageWidth; thumbWidth is ExifImageHeight and thumbHeight ExifImageWidth; size comes from the upload; every field of a missing tag group is missing or the helper's value for a missing input |
| `Metadata.BuildPhoto` | api/controllers/photosController.js:64-107 | the name is the upload's file name; metaData is empty exactly when there is no Exif bag, and then the date is now; with a bag the date is the metadata's date text parsed |
| `Metadata.DateFromCapture` | api/controllers/photosController.js:68-71 | with a capture date, the record's date is that date parsed and the metadata carries it verbatim |
| `Metadata.DateFallsBackToNow` | api/controllers/photosController.js:64-71 | without a capture date the record's date is now, when now survives formatting and parsing |
| `Metadata.SizeOnlyAffectsSize` | api/controllers/photosController.js:75 | the upload size changes only the size field of the metadata |
| `Metadata.NoExifIgnoresSizeAndHelpers` | api/controllers/photosController.js:103-107 | without an Exif bag the record depends only on the file name and the clock |
| `TrashRequest.Split` | api/controllers/photosController.js:175-176 | splitting on "," gives at least one piece and no piece holds a comma |
| `TrashRequest.JoinSplit` | api/controllers/photosController.js:175-176 | joining the pieces with "," gives back the parameter |
| `TrashRequest.SplitJoin` | api/controllers/photosController.js:175-176 | splitting joined comma-free pieces gives the pieces back |
| `TrashRequest.ParseObjectId` | api/controllers/photosController.js:177 | conversion succeeds exactly on 24 hexadecimal digits and yields their lower-case form |
| `TrashRequest.ParseCanonical` | api/controllers/photosController.js:177 | an ObjectId's own text converts back to it |
| `TrashRequest.ParseIds` | api/controllers/photosController.js:175-177 | the pieces convert all-or-nothing; on success piece i converts to id i |
| `TrashRequest.ReadIds` | api/controllers/photosController.js:170-177 | the request is missing exactly when `ids` is absent or empty, malformed exactly when it is present and some piece is not an ObjectId |
| `TrashRequest.ReadIdsChoosesPieces` | api/controllers/photosController.js:175-185 | the ids to trash are exactly the ObjectIds the pieces convert to |
| `TrashRequest.TrailingCommaIsMalformed` | api/controllers/photosController.js:175-177 | an id followed by a comma leaves an empty piece and so a server error |
| `PhotoStore.NewRecord` | api/controllers/photosController.js:103-108 | a saved record keeps name, date and metadata and is not trashed |
| `PhotoStore.Listing` | api/controllers/photosController.js:45-57 | a listing holds exactly the records whose flag matches, unchanged |
| `PhotoStore.ListingsPartition` | api/controllers/photosController.js:45-57 | the two listings are disjoint and together make up the store |
| `PhotoStore.MarkTrashed` | api/controllers/photosController.js:180-189 | the update keeps every id; listed records get `trashed = true` and nothing else changes; unlisted records are unchanged |
| `PhotoStore.Modified` | api/controllers/photosController.js:180-192 | the records the update changes are the listed, stored, not yet trashed ones, and exactly those whose record differs after the update |
| `PhotoStore.ModifiedCount` | api/controllers/photosController.js:191-193 | the reported count is at most the number of ids |
| `PhotoStore.TrashMovesListed` | api/controllers/photosController.js:180-189 | trashing removes the listed ids from the normal listing and adds the stored ones among them to the trash listing |
| `PhotoStore.ModifiedCountIsListingDrop` | api/controllers/photosController.js:180-193 | the reported count equals how many records left the normal listing |
| `PhotoStore.TrashIdempotent` | api/controllers/photosController.js:180-193 | trashing the same ids twice changes nothing more and reports zero |
| `PhotoStore.UnknownIdsIgnored` | api/controllers/photosController.js:180-189 | ids matching no record change neither the store nor the count |
| `PhotoStore.FaceRecords` | api/controllers/photosController.js:207-217 | one face record per key of the parsed object, in key order, with that key's descriptors |
| `PhotoStore.SavedCount` | api/controllers/photosController.js:211-220 | fewer faces than keys are saved exactly when a save rejects within the loop |
| `PhotoStore.Store.GetPhotos` | api/controllers/photosController.js:45-50 | returns exactly the records with `trashed = false` |
| `PhotoStore.Store.GetTrashedPhotos` | api/controllers/photosController.js:52-57 | returns exactly the records with `trashed = true` |
| `PhotoStore.Store.IngestUpload` | api/controllers/photosController.js:61-127 | a record is stored, not trashed, exactly when thumbnail, extraction, the Utils helpers (called only when there is an Exif bag) and save all succeed; otherwise a server error and no record; faces unchanged |
| `PhotoStore.Store.Trash` | api/controllers/photosController.js:168-200 | missing ids: PARAM_MISSING and no change; a bad piece or a failed update: server error and no change; otherwise exactly the listed records are trashed and the count is reported |
| `PhotoStore.Store.DeleteAll` | api/controllers/photosController.js:130-153 | file failures never stop record deletion; photos are deleted before faces; if photo deletion fails faces are not attempted and the result is a server error; on success both collections are empty |
| `PhotoStore.Store.SaveFaceDescriptors` | api/controllers/photosController.js:202-223 | appends one face record per key in key order, stopping at the first rejected save, after which the handler sends nothing; photos unchanged |

## Left out

- The concurrent fan-out of `generateThumbnailsAndExif` over a batch (`Promise.all`): one image's pipeline is modelled, not the interleaving of several.
- The failure cleanup of `generateThumbnailsAndExif`: it refers to a variable not in scope, so it throws and the error is swallowed; it has no effect and is not modelled.
- The Utils helpers `calculateMegaPixels`, `formatBytes`, `toFixedTrunc` and `convertCoordinate` (floating point, in a module not part of this model): uninterpreted functions whose results are kept as text; whether one of them throws is the single outcome `helpersOk` of `IngestUpload`, not which helper or why.
- moment: formatting, parsing and invalid dates are uninterpreted fields of `Clock`.
- `generateThumbnail`, `getExif`, `deleteFilesInDir`, `deleteFile`, `existsSync`: replaced by outcome parameters; file contents are not modelled.
- `path.join` normalisation in the existence check: a name is looked up in the directory as given.
- multer's storage configuration and how multer treats a second callback.
- TrashRequest.ParseObjectId: does not accept the 12-character byte-string form of an ObjectId, nor non-string `ids` values, nor other mongoose versions' conversion rules.
- Partial failures of `updateMany`, `deleteMany` and `save`: each store call either applies fully or fails with no effect.
- Store-assigned ids: `IngestUpload` receives the fresh id as a parameter.
- The order of listed records, and `JSON.stringify` / `JSON.parse`: listings are maps, metadata is a datatype, and the parsed faces object is an input already in `Object.keys` order.
- HTTP status codes, messages and `console.log`: replaced by the `Response` datatype.
- What happens after a handler's promise rejects (`saveFaceDescriptors` catches nothing): the reply then depends on the Express and Node versions, so `NoResponse` only says the handler sends nothing itself.
- Failures of `Photo.find` in `getPhotos` and `getTrashedPhotos`: the listings are modelled on a store that answers; those handlers catch nothing either.
- `createDirectories`: directory bootstrapping only.
- PhotoStore.Store.DeleteAll: the outcome of clearing the thumbnail directory is a parameter with no effect, since the source only logs it.

## Findings

| source | as written | input that shows it | evidently intended | confidence | as-written member | corrected member |
|---|---|---|---|---|---|---|
| api/controllers/photosController.js:39-42 | no `return` after `callback(null, false)`, so a taken name gets a refusal followed by an acceptance | content type `image/png`, name `cat.png`, `cat.png` already in the upload directory | one `callback(null, false)`: the file is skipped | not executed | `UploadFilter.CollidingPngIsAcceptedAfterRefusal` | `UploadFilter.FileFilterIntended` |
