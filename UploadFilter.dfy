/**
 * The filter multer consults for every file of an upload request
 * (`fileFilter` in api/controllers/photosController.js).
 *
 * The filter answers through a callback, and it may call that callback more
 * than once: when the name already exists it calls `callback(null, false)` and
 * then, with no `return` in between, `callback(null, true)`. The model
 * therefore returns the whole sequence of callback invocations and says
 * nothing about what multer does with them.
 */
module UploadFilter {

  /** One invocation of the filter's callback. */
  datatype Callback =
    | Fail(message: string)   // callback(new Error(message))
    | Decide(accept: bool)    // callback(null, accept)

  /** The content types the filter lets through, compared as exact strings. */
  const AllowedTypes: seq<string> := ["image/png", "image/jpeg", "image/jpg", "image/webp"]

  const NotAnImage: string := "Only images are allowed"

  predicate IsAllowedType(mimeType: string) {
    mimeType in AllowedTypes
  }

  /**
   * The callbacks made for a file with content type `mimeType` and original
   * name `originalName`, when `onDisk` holds the names already present in the
   * upload directory. The extension the source computes is never used.
   */
  function FileFilter(mimeType: string, originalName: string, onDisk: set<string>): (calls: seq<Callback>)
    ensures !IsAllowedType(mimeType) ==> calls == [Fail(NotAnImage)]
    ensures IsAllowedType(mimeType) && originalName in onDisk ==> calls == [Decide(false), Decide(true)]
    ensures IsAllowedType(mimeType) && originalName !in onDisk ==> calls == [Decide(true)]
  {
    if !IsAllowedType(mimeType) then [Fail(NotAnImage)]
    else (if originalName in onDisk then [Decide(false)] else []) + [Decide(true)]
  }

  /** The filter always answers, and its last answer accepts exactly the allowed types. */
  lemma LastCallAcceptsAllowedTypes(mimeType: string, originalName: string, onDisk: set<string>)
    ensures var calls := FileFilter(mimeType, originalName, onDisk);
      && 1 <= |calls| <= 2
      && (calls[|calls| - 1] == Decide(true) <==> IsAllowedType(mimeType))
      && (calls[|calls| - 1].Fail? <==> !IsAllowedType(mimeType))
  {
  }

  /**
   * The filter answers twice exactly when the type is allowed and the name is
   * taken, and then its two answers contradict each other.
   */
  lemma DoubleCallOnCollision(mimeType: string, originalName: string, onDisk: set<string>)
    ensures var calls := FileFilter(mimeType, originalName, onDisk);
      && (|calls| == 2 <==> IsAllowedType(mimeType) && originalName in onDisk)
      && (|calls| == 2 ==> calls[0] != calls[1])
  {
  }

  /** A rejected type is rejected whatever the name and whatever is on disk. */
  lemma RejectionIgnoresName(mimeType: string, name1: string, onDisk1: set<string>, name2: string, onDisk2: set<string>)
    requires !IsAllowedType(mimeType)
    ensures FileFilter(mimeType, name1, onDisk1) == FileFilter(mimeType, name2, onDisk2)
  {
  }

  /** A concrete colliding upload: a PNG whose name is already on disk. */
  lemma CollidingPngIsAcceptedAfterRefusal()
    ensures FileFilter("image/png", "cat.png", {"cat.png"}) == [Decide(false), Decide(true)]
  {
  }

  /**
   * The filter as the collision guard is meant to behave: a taken name is
   * refused with a single `callback(null, false)`.
   */
  function FileFilterIntended(mimeType: string, originalName: string, onDisk: set<string>): (calls: seq<Callback>)
    ensures |calls| == 1
    ensures calls[0].Fail? <==> !IsAllowedType(mimeType)
    ensures calls[0] == Decide(true) <==> IsAllowedType(mimeType) && originalName !in onDisk
    ensures calls[0] == Decide(false) <==> IsAllowedType(mimeType) && originalName in onDisk
  {
    if !IsAllowedType(mimeType) then [Fail(NotAnImage)]
    else if originalName in onDisk then [Decide(false)]
    else [Decide(true)]
  }

  /** The intended filter and the one written agree except on a taken name, where the written one adds a late acceptance. */
  lemma IntendedIsFirstCall(mimeType: string, originalName: string, onDisk: set<string>)
    ensures FileFilterIntended(mimeType, originalName, onDisk) == FileFilter(mimeType, originalName, onDisk)[..1]
    ensures FileFilterIntended(mimeType, originalName, onDisk) == FileFilter(mimeType, originalName, onDisk)
        <==> !(IsAllowedType(mimeType) && originalName in onDisk)
  {
  }
}
