/**
 * The record built for one uploaded image by `generateThumbnailsAndExif`
 * (api/controllers/photosController.js), without the thumbnail, Exif and
 * database I/O around it: an optional Exif bag, the upload's size and file
 * name, and the clock give a `Photo {name, dateCreated, metaData}`.
 */
module Metadata {
  import opened Wrappers

  /** An instant as moment and the database hold it: milliseconds since the epoch. */
  type Instant = int

  /** The `image` group (IFD0) of the bag the Exif reader returns. */
  datatype ImageTags = ImageTags(
    imageWidth: Option<int>,
    imageHeight: Option<int>,
    make: Option<string>,
    model: Option<string>)

  /** The `exif` group (the Exif sub-IFD). */
  datatype ExifTags = ExifTags(
    createDate: Option<string>,
    maxApertureValue: Option<real>,
    focalLength: Option<real>,
    iso: Option<int>)

  /** The `gps` group; a coordinate is the reader's degree/minute/second list. */
  datatype GpsTags = GpsTags(
    gpsLatitude: Option<seq<real>>,
    gpsLongitude: Option<seq<real>>)

  /** The `thumbnail` group (IFD1). */
  datatype ThumbnailTags = ThumbnailTags(
    exifImageWidth: Option<int>,
    exifImageHeight: Option<int>)

  /** The bag of embedded tags; every group may be missing. */
  datatype Exif = Exif(
    image: Option<ImageTags>,
    exif: Option<ExifTags>,
    gps: Option<GpsTags>,
    thumbnail: Option<ThumbnailTags>)

  /** The part of multer's file object the record uses. */
  datatype Upload = Upload(filename: string, size: nat)

  /**
   * The numeric helpers of the Utils module, which is not part of this model:
   * they are left uninterpreted, and each result is kept as the text it
   * contributes to the metadata.
   */
  datatype Helpers = Helpers(
    calculateMegaPixels: (Option<int>, Option<int>) -> string,
    formatBytes: (nat, bool) -> string,
    toFixedTrunc: (Option<real>, nat) -> string,
    convertCoordinate: Option<seq<real>> -> string)

  /**
   * moment: the current instant, and formatting to and parsing from the
   * pattern "YYYY-MM-DD HH:mm:ss", all left uninterpreted.
   */
  datatype Clock = Clock(now: Instant, format: Instant -> string, parse: string -> Instant)

  /** The fields serialised into `metaData`; a None field is one JSON.stringify leaves out. */
  datatype MetaFields = MetaFields(
    dateCreated: string,
    megaPixels: string,
    width: Option<int>,
    height: Option<int>,
    size: string,
    device: string,
    aperture: string,
    focalLength: Option<real>,
    iso: Option<int>,
    latitude: string,
    longitude: string,
    thumbWidth: Option<int>,
    thumbHeight: Option<int>)

  /** `metaData` is the empty string when there is no Exif bag, else the serialised fields. */
  datatype MetaData = Empty | Meta(fields: MetaFields)

  /** The record handed to the store. */
  datatype Photo = Photo(name: string, dateCreated: Instant, metaData: MetaData)

  /** `exif?.exif?.CreateDate`. */
  function CreateDate(e: Exif): (d: Option<string>) {
    e.exif.Then((t: ExifTags) => t.createDate)
  }

  /** JavaScript truthiness of an optional string: present and not empty. */
  predicate Truthy(s: Option<string>) {
    s.Some? && s.value != ""
  }

  /** An optional string as the `+` operator renders it: undefined becomes "undefined". */
  function JsText(s: Option<string>): (t: string)
    ensures s.Some? ==> t == s.value
    ensures s.None? ==> t == "undefined"
  {
    s.GetOr("undefined")
  }

  /** The date text stored in the metadata: the capture date when truthy, else now formatted. */
  function DateText(e: Exif, clock: Clock): (d: string)
    ensures Truthy(CreateDate(e)) ==> d == CreateDate(e).value
    ensures !Truthy(CreateDate(e)) ==> d == clock.format(clock.now)
  {
    if Truthy(CreateDate(e)) then CreateDate(e).value else clock.format(clock.now)
  }

  /**
   * The metadata fields of an image with an Exif bag. The reader's height is
   * stored as the width and its width as the height, for the main image and
   * for the thumbnail alike; the size comes from the upload, not from Exif.
   */
  function Normalize(e: Exif, size: nat, clock: Clock, utils: Helpers): (f: MetaFields)
    ensures f.dateCreated == DateText(e, clock)
    ensures e.image.Some? ==> f.width == e.image.value.imageHeight && f.height == e.image.value.imageWidth
    ensures e.image.None? ==> f.width == None && f.height == None && f.device == "undefined undefined"
    ensures e.image.Some? ==> f.device == JsText(e.image.value.make) + " " + JsText(e.image.value.model)
    ensures e.thumbnail.Some? ==>
      f.thumbWidth == e.thumbnail.value.exifImageHeight && f.thumbHeight == e.thumbnail.value.exifImageWidth
    ensures e.thumbnail.None? ==> f.thumbWidth == None && f.thumbHeight == None
    ensures f.megaPixels == utils.calculateMegaPixels(f.width, f.height)
    ensures f.size == utils.formatBytes(size, true)
    ensures e.exif.None? ==> f.focalLength == None && f.iso == None && f.aperture == utils.toFixedTrunc(None, 1)
    ensures e.exif.Some? ==>
      && f.focalLength == e.exif.value.focalLength
      && f.iso == e.exif.value.iso
      && f.aperture == utils.toFixedTrunc(e.exif.value.maxApertureValue, 1)
    ensures e.gps.None? ==> f.latitude == f.longitude == utils.convertCoordinate(None)
    ensures e.gps.Some? ==>
      && f.latitude == utils.convertCoordinate(e.gps.value.gpsLatitude)
      && f.longitude == utils.convertCoordinate(e.gps.value.gpsLongitude)
  {
    var width := e.image.Then((t: ImageTags) => t.imageHeight);
    var height := e.image.Then((t: ImageTags) => t.imageWidth);
    var make := e.image.Then((t: ImageTags) => t.make);
    var model := e.image.Then((t: ImageTags) => t.model);
    MetaFields(
      dateCreated := DateText(e, clock),
      megaPixels := utils.calculateMegaPixels(width, height),
      width := width,
      height := height,
      size := utils.formatBytes(size, true),
      device := JsText(make) + " " + JsText(model),
      aperture := utils.toFixedTrunc(e.exif.Then((t: ExifTags) => t.maxApertureValue), 1),
      focalLength := e.exif.Then((t: ExifTags) => t.focalLength),
      iso := e.exif.Then((t: ExifTags) => t.iso),
      latitude := utils.convertCoordinate(e.gps.Then((t: GpsTags) => t.gpsLatitude)),
      longitude := utils.convertCoordinate(e.gps.Then((t: GpsTags) => t.gpsLongitude)),
      thumbWidth := e.thumbnail.Then((t: ThumbnailTags) => t.exifImageHeight),
      thumbHeight := e.thumbnail.Then((t: ThumbnailTags) => t.exifImageWidth))
  }

  /**
   * The record for one upload. Without an Exif bag the metadata is empty and
   * the date is now; with one, the date is the metadata's date text parsed back.
   */
  function BuildPhoto(upload: Upload, exif: Option<Exif>, clock: Clock, utils: Helpers): (p: Photo)
    ensures p.name == upload.filename
    ensures p.metaData.Empty? <==> exif.None?
    ensures exif.None? ==> p.dateCreated == clock.now
    ensures exif.Some? ==> p.metaData == Meta(Normalize(exif.value, upload.size, clock, utils))
    ensures p.metaData.Meta? ==> p.dateCreated == clock.parse(p.metaData.fields.dateCreated)
  {
    match exif
    case None => Photo(upload.filename, clock.now, Empty)
    case Some(e) =>
      var fields := Normalize(e, upload.size, clock, utils);
      Photo(upload.filename, clock.parse(fields.dateCreated), Meta(fields))
  }

  /** With a capture date, the record's date is that date parsed. */
  lemma DateFromCapture(upload: Upload, e: Exif, clock: Clock, utils: Helpers)
    requires Truthy(CreateDate(e))
    ensures BuildPhoto(upload, Some(e), clock, utils).dateCreated == clock.parse(e.exif.value.createDate.value)
    ensures BuildPhoto(upload, Some(e), clock, utils).metaData.fields.dateCreated == e.exif.value.createDate.value
  {
  }

  /**
   * Without a capture date (no bag, or a bag whose CreateDate is missing or
   * empty), the record's date is now, provided now survives formatting and
   * parsing back, i.e. it falls on a whole second.
   */
  lemma DateFallsBackToNow(upload: Upload, exif: Option<Exif>, clock: Clock, utils: Helpers)
    requires exif.None? || !Truthy(CreateDate(exif.value))
    requires clock.parse(clock.format(clock.now)) == clock.now
    ensures BuildPhoto(upload, exif, clock, utils).dateCreated == clock.now
  {
  }

  /** Two uploads that differ only in size give metadata that differs at most in its size field. */
  lemma SizeOnlyAffectsSize(e: Exif, size1: nat, size2: nat, clock: Clock, utils: Helpers)
    ensures Normalize(e, size1, clock, utils).(size := "") == Normalize(e, size2, clock, utils).(size := "")
  {
  }

  /** Without an Exif bag the record depends only on the file name and the clock. */
  lemma NoExifIgnoresSizeAndHelpers(u1: Upload, u2: Upload, clock: Clock, utils1: Helpers, utils2: Helpers)
    requires u1.filename == u2.filename
    ensures BuildPhoto(u1, None, clock, utils1) == BuildPhoto(u2, None, clock, utils2)
  {
  }
}
