/**
 * Image uploads to the S3-compatible object store: the settings read from
 * the environment, the guards of the storage object's construction, and the
 * checks, key and public URL of an upload. The store's `put_object` call is
 * an input: whether it stored the object or failed with a client error.
 */
module Storage {
  import opened Wrappers
  import opened Text

  const Endpoint: string := "https://storage.yandexcloud.net"

  /** 5 MiB. */
  const DefaultMaxImageSize: nat := 5 * 1024 * 1024

  /** `ALLOWED_IMAGE_EXTS`. */
  predicate AllowedExtension(ext: string)
  {
    ext == "png" || ext == "jpg" || ext == "jpeg" || ext == "webp"
  }
  const DisallowedContentTypes: set<string> := {"image/svg+xml"}

  /**
   * The environment the storage module reads when it is loaded (None: unset).
   * `maxImageSize` is the already-parsed `MAX_IMAGE_SIZE_BYTES`; `int()` accepts
   * a negative value, which then refuses every upload as too large.
   */
  datatype StorageEnv = StorageEnv(
    bucket: Option<string>,
    accessKey: Option<string>,
    secretKey: Option<string>,
    publicCdnUrl: Option<string>,
    maxImageSize: Option<int>)

  /** `PUBLIC_CDN_URL`: the override if set, else the bucket's address on the endpoint, else the endpoint. */
  function PublicCdnUrl(env: StorageEnv): (url: string)
    ensures IsSet(env.publicCdnUrl) ==> url == env.publicCdnUrl.value
    ensures !IsSet(env.publicCdnUrl) && IsSet(env.bucket) ==> url == Endpoint + "/" + env.bucket.value
    ensures !IsSet(env.publicCdnUrl) && !IsSet(env.bucket) ==> url == Endpoint
  {
    if IsSet(env.publicCdnUrl) then env.publicCdnUrl.value
    else if IsSet(env.bucket) then Endpoint + "/" + env.bucket.value
    else Endpoint
  }

  /** `MAX_IMAGE_SIZE_BYTES`: the configured cap, 5 MiB when unset. */
  function MaxImageSize(env: StorageEnv): (cap: int)
    ensures env.maxImageSize.None? ==> cap == 5_242_880
    ensures env.maxImageSize.Some? ==> cap == env.maxImageSize.value
  {
    if env.maxImageSize.Some? then env.maxImageSize.value else DefaultMaxImageSize
  }

  /** The first missing credential, in the order the constructor checks them. */
  function MissingSetting(env: StorageEnv): (r: Option<string>)
    ensures r.None? <==> IsSet(env.bucket) && IsSet(env.accessKey) && IsSet(env.secretKey)
    ensures !IsSet(env.bucket) ==> r == Some("S3_BUCKET is not set")
    ensures IsSet(env.bucket) && !IsSet(env.accessKey) ==> r == Some("S3_ACCESS_KEY is not set")
    ensures IsSet(env.bucket) && IsSet(env.accessKey) && !IsSet(env.secretKey)
            ==> r == Some("S3_SECRET_KEY is not set")
  {
    if !IsSet(env.bucket) then Some("S3_BUCKET is not set")
    else if !IsSet(env.accessKey) then Some("S3_ACCESS_KEY is not set")
    else if !IsSet(env.secretKey) then Some("S3_SECRET_KEY is not set")
    else None
  }

  /**
   * The file extension named by a content type: its last `/`-segment,
   * lower-cased and stripped, with `jpg` spelled `jpeg`.
   */
  function ImageExtension(contentType: string): (ext: string)
    ensures ext != "jpg"
    ensures Strip(Lower(AfterLast(contentType, '/'))) != "jpg" ==> ext == Strip(Lower(AfterLast(contentType, '/')))
    ensures Strip(Lower(AfterLast(contentType, '/'))) == "jpg" ==> ext == "jpeg"
  {
    var ext := Strip(Lower(AfterLast(contentType, '/')));
    if ext == "jpg" then "jpeg" else ext
  }

  /** Why an upload was refused. */
  datatype UploadError =
    | UnsupportedImageType  // `ValueError("Unsupported image type")`
    | ImageTooLarge         // `ValueError("Image too large")`
    | StoreFailed(error: string)  // `RuntimeError` carrying the store's error

  /**
   * The checks of `upload_image`, in order: a forbidden content type, then a
   * payload over the cap, then an extension outside the allow-list.
   * On success, the extension the key will carry.
   */
  function CheckUpload(size: nat, contentType: string, cap: int): (r: Result<string, UploadError>)
    ensures contentType in DisallowedContentTypes ==> r == Err(UnsupportedImageType)
    ensures contentType !in DisallowedContentTypes && size > cap ==> r == Err(ImageTooLarge)
    ensures contentType !in DisallowedContentTypes && size <= cap
            && !AllowedExtension(ImageExtension(contentType))
            ==> r == Err(UnsupportedImageType)
    ensures r.Ok? <==> contentType !in DisallowedContentTypes && size <= cap
                       && AllowedExtension(ImageExtension(contentType))
    ensures r.Ok? ==> r.value == ImageExtension(contentType)
    ensures r.Ok? ==> r.value == "png" || r.value == "jpeg" || r.value == "webp"
    ensures r.Err? ==> !r.error.StoreFailed?
  {
    if contentType in DisallowedContentTypes then Err(UnsupportedImageType)
    else if size > cap then Err(ImageTooLarge)
    else
      var ext := ImageExtension(contentType);
      if !AllowedExtension(ext) then Err(UnsupportedImageType)
      else Ok(ext)
  }

  /** `images/<uuid>.<ext>`. */
  function ObjectKey(uuid: string, ext: string): (key: string)
    ensures |key| == |"images/"| + |uuid| + 1 + |ext|
    ensures key[..7] == "images/" && key[7..7 + |uuid|] == uuid
    ensures key[7 + |uuid|] == '.' && key[8 + |uuid|..] == ext
  {
    "images/" + uuid + "." + ext
  }

  /** The `put_object` call: the object is stored publicly readable. */
  datatype PutRequest = PutRequest(
    bucket: string, key: string, body: seq<bv8>, contentType: string, acl: string)

  /** What `put_object` did. */
  datatype PutOutcome = Stored | ClientError(error: string)

  class ImageStorage {
    const bucket: string
    const accessKey: string
    const secretKey: string
    const publicCdnUrl: string
    const maxImageSize: int

    /** Builds the store client; the caller has checked that all three credentials are set. */
    constructor (env: StorageEnv)
      requires MissingSetting(env).None?
      ensures bucket == env.bucket.value && accessKey == env.accessKey.value
      ensures secretKey == env.secretKey.value
      ensures publicCdnUrl == PublicCdnUrl(env) && maxImageSize == MaxImageSize(env)
    {
      bucket := env.bucket.value;
      accessKey := env.accessKey.value;
      secretKey := env.secretKey.value;
      publicCdnUrl := PublicCdnUrl(env);
      maxImageSize := MaxImageSize(env);
    }

    /**
     * `upload_image`. Returns the public URL or the error, and the request
     * sent to the store (None when a check refused the upload first).
     */
    method UploadImage(fileBytes: seq<bv8>, contentType: string, uuid: string, outcome: PutOutcome)
      returns (r: Result<string, UploadError>, sent: Option<PutRequest>)
      ensures sent.None? <==> CheckUpload(|fileBytes|, contentType, maxImageSize).Err?
      ensures sent.None? ==> r == Err(CheckUpload(|fileBytes|, contentType, maxImageSize).error)
      ensures sent.Some? ==>
        var key := ObjectKey(uuid, ImageExtension(contentType));
        && sent.value == PutRequest(bucket, key, fileBytes, contentType, "public-read")
        && (outcome.Stored? ==> r == Ok(publicCdnUrl + "/" + key))
        && (outcome.ClientError? ==> r == Err(StoreFailed(outcome.error)))
    {
      var check := CheckUpload(|fileBytes|, contentType, maxImageSize);
      if check.Err? {
        return Err(check.error), None;
      }
      var key := ObjectKey(uuid, check.value);
      sent := Some(PutRequest(bucket, key, fileBytes, contentType, "public-read"));
      match outcome {
        case ClientError(e) =>
          r := Err(StoreFailed(e));
        case Stored =>
          r := Ok(publicCdnUrl + "/" + key);
      }
    }
  }

  /**
   * `ImageStorage()`: fails with the first missing credential, in the order
   * bucket, access key, secret key.
   */
  method OpenImageStorage(env: StorageEnv) returns (r: Result<ImageStorage, string>)
    ensures r.Err? <==> MissingSetting(env).Some?
    ensures r.Err? ==> r.error == MissingSetting(env).value
    ensures r.Ok? ==> fresh(r.value) && r.value.bucket == env.bucket.value
                      && r.value.publicCdnUrl == PublicCdnUrl(env)
                      && r.value.maxImageSize == MaxImageSize(env)
  {
    var missing := MissingSetting(env);
    if missing.Some? {
      return Err(missing.value);
    }
    var storage := new ImageStorage(env);
    r := Ok(storage);
  }

  /** A payload of exactly the cap is accepted; one byte more is refused. */
  lemma CapIsInclusive(cap: nat)
    ensures CheckUpload(cap, "image/png", cap) == Ok("png")
    ensures CheckUpload(cap + 1, "image/png", cap) == Err(ImageTooLarge)
  {
    PngExtension();
  }

  /** A negative cap refuses every allowed upload as too large, even an empty one. */
  lemma NegativeCapRefusesAll(size: nat, contentType: string, cap: int)
    requires cap < 0 && contentType !in DisallowedContentTypes
    ensures CheckUpload(size, contentType, cap) == Err(ImageTooLarge)
  {
  }

  /** The content type is rejected before its size is looked at. */
  lemma SvgRejectedBeforeSize(size: nat, cap: int)
    ensures CheckUpload(size, "image/svg+xml", cap) == Err(UnsupportedImageType)
  {
  }

  lemma PngExtension()
    ensures ImageExtension("image/png") == "png"
  {
    assert "image/png" == "image" + ['/'] + "png";
    AfterLastAt("image", '/', "png");
    LowerOfLowerAscii("png");
    StripStripped("png");
  }

  /** `image/jpg` is stored with the extension `jpeg`. */
  lemma JpgBecomesJpeg()
    ensures ImageExtension("image/jpg") == "jpeg"
  {
    assert "image/jpg" == "image" + ['/'] + "jpg";
    AfterLastAt("image", '/', "jpg");
    LowerOfLowerAscii("jpg");
    StripStripped("jpg");
  }

  /** An upload declared as `image/jpg` within the cap is accepted under the extension `jpeg`. */
  lemma JpgAccepted(size: nat, cap: nat)
    requires size <= cap
    ensures CheckUpload(size, "image/jpg", cap) == Ok("jpeg")
  {
    JpgBecomesJpeg();
  }
}
