/**
 * Values that the photo library (the Photos framework) hands to the app:
 * assets with their resource parts, the error codes of its requests and the
 * outcome of a change transaction. The library itself is not modelled; every
 * call into it becomes a parameter carrying its outcome.
 */
module PhotoLibrary {

  datatype Option<T> = None | Some(value: T)

  /** A byte buffer (`Data`). */
  type Bytes = seq<bv8>

  /** A `localIdentifier`. */
  type Id = string

  /** `PHAssetResourceType`. */
  datatype ResourceKind =
    | Photo
    | Video
    | Audio
    | AlternatePhoto
    | FullSizePhoto
    | FullSizeVideo
    | AdjustmentData
    | AdjustmentBasePhoto
    | PairedVideo
    | FullSizePairedVideo
    | AdjustmentBasePairedVideo
    | AdjustmentBaseVideo

  /** One `PHAssetResource` of an asset, with its `fileSize` in bytes. */
  datatype Resource = Resource(kind: ResourceKind, fileSize: nat)

  /** A `PHAsset`: its identifier and the resource parts the library reports for it. */
  datatype Asset = Asset(id: Id, resources: seq<Resource>)

  /** The `PHPhotosError` codes the app distinguishes. */
  datatype PhotosErrorCode = NetworkAccessRequired | UserCancelled | OtherPhotosError

  /**
   * The `Error?` a completion handler receives: none, an error that casts to
   * `PHPhotosError`, or an error of another domain (the cast fails).
   */
  datatype RequestError = NoError | PhotosError(code: PhotosErrorCode) | ForeignError

  /** The `(succeeded, error)` pair that ends a `performChanges` transaction. */
  datatype ChangeResult = Succeeded | Failed(error: RequestError)

  /** A `PHCollection` among the top-level user collections or an asset's albums. */
  datatype Album = Album(localId: Id, title: string, isAssetCollection: bool)

  /** The three boolean user defaults the core reads. */
  datatype Settings = Settings(includeIcloudImages: bool, deleteLivePhotos: bool, moveToAlbum: bool)
}
