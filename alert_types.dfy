/** The alert kinds the duplication engine reports to its owner. */
module AlertTypes {

  datatype PhotoDuplicatorAlertType =
    | UnableToLoadCloudAssetData
    | DidFinishDuplicateWithoutDelete
    | AssetCreationError
    | AssetDeletionError
}
