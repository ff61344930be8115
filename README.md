# LivePhotoCleaner core, modelled in Dafny

LivePhotoCleaner is an iOS app. It lets a user pick Live Photos and replaces each one with a plain
still-image copy, then deletes the originals so that their paired videos no longer take space.
This project models the two classes that hold the app's logic:

- **`PhotoDuplicator`**, the batch duplication engine.
  - It queues the selection in reverse and takes blocks of at most 25 from the tail of the queue.
  - For each block it builds the completeness map `imageCleanData`. Each asset's entry has one part per
    tracked resource KIND (photo, full-size photo, adjustment data) among its resources.
  - It issues one data request per tracked RESOURCE, appends streamed chunks to the part of the
    resource's kind and marks parts complete. Two resources of one kind therefore share one part.
  - Once every part of the block is complete, it issues one creation transaction for the block.
  - After the last block it deletes the originals, or tells its owner that it finished without deleting.
- **`ImageModel`**, the selection and ledger bookkeeping.
  - It keeps two display lists, plain and edited Live Photos, each item with a `selected` flag.
  - `selectedImages` collects what the user picked; two counters follow the picks, and the freed space is
    the sum of the paired-video bytes of the selection.
  - `allAssets` is the asset lookup table. The ledger file records already duplicated ids, one per line;
    its ids are hidden from later scans.
  - It reacts to library changes.

Modules:

- `PhotoLibrary` (`photo_library.dfy`): the values the Photos framework hands over. These are assets
  with their resource parts, error codes and the outcome of a change transaction.
- `AlertTypes` (`alert_types.dfy`): the engine's alert kinds.
- `CleanData` (`clean_data.dfy`): the value side of the engine. It holds the tracked kinds, the
  prepared map, the request list, chunk and completion updates, the cut into blocks and the creation
  payload, with the lemmas about them.
- `Duplicator` (`photo_duplicator.dfy`): the class `PhotoDuplicator`.
  - Its fields are the queue, the duplicated assets, the map and the current block.
  - Every call into the library becomes a parameter that carries its outcome.
  - Every data request is recorded in `requests`, and its two callbacks are the methods `DataReceived`
    and `RequestCompleted`.
  - Every change transaction is appended to `changes`.
  - Every call of the owner's progress, alert and completion handlers is appended to `events`.
- `Ledger` (`ledger.dfy`): the ledger text format. A batch is written as each id followed by a newline;
  the file is read back by splitting on newlines. The module proves the round trips.
- `ImageLists` (`image_lists.dfy`): the display record, the list filters (`removeAll(where:)`), the
  candidate scan, the lookup table, the selected assets and the freed-space byte sum.
- `Images` (`image_model.dfy`): the class `ImageModel`.
  - A fetch result is an `Option<seq<Asset>>`, and a library change is an `Option<ChangeDetails>`.
  - The ledger file is the string field `ledger`.
  - Work dispatched to the main queue runs at once, in program order.

The model follows the code, including these behaviours:

- **`shouldContinue`.** The flag is a local variable of `loadAssetData`. Every request is issued before
  any completion arrives, so clearing it (the cloud-error branch) stops nothing and later completions are
  still handled. `RequestCompleted` models this.
- **Non-Photos errors.** A completion whose error does not cast to `PHPhotosError` takes the success
  branch and marks its part complete (`ForeignError`).
- **Deleting the originals.** The deletion is a separate transaction after the last block has been
  created, not part of the creation transaction.
- **`selectAllImages(of:)`** behaves as follows:
  - It clears the flag at the loop index of `selectedImages`, which is not the copy it just appended
    unless the selection was empty when select-all began.
  - It appends items that are already selected again, so `selectedImages` can hold duplicates.
  - It stops only once the running sum exceeds 250. Starting from 0, it therefore appends up to 251 items
    (`SelectAllCount`).
  - `selectAllImages()` does not update the plain counter.
- **`handleDuplicationProgress`** writes the ids to the ledger file. It does not add them to the
  in-memory ledger set, and it does not remove them from `selectedImages`.

## Model

| member | source | states |
|---|---|---|
| CleanData.ValidType | LivePhotoCleaner/PhotoDuplicator.swift:296-302 | the tracked kinds are the photo, the full-size photo and the adjustment data; every other kind is skipped |
| CleanData.EmptyEntry | LivePhotoCleaner/PhotoDuplicator.swift:95-101 | an asset's entry has exactly the tracked kinds (photo, full-size photo, adjustment data) of its resources, each with no data and not complete |
| CleanData.Prepared | LivePhotoCleaner/PhotoDuplicator.swift:86-103 | the map built asset by asset, a later asset with the same id replacing the earlier entry; its properties are stated by PreparedShape and PreparedEntries |
| CleanData.PreparedShape | LivePhotoCleaner/PhotoDuplicator.swift:86-103 | the prepared map has one entry per asset id of the block; every part is of a tracked kind, empty and incomplete; each entry is the empty entry of an asset with that id |
| CleanData.PreparedEntries | LivePhotoCleaner/PhotoDuplicator.swift:86-103 | when ids identify assets, each asset of the block finds its own empty entry in the map |
| CleanData.PartRequests | LivePhotoCleaner/PhotoDuplicator.swift:112-121 | one request per resource of a tracked kind, in resource order, carrying the asset's id and the network flag; its properties are stated by PartRequestsAre |
| CleanData.BlockRequests | LivePhotoCleaner/PhotoDuplicator.swift:105-121 | the requests issued for a block, asset by asset and part by part; its properties are stated by PartRequestsAre, EveryEntryRequested and EveryRequestHasEntry |
| CleanData.PartRequestsAre | LivePhotoCleaner/PhotoDuplicator.swift:112-121 | a request for an asset appears exactly when its kind is the kind of one of the asset's tracked resources, and it carries the network flag of the settings; the loop issues one request per tracked resource, so two resources of one kind give two equal requests |
| CleanData.EveryEntryRequested | LivePhotoCleaner/PhotoDuplicator.swift:105-121 | every part of the prepared map has a data request issued for it |
| CleanData.EveryRequestHasEntry | LivePhotoCleaner/PhotoDuplicator.swift:105-121 | when ids identify assets, every issued request targets a part of the prepared map |
| CleanData.AppendChunk | LivePhotoCleaner/PhotoDuplicator.swift:122-124 | a chunk is appended to its own part only; shape and completion flags are unchanged; a chunk for a missing entry changes nothing |
| CleanData.MarkComplete | LivePhotoCleaner/PhotoDuplicator.swift:136-136 | a successful completion sets the flag of its own part, if that part exists; its properties are stated by MarkCompleteSetsOne |
| CleanData.MarkCompleteSetsOne | LivePhotoCleaner/PhotoDuplicator.swift:134-136 | a successful completion keeps the shape and all data and sets exactly its own part's flag |
| CleanData.AllComplete | LivePhotoCleaner/PhotoDuplicator.swift:146-158 | the map is complete when no part of any asset is incomplete; CompleteAfter and BlockCompletes state when that happens |
| CleanData.CompleteAfter | LivePhotoCleaner/PhotoDuplicator.swift:134-158 | after a series of successful completions the map is complete if and only if every part was complete already or was completed by one of them |
| CleanData.BlockCompletes | LivePhotoCleaner/PhotoDuplicator.swift:105-158 | a prepared block becomes complete once all its requests succeed, and only a series of completions covering every part completes it |
| CleanData.Blocks | LivePhotoCleaner/PhotoDuplicator.swift:69-76 | the blocks repeated calls of startDuplication take from the tail of the queue; BlocksPartition and BlockSizes state what they are |
| CleanData.BlocksPartition | LivePhotoCleaner/PhotoDuplicator.swift:69-76 | the blocks taken from the tail of the queue partition the queue: put back together they give the queue, with the same multiset of assets |
| CleanData.BlockSizes | LivePhotoCleaner/PhotoDuplicator.swift:18-18 | there are ceil(n/25) blocks; none is empty, none exceeds 25, and all but the last hold exactly 25 |
| CleanData.FiftySevenAssets | LivePhotoCleaner/PhotoDuplicator.swift:69-76 | 57 queued assets are taken as blocks of 25, 25 and 7 |
| CleanData.CreationFor | LivePhotoCleaner/PhotoDuplicator.swift:179-198 | the creation payload of one entry: the photo part's data, or no data when the entry has no photo part; the full-size photo and the adjustment data only when the entry has those parts; CreationForChunk states that it carries the streamed chunks |
| CleanData.CreationForChunk | LivePhotoCleaner/PhotoDuplicator.swift:122-124 | a chunk streamed into one tracked part extends exactly that part's field of the creation payload, and a chunk for an untracked or missing part leaves the payload unchanged |
| CleanData.Creations | LivePhotoCleaner/PhotoDuplicator.swift:178-216 | every creation request comes from an asset of the block that has an entry and carries that entry's photo, full-size photo and adjustment data; when every asset has an entry there is one request per asset, in block order; CreationsOne and CreationsConcat fix the payload for any map |
| CleanData.CreationsOne | LivePhotoCleaner/PhotoDuplicator.swift:178-180 | one asset gives its creation request exactly when it has an entry, and nothing otherwise |
| CleanData.CreationsConcat | LivePhotoCleaner/PhotoDuplicator.swift:178-216 | the payload of a block is the payloads of its parts in block order |
| CleanData.CreationsSkipsMissing | LivePhotoCleaner/PhotoDuplicator.swift:178-180 | an asset without an entry is skipped: of two assets only the one with an entry gives a request |
| Duplicator.Reversed | LivePhotoCleaner/PhotoDuplicator.swift:56-56 | the queue is the selection reversed, position by position |
| Duplicator.ReversedTail | LivePhotoCleaner/PhotoDuplicator.swift:56-56 | the last k items of the reversed selection are its first k items, reversed |
| Duplicator.FirstBlockOfSelection | LivePhotoCleaner/PhotoDuplicator.swift:52-76 | the first block processed holds the first 25 selected assets (or all, if fewer), in reverse |
| Duplicator.IdsOf | LivePhotoCleaner/PhotoDuplicator.swift:231 | the ids the progress handler gets for a block; IdsOfMembers states them |
| Duplicator.IdsOfMembers | LivePhotoCleaner/PhotoDuplicator.swift:231 | the reported ids are one per asset of the block, and exactly the block's ids |
| Duplicator.FailureAlert | LivePhotoCleaner/PhotoDuplicator.swift:222-225 | a failed transaction raises at most one alert, and raises one exactly when its error is a Photos error |
| Duplicator.EndOfRunChanges | LivePhotoCleaner/PhotoDuplicator.swift:237-239 | the end of a run writes to the library exactly when deletion is enabled, and then only the deletion of all duplicated assets |
| Duplicator.EndOfRunEvents | LivePhotoCleaner/PhotoDuplicator.swift:232-252 | after the last block: the finished-without-delete alert when deletion is off, else completion on success, or the deletion alert for a Photos error; DidDuplicate states when these are sent |
| Duplicator.PhotoDuplicator.constructor | LivePhotoCleaner/PhotoDuplicator.swift:19-37 | an engine starts with an empty queue, no duplicated assets, an empty map, and cloud errors not ignored |
| Duplicator.PhotoDuplicator.SetAssets | LivePhotoCleaner/PhotoDuplicator.swift:52-57 | the queue becomes the selection reversed; the map and the duplicated assets are emptied |
| Duplicator.PhotoDuplicator.StartDuplication | LivePhotoCleaner/PhotoDuplicator.swift:64-83 | the block is the tail of at most 25 of the queue, which shrinks by exactly it and goes on with the remaining blocks; the map is prepared for the block and its requests are issued |
| Duplicator.PhotoDuplicator.PrepareImageCleanData | LivePhotoCleaner/PhotoDuplicator.swift:86-103 | the map becomes the prepared map of the assets |
| Duplicator.PhotoDuplicator.LoadAssetData | LivePhotoCleaner/PhotoDuplicator.swift:105-121 | the requests issued are exactly those of the block, asset by asset and part by part, with the given network flag |
| Duplicator.PhotoDuplicator.DataReceived | LivePhotoCleaner/PhotoDuplicator.swift:122-124 | a received chunk is appended to its part of the map |
| Duplicator.PhotoDuplicator.RequestCompleted | LivePhotoCleaner/PhotoDuplicator.swift:125-141 | a Photos error leaves the map as it is and, for "network access required" when cloud errors are not ignored, raises the cloud alert; otherwise the part is marked complete, and the creation transaction for the block is issued if and only if the map is then complete; no library change is made before that; a committed block leaves the whole new state stated: on failure only the alert and the transaction, on success the block reported and either the next block taken from the queue, prepared and requested, or the end-of-run deletion and events |
| Duplicator.PhotoDuplicator.CreateNewAssets | LivePhotoCleaner/PhotoDuplicator.swift:161-228 | one creation transaction carrying the block's creation requests; on success the block joins the duplicated assets and the next block starts, or, with the queue empty, the end-of-run transactions and events follow, the queue stays empty and the map is emptied when deleting; on failure a Photos error raises the creation alert and nothing else changes |
| Duplicator.PhotoDuplicator.DidDuplicate | LivePhotoCleaner/PhotoDuplicator.swift:230-256 | the block's ids are reported; with assets left the next block is started; otherwise the duplicated assets are deleted when deletion is enabled (completion, or a deletion alert for a Photos error) or the finished-without-delete alert is raised |
| Duplicator.PhotoDuplicator.GetAlbumList | LivePhotoCleaner/PhotoDuplicator.swift:264-281 | the albums of an asset are exactly the user albums and smart albums holding it, each once |
| Duplicator.PhotoDuplicator.GetLPCAlbum | LivePhotoCleaner/PhotoDuplicator.swift:283-293 | the first top-level collection titled "Live Photo Cleaner" decides: it is the result if it is an album, and none if it is a folder; without one, none |
| Ledger.Encode | LivePhotoCleaner/ImageModel.swift:395-399 | a batch written as each id followed by a newline; Lines, SplitEncode and DecodeEncode state its properties |
| Ledger.Split | LivePhotoCleaner/ImageModel.swift:128-128 | splitting on newlines gives at least one piece, and at least two when the text holds a newline |
| Ledger.Decode | LivePhotoCleaner/ImageModel.swift:126-130 | the ids read back from a ledger text: its pieces, as a set; DecodeEncode and AppendBatch state the round trips |
| Ledger.SplitPieces | LivePhotoCleaner/ImageModel.swift:128-128 | no piece of a split text contains a newline |
| Ledger.JoinSplit | LivePhotoCleaner/ImageModel.swift:128-128 | splitting on newlines loses nothing: joining the pieces gives the text back |
| Ledger.SplitJoin | LivePhotoCleaner/ImageModel.swift:128-128 | pieces without newlines, joined and split again, are the same pieces |
| Ledger.SplitEncode | LivePhotoCleaner/ImageModel.swift:395-399 | a written batch of ids without a newline splits into its ids followed by one empty piece |
| Ledger.DecodeEncode | LivePhotoCleaner/ImageModel.swift:126-130 | reading back a written batch of ids without a newline yields its ids and the empty id left by the trailing newline |
| Ledger.EncodeConcat | LivePhotoCleaner/ImageModel.swift:395-399 | writing two batches writes the same text as writing their concatenation |
| Ledger.SplitAfterNewline | LivePhotoCleaner/ImageModel.swift:401-404 | appending to a text that ends a line keeps its complete lines |
| Ledger.AppendBatch | LivePhotoCleaner/ImageModel.swift:395-404 | appending a batch of ids without a newline to a ledger of whole lines adds exactly the batch's ids to the set read back |
| Ledger.ReappendIsIdempotent | LivePhotoCleaner/ImageModel.swift:395-404 | writing the same batch of ids without a newline twice reads back the same set as writing it once |
| ImageLists.FirstIndex | LivePhotoCleaner/ImageModel.swift:136-136 | the index of the first item with the id, and none if and only if no item has it |
| ImageLists.Drop | LivePhotoCleaner/ImageModel.swift:409-410 | removal by ids never lengthens a list; DropMembers, DropNothing, DropConcat and DropDrop state what it keeps |
| ImageLists.Within | LivePhotoCleaner/ImageModel.swift:202-204 | pruning to ids never lengthens a list; WithinMembers states what it keeps |
| ImageLists.DropMembers | LivePhotoCleaner/ImageModel.swift:409-410 | removing by ids keeps exactly the items whose id is not among them |
| ImageLists.WithinMembers | LivePhotoCleaner/ImageModel.swift:202-204 | pruning to ids keeps exactly the items whose id is among them |
| ImageLists.DropNothing | LivePhotoCleaner/ImageModel.swift:82-82 | removing ids no item carries leaves the list unchanged |
| ImageLists.DropConcat | LivePhotoCleaner/ImageModel.swift:138-138 | removal keeps the order: it distributes over concatenation |
| ImageLists.DropDrop | LivePhotoCleaner/ImageModel.swift:407-415 | removing ids one batch after another removes their union |
| ImageLists.CountToggle | LivePhotoCleaner/ImageModel.swift:153-153 | toggling one item moves the number of selected items by one, in the direction of the flag |
| ImageLists.CountNone | LivePhotoCleaner/ImageModel.swift:83-85 | a list with no flag set counts no selection |
| ImageLists.NotInLedger | LivePhotoCleaner/ImageModel.swift:193-198 | the scan never yields more assets than were fetched; NotInLedgerMembers states which it keeps |
| ImageLists.NotInLedgerMembers | LivePhotoCleaner/ImageModel.swift:193-198 | the scan keeps exactly the fetched assets whose id is not in the ledger set |
| ImageLists.AssetMap | LivePhotoCleaner/ImageModel.swift:218-229 | the lookup table filled in order, a later asset winning; AssetMapEntries states its keys and values |
| ImageLists.AssetMapEntries | LivePhotoCleaner/ImageModel.swift:218-229 | the lookup table holds exactly the candidates' ids, each mapped to a candidate with that id |
| ImageLists.ScanOffers | LivePhotoCleaner/ImageModel.swift:174-229 | after a scan no ledger id is in the lookup table, and every item left in a pruned list has an entry in it |
| ImageLists.AddInserted | LivePhotoCleaner/ImageModel.swift:539-552 | inserted assets not in the ledger set are entered into the table, each under its own id and mapped to an inserted asset; every other entry keeps its value, ledger ids keep their entries and no new key is a ledger id |
| ImageLists.SelectedAssets | LivePhotoCleaner/ImageModel.swift:234-243 | the assets of the selection, in order; every one belongs to a selected id, and all are there when every id is known |
| ImageLists.SelectedAssetsConcat | LivePhotoCleaner/ImageModel.swift:237-241 | selection order is kept: the assets of two selections are those of each in turn |
| ImageLists.IsFreedKind | LivePhotoCleaner/ImageModel.swift:475 | the paired video, full-size paired video and adjustment-base paired video are the kinds whose bytes count as freed; FreedKindsNotCopied states they are never copied |
| ImageLists.FreedKindsNotCopied | LivePhotoCleaner/ImageModel.swift:475 | no kind counted as freed is one of the kinds the duplicator copies |
| ImageLists.PairedVideoSize | LivePhotoCleaner/ImageModel.swift:474-478 | an asset without paired-video resources frees nothing |
| ImageLists.PairedVideoSizeOne | LivePhotoCleaner/ImageModel.swift:475-476 | one resource adds its file size when it is a paired video, full-size paired video or adjustment-base paired video, and nothing otherwise |
| ImageLists.PairedVideoSizeConcat | LivePhotoCleaner/ImageModel.swift:474-478 | an asset's paired-video size is the sum over its resources |
| ImageLists.PairedVideoExample | LivePhotoCleaner/ImageModel.swift:474-478 | a photo of 4000000 bytes with a 1 MiB paired video and a 2 MiB full-size paired video frees exactly 3 MiB |
| ImageLists.FreedBytes | LivePhotoCleaner/ImageModel.swift:472-480 | the byte sum over the selection; FreedBytesOne, FreedBytesConcat and FreedBytesOnlyPairedVideo state its properties |
| ImageLists.FreedBytesOne | LivePhotoCleaner/ImageModel.swift:473-479 | one selected image frees its asset's paired-video bytes, or nothing when its id is not in the table |
| ImageLists.FreedBytesConcat | LivePhotoCleaner/ImageModel.swift:472-480 | the freed bytes of a selection are the sum over its parts |
| ImageLists.FreedBytesOnlyPairedVideo | LivePhotoCleaner/ImageModel.swift:472-480 | only paired-video resources count: a selection without them frees nothing |
| Images.Toggled | LivePhotoCleaner/ImageModel.swift:135-155 | a tap flips the first item with the id and leaves every other item, including later items with the same id, as it was; with no such item the list is unchanged; the selected count moves by the counter delta |
| Images.CounterDelta | LivePhotoCleaner/ImageModel.swift:136-151 | a tap moves the counter of the tapped list by at most one, and not at all exactly when no item has the tapped id |
| Images.SelectionAfterTap | LivePhotoCleaner/ImageModel.swift:136-151 | the selection after a tap: every entry of the id removed when the first item was selected, the item appended when it was not, unchanged when the id is absent; TapIn and TapTwice state its use |
| Images.TapTwice | LivePhotoCleaner/ImageModel.swift:135-155 | tapping an unselected image twice restores the list, the selection and the counter, when the selection holds no entry of its id |
| Images.FirstIndexSameIds | LivePhotoCleaner/ImageModel.swift:136-136 | finding an id looks only at the ids, not at the flags |
| Images.SelectAllCount | LivePhotoCleaner/ImageModel.swift:89-93 | select-all appends at most the whole list; it appends an item only while the running sum is at most 250, and stops early only once the sum exceeds 250 |
| Images.ClearFlags | LivePhotoCleaner/ImageModel.swift:97-97 | clearing flags keeps the length and the ids |
| Images.ClearFlagsStep | LivePhotoCleaner/ImageModel.swift:94-97 | one select-all step (append, then clear the flag at the loop index) extends the cleared prefix by one |
| Images.UnselectAll | LivePhotoCleaner/ImageModel.swift:83-85 | every item is unselected, ids and order kept, so nothing in the list is selected |
| Images.Lines | LivePhotoCleaner/ImageModel.swift:395-399 | the text built is the batch encoding: each id followed by a newline |
| Images.ImageModel.constructor | LivePhotoCleaner/ImageModel.swift:44-55 | the ledger set is what the ledger text reads back; the lists and counters start empty; the lookup table holds the fetched assets not in the ledger |
| Images.ImageModel.ReadAlreadyDuplicatedImages | LivePhotoCleaner/ImageModel.swift:114-133 | the ledger set gains every piece of the ledger text |
| Images.ImageModel.TapIn | LivePhotoCleaner/ImageModel.swift:135-155 | the first item with the id is toggled; the selection gains it or loses every entry of its id; only the matching counter moves, and it keeps its distance to the list's selected count |
| Images.ImageModel.ImageTapped | LivePhotoCleaner/ImageModel.swift:106-110 | the tap goes to the edited list, then the plain list; both counters follow, and the freed space is that of the new selection |
| Images.ImageModel.DeselectAllIn | LivePhotoCleaner/ImageModel.swift:80-86 | the list's ids leave the selection and every item of the list is unselected |
| Images.ImageModel.DeselectAllImages | LivePhotoCleaner/ImageModel.swift:64-66 | the plain list is unselected and its ids leave the selection |
| Images.ImageModel.DeselectAllEditedImages | LivePhotoCleaner/ImageModel.swift:74-77 | the edited list is unselected, its ids leave the selection and the edited counter is zero |
| Images.ImageModel.SelectAllIn | LivePhotoCleaner/ImageModel.swift:88-103 | the first n items (n from the 250 limit) are selected and appended to the selection, with the flags of the selection's first n positions cleared; the freed space follows |
| Images.ImageModel.SelectAllImages | LivePhotoCleaner/ImageModel.swift:60-62 | select-all on the plain list; the plain counter is not updated |
| Images.ImageModel.SelectAllEditedImages | LivePhotoCleaner/ImageModel.swift:69-72 | select-all on the edited list; the edited counter becomes the list's length |
| Images.ImageModel.Reset | LivePhotoCleaner/ImageModel.swift:158-169 | both lists are unselected, the selection is emptied and the edited counter is zero |
| Images.ImageModel.FetchAllPhotos | LivePhotoCleaner/ImageModel.swift:174-232 | the lookup table is rebuilt from the fetched assets not in the ledger set, the three lists are pruned to those ids, and a failed fetch leaves the table empty |
| Images.ImageModel.PruneLists | LivePhotoCleaner/ImageModel.swift:201-205 | each list keeps the items whose id is a candidate |
| Images.ImageModel.EnterAssets | LivePhotoCleaner/ImageModel.swift:218-229 | the emptied table receives every candidate, in order |
| Images.ImageModel.ScanCandidates | LivePhotoCleaner/ImageModel.swift:191-198 | the candidates are the fetched assets not in the ledger set, with their ids |
| Images.ImageModel.GetAssetsOfSelectedImages | LivePhotoCleaner/ImageModel.swift:234-243 | the assets of the selection, in order, skipping unknown ids |
| Images.ImageModel.CalculateFreedSpace | LivePhotoCleaner/ImageModel.swift:468-486 | the nested loop leaves in the freed space the paired-video bytes of every selected asset that is in the table, summed |
| Images.ImageModel.HandleDuplicationProgress | LivePhotoCleaner/ImageModel.swift:387-416 | the batch is appended to the ledger, one id per line, and read back the ledger gains exactly those ids; they leave both lists and both tables |
| Images.ImageModel.ForgetIds | LivePhotoCleaner/ImageModel.swift:407-415 | the reported ids leave both lists, the index table and the lookup table |
| Images.ImageModel.ForgetId | LivePhotoCleaner/ImageModel.swift:409-413 | one reported id leaves both lists and both tables |
| Images.ImageModel.AddInsertedAssets | LivePhotoCleaner/ImageModel.swift:539-552 | while fetching is allowed, inserted assets not in the ledger set enter the table; otherwise nothing changes |
| Images.ImageModel.PurgeRemoved | LivePhotoCleaner/ImageModel.swift:559-572 | removed ids leave the three lists, both tables and the ledger set |
| Images.ImageModel.PurgeId | LivePhotoCleaner/ImageModel.swift:562-570 | one removed id leaves the three lists, both tables and the ledger set |
| Images.ImageModel.PhotoLibraryDidChange | LivePhotoCleaner/ImageModel.swift:519-584 | ignored before the first fetch or without change details; otherwise inserted assets are entered, removed ones are gone from every list and table, an empty change rescans, and the fetch result after the change is kept; no entered id is a ledger id |
| Images.ImageModel.ApplyEdits | LivePhotoCleaner/ImageModel.swift:531-572 | the inserted and removed branches together; an empty change alters nothing |
| Images.Unchanged | LivePhotoCleaner/ImageModel.swift:574-576 | a change that lists no removed, changed or inserted object; PhotoLibraryDidChange rescans the library exactly then |

## Left out

- User interface, thumbnails and alert texts are not modelled. This covers `requestImage`, `createAndAddImage`, the `alert` item and `handleDuplicationAlert`. Because `createAndAddImage` is left out, nothing fills the lists or `imageIndexInformation`; the model takes both as state and models only how the core removes entries from them.
- The cloud-reload action of the iCloud alert is not modelled. It sets `fetchAllowed` to false, cancels the image requests, empties the lists and fetches again. `fetchAllowed` is a field, and `AddInsertedAssets` honours it.
- `handleCloudDownloadProgress`, `didShowiCloudAlertError` and `activeRequests` are not modelled: they only drive alerts and request cancellation.
- `deleteSelectedLivePhotos`, `deleteApproved`, `handleDuplicationCompletion` and `createLPCAlbumIfNotPresent` are not modelled. They are glue between the view, the engine and the library: `GetAssetsOfSelectedImages`, `SetAssets`, `StartDuplication` and `Reset` model the calls they make.
- The creation payload leaves out two things. One is the album links: each copy is added to the albums of its original and, when "move to album" is set, to the "Live Photo Cleaner" album. The other is the adjustment data's format identifier. `GetAlbumList` and `GetLPCAlbum` model the lookups.
- Files are not modelled. The ledger is the string field `ledger`, and opening or reading the file cannot fail in the model. Reading decodes text as UTF-8 in the app; the model works on characters.
- Images.ImageModel.CalculateFreedSpace: the freed space is kept in bytes as a `nat`, without the division by 1024 * 1024 and the rounding to two decimals (floating point), and the computation runs at once instead of on a background queue.
- Concurrency is not modelled. This covers the main-queue and background dispatch, and completion handlers that arrive for an earlier block after a new block started. Library callbacks are methods called one at a time.
- Guards that cannot fire in a sequential run are dropped. These are the `duplicationBlockSize < 1` branch (the size is the constant 25), the `shouldContinue` check in the issuing loop (set just before, only cleared by a later callback) and the `fetchAllowed` check in the `fetchAllPhotos` loop (set just before).
- Duplicator.PhotoDuplicator.LoadAssetData: the `isNetworkAccessAllowed` setting is passed in rather than read from the user defaults.
- Images.ImageModel.constructor: registering as a library observer and wiring the engine's handlers are not modelled; the ledger text and the first fetch result are parameters.
