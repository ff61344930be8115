/**
 * The batch duplication engine. It takes the selected assets, cuts the queue
 * into blocks of at most 25, requests the tracked resource data of a block,
 * and once every tracked part has arrived issues one change transaction that
 * creates still-image copies. After the last block it deletes the originals,
 * or tells its owner that it finished without deleting.
 *
 * The photo library is not modelled: each data request is recorded in
 * `requests` and its callbacks are the methods `DataReceived` and
 * `RequestCompleted`; each `performChanges` transaction is recorded in
 * `changes` and its outcome is a parameter. The three callbacks to the owner
 * (progress, alert, completion) are appended to `events`.
 */
module Duplicator {
  import opened PhotoLibrary
  import opened AlertTypes
  import opened CleanData

  /** `Constants.lpcAlbumName`. */
  const LpcAlbumName: string := "Live Photo Cleaner"

  /** A call of one of the owner's handlers. */
  datatype Event =
    | Progress(ids: seq<Id>)
    | Alert(kind: PhotoDuplicatorAlertType, error: Option<PhotosErrorCode>)
    | Completed

  /** A `performChanges` transaction issued by the engine. */
  datatype LibraryChange =
    | CreateCopies(creations: seq<CreationRequest>)
    | DeleteAssets(assets: seq<Asset>)

  /** `assets.reversed()`. */
  function Reversed<T>(s: seq<T>): (r: seq<T>)
    ensures |r| == |s|
    ensures forall i :: 0 <= i < |s| ==> r[i] == s[|s| - 1 - i]
  {
    if s == [] then [] else Reversed(s[1..]) + [s[0]]
  }

  /** `block.map { $0.localIdentifier }`. */
  function IdsOf(assets: seq<Asset>): seq<Id>
  {
    seq(|assets|, i requires 0 <= i < |assets| => assets[i].id)
  }

  /** The reported ids are exactly the block's ids, one per asset. */
  lemma IdsOfMembers(assets: seq<Asset>)
    ensures |IdsOf(assets)| == |assets|
    ensures forall a :: a in assets ==> a.id in IdsOf(assets)
    ensures forall x :: x in IdsOf(assets) ==> exists a :: a in assets && a.id == x
  {
    forall a | a in assets
      ensures a.id in IdsOf(assets)
    {
      var i :| 0 <= i < |assets| && assets[i] == a;
      assert IdsOf(assets)[i] == a.id;
    }
  }

  /** The alert a failed transaction raises: only when its error casts to `PHPhotosError`. */
  function FailureAlert(kind: PhotoDuplicatorAlertType, error: RequestError): (evs: seq<Event>)
    ensures |evs| <= 1
    ensures evs != [] <==> error.PhotosError?
  {
    if error.PhotosError? then [Alert(kind, Some(error.code))] else []
  }

  /** What the owner hears once the last block is committed. */
  function EndOfRunEvents(settings: Settings, deletion: ChangeResult): seq<Event>
  {
    if !settings.deleteLivePhotos then [Alert(DidFinishDuplicateWithoutDelete, None)]
    else if deletion.Succeeded? then [Completed]
    else FailureAlert(AssetDeletionError, deletion.error)
  }

  /** The transactions issued once the last block is committed. */
  function EndOfRunChanges(settings: Settings, duplicated: seq<Asset>): (cs: seq<LibraryChange>)
    ensures cs != [] <==> settings.deleteLivePhotos
    ensures forall c :: c in cs ==> c == DeleteAssets(duplicated)
  {
    if settings.deleteLivePhotos then [DeleteAssets(duplicated)] else []
  }

  /** The last `k` of the reversed sequence are its first `k`, reversed. */
  lemma ReversedTail<T>(s: seq<T>, k: nat)
    requires k <= |s|
    ensures Reversed(s)[|s| - k..] == Reversed(s[..k])
  {
    var tail, expected := Reversed(s)[|s| - k..], Reversed(s[..k]);
    forall i | 0 <= i < k
      ensures tail[i] == expected[i]
    {
      assert tail[i] == Reversed(s)[|s| - k + i] == s[k - 1 - i];
      assert expected[i] == s[..k][k - 1 - i];
    }
    assert tail == expected;
  }

  /**
   * The processing order follows the selection: the first block holds the
   * first 25 selected assets (fewer if fewer were selected), in reverse.
   */
  lemma FirstBlockOfSelection(assets: seq<Asset>)
    requires assets != []
    ensures Blocks(Reversed(assets)) != []
    ensures Blocks(Reversed(assets))[0] == Reversed(assets[..Min(BlockSize, |assets|)])
  {
    var q := Reversed(assets);
    var k := Min(BlockSize, |assets|);
    assert Blocks(q) == [q[|q| - k..]] + Blocks(q[..|q| - k]);
    ReversedTail(assets, k);
  }

  class PhotoDuplicator {
    var ignoreCloudError: bool
    /** `assetsFoDuplication`: the pending queue, consumed from its tail. */
    var queue: seq<Asset>
    /** `duplicatedAssets`: every asset whose copy was created in this run. */
    var duplicated: seq<Asset>
    /** `imageCleanData`. */
    var cleanData: CleanMap
    /** The block captured by the pending request handlers. */
    var block: seq<Asset>
    /** The `requestData` calls issued for `block`. */
    var requests: seq<Request>
    /** The `shouldContinue` flag captured by the request handlers. */
    var shouldContinue: bool
    /** The calls of the owner's handlers, in order. */
    var events: seq<Event>
    /** The change transactions issued, in order. */
    var changes: seq<LibraryChange>

    constructor ()
      ensures !ignoreCloudError && queue == [] && duplicated == [] && cleanData == map[]
      ensures block == [] && requests == [] && events == [] && changes == []
    {
      ignoreCloudError := false;
      queue, duplicated, cleanData := [], [], map[];
      block, requests, shouldContinue := [], [], true;
      events, changes := [], [];
    }

    /** `setAssets`: forgets the previous run and queues the selection reversed. */
    method SetAssets(assets: seq<Asset>)
      modifies this`queue, this`duplicated, this`cleanData
      ensures queue == Reversed(assets) && duplicated == [] && cleanData == map[]
    {
      cleanData := map[];
      duplicated := [];
      queue := Reversed(assets);
    }

    /**
     * `startDuplication`: takes the next block from the tail of the queue,
     * prepares its map and issues its data requests.
     */
    method StartDuplication(settings: Settings)
      modifies this`cleanData, this`queue, this`block, this`requests, this`shouldContinue
      ensures |block| == Min(BlockSize, |old(queue)|) && queue + block == old(queue)
      ensures old(queue) != [] ==> Blocks(old(queue)) == [block] + Blocks(queue)
      ensures old(queue) != [] ==> |queue| < |old(queue)|
      ensures cleanData == Prepared(block)
      ensures requests == BlockRequests(block, settings.includeIcloudImages) && shouldContinue
    {
      cleanData := map[];
      var k := Min(BlockSize, |queue|);
      block := queue[|queue| - k..];
      queue := queue[..|queue| - |block|];
      assert old(queue) == queue + block;
      PrepareImageCleanData(block);
      LoadAssetData(block, settings.includeIcloudImages);
    }

    /** `prepareImageCleanData`: an entry `(empty, false)` for each tracked part of each asset. */
    method PrepareImageCleanData(assets: seq<Asset>)
      modifies this`cleanData
      ensures cleanData == Prepared(assets)
    {
      cleanData := map[];
      for i := 0 to |assets|
        invariant cleanData == Prepared(assets[..i])
      {
        var asset := assets[i];
        var entry: PartMap := map[];
        for j := 0 to |asset.resources|
          invariant entry == EmptyEntry(asset.resources[..j])
        {
          var part := asset.resources[j];
          assert asset.resources[..j + 1][..j] == asset.resources[..j];
          if !ValidType(part.kind) {
            continue;
          }
          entry := entry[part.kind := Part([], false)];
        }
        assert asset.resources[..|asset.resources|] == asset.resources;
        assert assets[..i + 1][..i] == assets[..i];
        cleanData := cleanData[asset.id := entry];
      }
      assert assets[..|assets|] == assets;
    }

    /** `loadAssetData`: one data request per tracked part, asset by asset. */
    method LoadAssetData(assets: seq<Asset>, networkAccessAllowed: bool)
      modifies this`requests, this`shouldContinue
      ensures shouldContinue && requests == BlockRequests(assets, networkAccessAllowed)
    {
      shouldContinue := true;
      requests := [];
      for index := 0 to |assets|
        invariant shouldContinue
        invariant requests == BlockRequests(assets[..index], networkAccessAllowed)
      {
        var asset := assets[index];
        for j := 0 to |asset.resources|
          invariant shouldContinue
          invariant requests == BlockRequests(assets[..index], networkAccessAllowed)
                                + PartRequests(asset.id, asset.resources[..j], networkAccessAllowed)
        {
          var part := asset.resources[j];
          assert asset.resources[..j + 1][..j] == asset.resources[..j];
          if !ValidType(part.kind) {
            continue;
          }
          requests := requests + [Request(asset.id, part.kind, networkAccessAllowed)];
        }
        assert asset.resources[..|asset.resources|] == asset.resources;
        assert assets[..index + 1][..index] == assets[..index];
      }
      assert assets[..|assets|] == assets;
    }

    /** `dataReceivedHandler`: the chunk goes to the request's entry, if there is one. */
    method DataReceived(q: Request, chunk: Bytes)
      modifies this`cleanData
      ensures cleanData == AppendChunk(old(cleanData), q.id, q.kind, chunk)
    {
      cleanData := AppendChunk(cleanData, q.id, q.kind, chunk);
    }

    /**
     * The completion handler of a data request. A `PHPhotosError` leaves the
     * part incomplete; "network access required" also raises the cloud alert
     * unless cloud errors are ignored. Otherwise the part is marked complete,
     * and when the whole map is complete the copies are created.
     */
    method RequestCompleted(q: Request, error: RequestError, creation: ChangeResult,
                            deletion: ChangeResult, settings: Settings)
      modifies this`cleanData, this`queue, this`duplicated, this`block, this`requests,
               this`shouldContinue, this`events, this`changes
      ensures error.PhotosError? ==>
                && cleanData == old(cleanData) && queue == old(queue) && duplicated == old(duplicated)
                && block == old(block) && requests == old(requests) && changes == old(changes)
                && if error.code == NetworkAccessRequired && !ignoreCloudError
                   then events == old(events) + [Alert(UnableToLoadCloudAssetData, None)] && !shouldContinue
                   else events == old(events) && shouldContinue == old(shouldContinue)
      ensures !error.PhotosError? && !AllComplete(MarkComplete(old(cleanData), q.id, q.kind)) ==>
                && cleanData == MarkComplete(old(cleanData), q.id, q.kind)
                && queue == old(queue) && duplicated == old(duplicated) && block == old(block)
                && requests == old(requests) && shouldContinue == old(shouldContinue)
                && events == old(events) && changes == old(changes)
      ensures !error.PhotosError? && AllComplete(MarkComplete(old(cleanData), q.id, q.kind)) ==>
                var m := MarkComplete(old(cleanData), q.id, q.kind);
                var created := CreateCopies(Creations(old(block), m));
                if !creation.Succeeded? then
                  && duplicated == old(duplicated) && queue == old(queue) && cleanData == m
                  && block == old(block) && requests == old(requests) && shouldContinue == old(shouldContinue)
                  && changes == old(changes) + [created]
                  && events == old(events) + FailureAlert(AssetCreationError, creation.error)
                else if old(queue) == [] then
                  && duplicated == old(duplicated) + old(block)
                  && events == old(events) + [Progress(IdsOf(old(block)))] + EndOfRunEvents(settings, deletion)
                  && changes == old(changes) + [created] + EndOfRunChanges(settings, old(duplicated) + old(block))
                  && queue == [] && block == old(block) && requests == old(requests)
                  && shouldContinue == old(shouldContinue)
                  && cleanData == (if settings.deleteLivePhotos then map[] else m)
                else
                  && duplicated == old(duplicated) + old(block)
                  && events == old(events) + [Progress(IdsOf(old(block)))]
                  && changes == old(changes) + [created]
                  && Blocks(old(queue)) == [block] + Blocks(queue)
                  && cleanData == Prepared(block) && requests == BlockRequests(block, settings.includeIcloudImages)
                  && shouldContinue
      // the commit invariant: nothing is written to the library before every tracked part is complete
      ensures changes != old(changes) ==>
                !error.PhotosError? && AllComplete(MarkComplete(old(cleanData), q.id, q.kind))
    {
      if error.PhotosError? {
        if error.code == NetworkAccessRequired && !ignoreCloudError {
          shouldContinue := false;
          events := events + [Alert(UnableToLoadCloudAssetData, None)];
        }
      } else {
        cleanData := MarkComplete(cleanData, q.id, q.kind);
        if AllComplete(cleanData) {
          CreateNewAssets(block, creation, deletion, settings);
        }
      }
    }

    /**
     * `createNewAssets` and the outcome branch of its transaction. Only
     * called with a complete map.
     */
    method CreateNewAssets(assets: seq<Asset>, creation: ChangeResult, deletion: ChangeResult, settings: Settings)
      requires AllComplete(cleanData)
      modifies this`cleanData, this`queue, this`duplicated, this`block, this`requests,
               this`shouldContinue, this`events, this`changes
      ensures |changes| > |old(changes)|
      ensures changes[..|old(changes)| + 1] == old(changes) + [CreateCopies(Creations(assets, old(cleanData)))]
      ensures !creation.Succeeded? ==>
                && duplicated == old(duplicated) && queue == old(queue) && cleanData == old(cleanData)
                && block == old(block) && requests == old(requests) && shouldContinue == old(shouldContinue)
                && changes == old(changes) + [CreateCopies(Creations(assets, old(cleanData)))]
                && events == old(events) + FailureAlert(AssetCreationError, creation.error)
      ensures creation.Succeeded? ==> duplicated == old(duplicated) + assets
      ensures creation.Succeeded? && old(queue) == [] ==>
                && events == old(events) + [Progress(IdsOf(assets))] + EndOfRunEvents(settings, deletion)
                && changes == old(changes) + [CreateCopies(Creations(assets, old(cleanData)))]
                              + EndOfRunChanges(settings, old(duplicated) + assets)
                && queue == [] && block == old(block) && requests == old(requests)
                && shouldContinue == old(shouldContinue)
                && cleanData == (if settings.deleteLivePhotos then map[] else old(cleanData))
      ensures creation.Succeeded? && old(queue) != [] ==>
                && events == old(events) + [Progress(IdsOf(assets))]
                && changes == old(changes) + [CreateCopies(Creations(assets, old(cleanData)))]
                && Blocks(old(queue)) == [block] + Blocks(queue)
                && cleanData == Prepared(block) && requests == BlockRequests(block, settings.includeIcloudImages)
                && shouldContinue
    {
      changes := changes + [CreateCopies(Creations(assets, cleanData))];
      if creation.Succeeded? {
        duplicated := duplicated + assets;
        DidDuplicate(assets, deletion, settings);
      } else if creation.error.PhotosError? {
        events := events + [Alert(AssetCreationError, Some(creation.error.code))];
      }
    }

    /**
     * `didDuplicate`: reports the block's ids, then either starts the next
     * block or ends the run.
     */
    method DidDuplicate(b: seq<Asset>, deletion: ChangeResult, settings: Settings)
      modifies this`cleanData, this`queue, this`block, this`requests, this`shouldContinue,
               this`events, this`changes
      ensures old(queue) == [] ==>
                && queue == [] && block == old(block) && requests == old(requests)
                && shouldContinue == old(shouldContinue)
                && events == old(events) + [Progress(IdsOf(b))] + EndOfRunEvents(settings, deletion)
                && changes == old(changes) + EndOfRunChanges(settings, duplicated)
                && cleanData == (if settings.deleteLivePhotos then map[] else old(cleanData))
      ensures old(queue) != [] ==>
                && events == old(events) + [Progress(IdsOf(b))] && changes == old(changes)
                && Blocks(old(queue)) == [block] + Blocks(queue) && queue + block == old(queue)
                && cleanData == Prepared(block) && requests == BlockRequests(block, settings.includeIcloudImages)
                && shouldContinue
    {
      events := events + [Progress(IdsOf(b))];
      if queue == [] {
        if settings.deleteLivePhotos {
          changes := changes + [DeleteAssets(duplicated)];
          if deletion.Succeeded? {
            events := events + [Completed];
          } else if deletion.error.PhotosError? {
            events := events + [Alert(AssetDeletionError, Some(deletion.error.code))];
          }
          cleanData := map[];
        } else {
          events := events + [Alert(DidFinishDuplicateWithoutDelete, None)];
        }
      } else {
        StartDuplication(settings);
      }
    }

    /** `getAlbumList`: the user albums and smart albums holding an asset, each once. */
    method GetAlbumList(userAlbums: seq<Album>, smartAlbums: seq<Album>) returns (collections: set<Album>)
      ensures forall a :: a in collections <==> a in userAlbums || a in smartAlbums
    {
      collections := {};
      for index := 0 to |userAlbums|
        invariant forall a :: a in collections <==> a in userAlbums[..index]
      {
        collections := collections + {userAlbums[index]};
      }
      for index := 0 to |smartAlbums|
        invariant forall a :: a in collections <==> a in userAlbums || a in smartAlbums[..index]
      {
        collections := collections + {smartAlbums[index]};
      }
    }

    /**
     * `getLPCAlbum`: the first top-level user collection titled
     * "Live Photo Cleaner", if it is an album; a folder of that title hides
     * any album further on.
     */
    method GetLPCAlbum(userCollections: seq<Album>) returns (album: Option<Album>)
      ensures (forall i :: 0 <= i < |userCollections| ==> userCollections[i].title != LpcAlbumName) ==> album == None
      ensures forall i ::
                (0 <= i < |userCollections| && userCollections[i].title == LpcAlbumName
                 && forall j :: 0 <= j < i ==> userCollections[j].title != LpcAlbumName) ==>
                album == (if userCollections[i].isAssetCollection then Some(userCollections[i]) else None)
    {
      for index := 0 to |userCollections|
        invariant forall j :: 0 <= j < index ==> userCollections[j].title != LpcAlbumName
      {
        if userCollections[index].title == LpcAlbumName {
          return if userCollections[index].isAssetCollection then Some(userCollections[index]) else None;
        }
      }
      return None;
    }
  }
}
