/**
 * The selection and ledger bookkeeping of the app. Two display lists (plain
 * and edited Live Photos) carry a `selected` flag; `selectedImages` collects
 * what the user picked, two counters follow the picks, and a ledger of
 * already duplicated ids hides finished photos from later scans.
 *
 * Photos-framework calls are parameters: the result of a fetch is an
 * `Option<seq<Asset>>`, a library change is an `Option<ChangeDetails>`. The
 * ledger file is the string field `ledger`. Work dispatched to the main queue
 * runs at once, in program order.
 */
module Images {
  import opened PhotoLibrary
  import opened ImageLists
  import opened Ledger

  /** The list after a tap on `id`: the first item with that id has its flag flipped. */
  function Toggled(list: seq<CustomImage>, id: Id): (r: seq<CustomImage>)
    ensures |r| == |list| && ImageIds(r) == ImageIds(list)
    ensures FirstIndex(list, id).None? ==> r == list
    ensures FirstIndex(list, id).Some? ==>
              var k := FirstIndex(list, id).value;
              && r[k] == list[k].(selected := !list[k].selected)
              && forall j :: 0 <= j < |list| && j != k ==> r[j] == list[j]
    ensures CountSelected(r) == CountSelected(list) + CounterDelta(list, id)
  {
    match FirstIndex(list, id)
    case None => list
    case Some(k) =>
      CountToggle(list, k);
      list[k := list[k].(selected := !list[k].selected)]
  }

  /** How a tap on `id` moves the counter of the tapped list. */
  function CounterDelta(list: seq<CustomImage>, id: Id): (d: int)
    ensures -1 <= d <= 1
    ensures d == 0 <==> FirstIndex(list, id).None?
  {
    match FirstIndex(list, id)
    case None => 0
    case Some(k) => if list[k].selected then -1 else 1
  }

  /** `selectedImages` after a tap on `id` in `list`: the item is appended, or every entry of its id removed. */
  function SelectionAfterTap(list: seq<CustomImage>, id: Id, selected: seq<CustomImage>): seq<CustomImage>
  {
    match FirstIndex(list, id)
    case None => selected
    case Some(k) => if list[k].selected then Drop(selected, {id}) else selected + [list[k]]
  }

  /**
   * Tapping the same unselected image twice undoes the first tap: the list,
   * the selection and the counter are back where they were, provided the
   * selection held no entry of that id.
   */
  lemma TapTwice(list: seq<CustomImage>, id: Id, selected: seq<CustomImage>)
    requires FirstIndex(list, id).Some? && !list[FirstIndex(list, id).value].selected
    requires id !in ImageIdSet(selected)
    ensures Toggled(Toggled(list, id), id) == list
    ensures SelectionAfterTap(Toggled(list, id), id, SelectionAfterTap(list, id, selected)) == selected
    ensures CounterDelta(list, id) + CounterDelta(Toggled(list, id), id) == 0
  {
    var k := FirstIndex(list, id).value;
    var once := Toggled(list, id);
    assert FirstIndex(once, id) == Some(k) by {
      assert forall j :: 0 <= j < |once| ==> once[j].id == list[j].id by {
        assert ImageIds(once) == ImageIds(list);
        forall j | 0 <= j < |once|
          ensures once[j].id == list[j].id
        {
          assert ImageIds(once)[j] == once[j].id;
        }
      }
      FirstIndexSameIds(list, once, id);
    }
    assert once[k] == list[k].(selected := true);
    assert once[k := once[k].(selected := !once[k].selected)] == list;
    DropConcat(selected, [list[k]], {id});
    forall i | 0 <= i < |selected|
      ensures selected[i].id !in {id}
    {
      assert selected[i].id in ImageIdSet(selected);
    }
    DropNothing(selected, {id});
  }

  /** `FirstIndex` looks only at the ids. */
  lemma {:induction false} FirstIndexSameIds(a: seq<CustomImage>, b: seq<CustomImage>, id: Id)
    requires |a| == |b| && forall j :: 0 <= j < |a| ==> a[j].id == b[j].id
    ensures FirstIndex(a, id) == FirstIndex(b, id)
  {
    if a != [] {
      FirstIndexSameIds(a[1..], b[1..], id);
    }
  }

  /** How many items `selectAllImages(of:)` appends when `start` items are selected already. */
  function SelectAllCount(start: int, length: nat): (n: nat)
    ensures n <= length
    ensures n > 0 ==> start + n - 1 <= MaxImageSelectionCount
    ensures n == length || start + n > MaxImageSelectionCount
  {
    if start > MaxImageSelectionCount then 0
    else if length <= MaxImageSelectionCount + 1 - start then length
    else MaxImageSelectionCount + 1 - start
  }

  /** `s` with the flag of each of its first `n` positions cleared. */
  function ClearFlags(s: seq<CustomImage>, n: nat): (r: seq<CustomImage>)
    ensures |r| == |s| && ImageIds(r) == ImageIds(s)
  {
    seq(|s|, i requires 0 <= i < |s| => if i < n then s[i].(selected := false) else s[i])
  }

  /** One step of the `selectAll` loop: append the next item, then clear the flag at the loop index. */
  lemma ClearFlagsStep(s: seq<CustomImage>, l: seq<CustomImage>, k: nat)
    requires k < |l|
    ensures var t := ClearFlags(s + l[..k], k) + [l[k]];
            t[k := t[k].(selected := false)] == ClearFlags(s + l[..k + 1], k + 1)
  {
    assert l[..k + 1] == l[..k] + [l[k]];
  }

  /** The index loop `list[index].selected = false` over a whole list. */
  method UnselectAll(list: seq<CustomImage>) returns (result: seq<CustomImage>)
    ensures |result| == |list| && ImageIds(result) == ImageIds(list)
    ensures forall i :: 0 <= i < |list| ==> result[i] == list[i].(selected := false)
    ensures CountSelected(result) == 0
  {
    result := list;
    for index := 0 to |list|
      invariant |result| == |list|
      invariant forall i :: 0 <= i < index ==> result[i] == list[i].(selected := false)
      invariant forall i :: index <= i < |list| ==> result[i] == list[i]
    {
      result := result[index := result[index].(selected := false)];
    }
    CountNone(result);
  }

  /** The string `handleDuplicationProgress` builds: each id followed by a newline. */
  method Lines(ids: seq<Id>) returns (indices: string)
    ensures indices == Encode(ids)
  {
    indices := "";
    for i := 0 to |ids|
      invariant indices == Encode(ids[..i])
    {
      EncodeConcat(ids[..i], [ids[i]]);
      assert ids[..i + 1] == ids[..i] + [ids[i]];
      assert Encode([ids[i]]) == ids[i] + "\n";
      indices := indices + (ids[i] + "\n");
    }
    assert ids[..|ids|] == ids;
  }

  class ImageModel {
    /** `duplicatedAssets`: the ids read from the ledger. */
    var duplicatedAssets: set<Id>
    var images: seq<CustomImage>
    var editedImages: seq<CustomImage>
    var selectedImages: seq<CustomImage>
    var selectedEditedItemsCount: int
    var selectedNormalItemsCount: int
    /** The paired-video bytes of the selection: `approxFreedSpace` before the conversion to MiB. */
    var freedSpaceBytes: nat
    var fetchResults: Option<seq<Asset>>
    var imageIndexInformation: map<Id, IndexInfo>
    var allAssets: map<Id, Asset>
    var fetchAllowed: bool
    /** The text of the ledger file "images" in the documents directory. */
    var ledger: string

    /** `init`: reads the ledger, then scans the library. */
    constructor (ledgerText: string, fetched: Option<seq<Asset>>)
      ensures ledger == ledgerText && duplicatedAssets == Decode(ledgerText)
      ensures images == [] && editedImages == [] && selectedImages == []
      ensures selectedEditedItemsCount == 0 && selectedNormalItemsCount == 0 && freedSpaceBytes == 0
      ensures imageIndexInformation == map[] && fetchAllowed && fetchResults == fetched
      ensures allAssets == if fetched.Some? then AssetMap(NotInLedger(fetched.value, duplicatedAssets)) else map[]
    {
      duplicatedAssets := Decode(ledgerText);
      images, editedImages, selectedImages := [], [], [];
      selectedEditedItemsCount, selectedNormalItemsCount, freedSpaceBytes := 0, 0, 0;
      fetchResults := None;
      imageIndexInformation, allAssets := map[], map[];
      fetchAllowed := true;
      ledger := ledgerText;
      new;
      FetchAllPhotos(fetched);
    }

    /** `readAlreadyDuplicatedImages`: unions the ledger's pieces into the set. */
    method ReadAlreadyDuplicatedImages()
      modifies this`duplicatedAssets
      ensures duplicatedAssets == old(duplicatedAssets) + Decode(ledger)
    {
      duplicatedAssets := duplicatedAssets + Decode(ledger);
    }

    /**
     * `image(with:tappedIn:edited:)`, with the `inout` list passed in and
     * returned: flips the first item of that id and moves the selection and
     * the matching counter with it.
     */
    method TapIn(list: seq<CustomImage>, id: Id, edited: bool) returns (result: seq<CustomImage>)
      modifies this`selectedImages, this`selectedEditedItemsCount, this`selectedNormalItemsCount
      ensures result == Toggled(list, id)
      ensures selectedImages == SelectionAfterTap(list, id, old(selectedImages))
      ensures edited ==> selectedEditedItemsCount == old(selectedEditedItemsCount) + CounterDelta(list, id)
                         && selectedNormalItemsCount == old(selectedNormalItemsCount)
      ensures !edited ==> selectedNormalItemsCount == old(selectedNormalItemsCount) + CounterDelta(list, id)
                          && selectedEditedItemsCount == old(selectedEditedItemsCount)
      // the counter keeps its distance to the number of selected items in the list
      ensures edited ==> CountSelected(result) - selectedEditedItemsCount
                         == CountSelected(list) - old(selectedEditedItemsCount)
      ensures !edited ==> CountSelected(result) - selectedNormalItemsCount
                          == CountSelected(list) - old(selectedNormalItemsCount)
    {
      result := list;
      var found := FirstIndex(list, id);
      if found.Some? {
        var index := found.value;
        if list[index].selected {
          selectedImages := Drop(selectedImages, {id});
          if edited {
            selectedEditedItemsCount := selectedEditedItemsCount - 1;
          } else {
            selectedNormalItemsCount := selectedNormalItemsCount - 1;
          }
        } else {
          selectedImages := selectedImages + [list[index]];
          if edited {
            selectedEditedItemsCount := selectedEditedItemsCount + 1;
          } else {
            selectedNormalItemsCount := selectedNormalItemsCount + 1;
          }
        }
        result := result[index := result[index].(selected := !result[index].selected)];
      }
    }

    /** `imageTapped`: taps the id in the edited list, then in the plain list, then recomputes the freed space. */
    method ImageTapped(id: Id)
      modifies this`images, this`editedImages, this`selectedImages, this`selectedEditedItemsCount,
               this`selectedNormalItemsCount, this`freedSpaceBytes
      ensures editedImages == Toggled(old(editedImages), id) && images == Toggled(old(images), id)
      ensures selectedImages == SelectionAfterTap(old(images), id, SelectionAfterTap(old(editedImages), id, old(selectedImages)))
      ensures selectedEditedItemsCount == old(selectedEditedItemsCount) + CounterDelta(old(editedImages), id)
      ensures selectedNormalItemsCount == old(selectedNormalItemsCount) + CounterDelta(old(images), id)
      ensures freedSpaceBytes == FreedBytes(selectedImages, allAssets)
    {
      editedImages := TapIn(editedImages, id, true);
      images := TapIn(images, id, false);
      CalculateFreedSpace();
    }

    /** `deselectAllImages(of:)`: drops the list's ids from the selection and unselects every item. */
    method DeselectAllIn(list: seq<CustomImage>) returns (result: seq<CustomImage>)
      modifies this`selectedImages
      ensures |result| == |list| && ImageIds(result) == ImageIds(list)
      ensures forall i :: 0 <= i < |list| ==> result[i] == list[i].(selected := false)
      ensures CountSelected(result) == 0
      ensures selectedImages == Drop(old(selectedImages), ImageIdSet(list))
    {
      selectedImages := Drop(selectedImages, ImageIdSet(list));
      result := UnselectAll(list);
    }

    /** `deselectAllImages()`. */
    method DeselectAllImages()
      modifies this`images, this`selectedImages
      ensures |images| == |old(images)| && ImageIds(images) == ImageIds(old(images)) && CountSelected(images) == 0
      ensures forall i :: 0 <= i < |images| ==> images[i] == old(images)[i].(selected := false)
      ensures selectedImages == Drop(old(selectedImages), ImageIdSet(old(images)))
    {
      images := DeselectAllIn(images);
    }

    /** `deselectAllEditedImages()`: also zeroes the edited counter. */
    method DeselectAllEditedImages()
      modifies this`editedImages, this`selectedImages, this`selectedEditedItemsCount
      ensures |editedImages| == |old(editedImages)| && ImageIds(editedImages) == ImageIds(old(editedImages))
      ensures CountSelected(editedImages) == 0 && selectedEditedItemsCount == 0
      ensures forall i :: 0 <= i < |editedImages| ==> editedImages[i] == old(editedImages)[i].(selected := false)
      ensures selectedImages == Drop(old(selectedImages), ImageIdSet(old(editedImages)))
    {
      editedImages := DeselectAllIn(editedImages);
      selectedEditedItemsCount := 0;
    }

    /**
     * `selectAllImages(of:)`: appends the list's items to the selection while
     * the running sum of both counters plus the items appended so far is at
     * most 250, marks each appended item selected, and clears the flag at the
     * same index of `selectedImages` (not of the appended copy).
     */
    method SelectAllIn(list: seq<CustomImage>) returns (result: seq<CustomImage>)
      modifies this`selectedImages, this`freedSpaceBytes
      ensures var n := SelectAllCount(selectedNormalItemsCount + selectedEditedItemsCount, |list|);
              && |result| == |list|
              && (forall i :: 0 <= i < n ==> result[i] == list[i].(selected := true))
              && (forall i :: n <= i < |list| ==> result[i] == list[i])
              && ImageIds(selectedImages) == ImageIds(old(selectedImages)) + ImageIds(list[..n])
              && selectedImages == ClearFlags(old(selectedImages) + list[..n], n)
      ensures freedSpaceBytes == FreedBytes(selectedImages, allAssets)
    {
      var imageSum := selectedNormalItemsCount + selectedEditedItemsCount;
      ghost var n := SelectAllCount(imageSum, |list|);
      result := list;
      for index := 0 to |list|
        invariant index <= n
        invariant imageSum == selectedNormalItemsCount + selectedEditedItemsCount + index
        invariant |result| == |list|
        invariant forall i :: 0 <= i < index ==> result[i] == list[i].(selected := true)
        invariant forall i :: index <= i < |list| ==> result[i] == list[i]
        invariant selectedImages == ClearFlags(old(selectedImages) + list[..index], index)
      {
        if MaxImageSelectionCount > 0 && imageSum > MaxImageSelectionCount {
          break;
        }
        ClearFlagsStep(old(selectedImages), list, index);
        selectedImages := selectedImages + [result[index]];
        selectedImages := selectedImages[index := selectedImages[index].(selected := false)];
        result := result[index := result[index].(selected := true)];
        imageSum := imageSum + 1;
      }
      assert ImageIds(old(selectedImages) + list[..n]) == ImageIds(old(selectedImages)) + ImageIds(list[..n]);
      CalculateFreedSpace();
    }

    /** `selectAllImages()`: the plain counter is left as it was. */
    method SelectAllImages()
      modifies this`images, this`selectedImages, this`freedSpaceBytes
      ensures var n := SelectAllCount(selectedNormalItemsCount + selectedEditedItemsCount, |old(images)|);
              && |images| == |old(images)|
              && (forall i :: 0 <= i < n ==> images[i] == old(images)[i].(selected := true))
              && (forall i :: n <= i < |images| ==> images[i] == old(images)[i])
              && selectedImages == ClearFlags(old(selectedImages) + old(images)[..n], n)
      ensures freedSpaceBytes == FreedBytes(selectedImages, allAssets)
    {
      images := SelectAllIn(images);
    }

    /** `selectAllEditedImages()`: the edited counter becomes the length of the edited list. */
    method SelectAllEditedImages()
      modifies this`editedImages, this`selectedImages, this`freedSpaceBytes, this`selectedEditedItemsCount
      ensures var n := SelectAllCount(selectedNormalItemsCount + old(selectedEditedItemsCount), |old(editedImages)|);
              && |editedImages| == |old(editedImages)|
              && (forall i :: 0 <= i < n ==> editedImages[i] == old(editedImages)[i].(selected := true))
              && (forall i :: n <= i < |editedImages| ==> editedImages[i] == old(editedImages)[i])
              && selectedImages == ClearFlags(old(selectedImages) + old(editedImages)[..n], n)
      ensures selectedEditedItemsCount == |editedImages|
      ensures freedSpaceBytes == FreedBytes(selectedImages, allAssets)
    {
      editedImages := SelectAllIn(editedImages);
      selectedEditedItemsCount := |editedImages|;
    }

    /** `reset`: unselects both lists, empties the selection and zeroes the edited counter only. */
    method Reset()
      modifies this`images, this`editedImages, this`selectedEditedItemsCount, this`selectedImages
      ensures |images| == |old(images)| && ImageIds(images) == ImageIds(old(images))
      ensures forall i :: 0 <= i < |images| ==> images[i] == old(images)[i].(selected := false)
      ensures |editedImages| == |old(editedImages)| && ImageIds(editedImages) == ImageIds(old(editedImages))
      ensures forall i :: 0 <= i < |editedImages| ==> editedImages[i] == old(editedImages)[i].(selected := false)
      ensures CountSelected(images) == 0 && CountSelected(editedImages) == 0
      ensures selectedEditedItemsCount == 0 && selectedImages == []
    {
      images := UnselectAll(images);
      editedImages := UnselectAll(editedImages);
      selectedEditedItemsCount := 0;
      selectedImages := [];
    }

    /**
     * `fetchAllPhotos`: rebuilds `allAssets` from the fetched Live Photos that
     * are not in the ledger set, and prunes the three lists to those ids.
     */
    method FetchAllPhotos(fetched: Option<seq<Asset>>)
      modifies this`allAssets, this`fetchAllowed, this`fetchResults, this`images, this`editedImages,
               this`selectedImages
      ensures fetchAllowed && fetchResults == fetched
      ensures fetched.None? ==>
                allAssets == map[] && images == old(images) && editedImages == old(editedImages)
                && selectedImages == old(selectedImages)
      ensures fetched.Some? ==>
                var candidates := NotInLedger(fetched.value, duplicatedAssets);
                && allAssets == AssetMap(candidates)
                && images == Within(old(images), AssetIds(candidates))
                && editedImages == Within(old(editedImages), AssetIds(candidates))
                && selectedImages == Within(old(selectedImages), AssetIds(candidates))
    {
      allAssets := map[];
      fetchAllowed := true;
      fetchResults := fetched;
      if fetched.None? {
        return;
      }
      var assets, assetIds := ScanCandidates(fetched.value);
      PruneLists(assetIds);
      EnterAssets(assets);
    }

    /** The main-queue block of `fetchAllPhotos`: keeps only the listed items whose id is a candidate. */
    method PruneLists(assetIds: set<Id>)
      modifies this`images, this`editedImages, this`selectedImages
      ensures images == Within(old(images), assetIds) && editedImages == Within(old(editedImages), assetIds)
      ensures selectedImages == Within(old(selectedImages), assetIds)
    {
      images := Within(images, assetIds);
      editedImages := Within(editedImages, assetIds);
      selectedImages := Within(selectedImages, assetIds);
    }

    /** The request loop of `fetchAllPhotos`: enters each candidate into the emptied table. */
    method EnterAssets(assets: seq<Asset>)
      requires allAssets == map[]
      modifies this`allAssets
      ensures allAssets == AssetMap(assets)
    {
      for index := 0 to |assets|
        invariant allAssets == AssetMap(assets[..index])
      {
        assert assets[..index + 1][..index] == assets[..index];
        allAssets := allAssets[assets[index].id := assets[index]];
      }
      assert assets[..|assets|] == assets;
    }

    /** The enumeration in `fetchAllPhotos`: the fetched assets not in the ledger set, and their ids. */
    method ScanCandidates(results: seq<Asset>) returns (assets: seq<Asset>, assetIds: set<Id>)
      ensures assets == NotInLedger(results, duplicatedAssets) && assetIds == AssetIds(assets)
    {
      assets, assetIds := [], {};
      for index := 0 to |results|
        invariant assets == NotInLedger(results[..index], duplicatedAssets)
        invariant assetIds == AssetIds(assets)
      {
        assert results[..index + 1][..index] == results[..index];
        if results[index].id !in duplicatedAssets {
          assets := assets + [results[index]];
          assetIds := assetIds + {results[index].id};
        }
      }
      assert results[..|results|] == results;
    }

    /** `getAssetsOfSelectedImages`: the assets of the selection, in order, skipping unknown ids. */
    method GetAssetsOfSelectedImages() returns (assetsToDelete: seq<Asset>)
      ensures assetsToDelete == SelectedAssets(selectedImages, allAssets)
    {
      assetsToDelete := [];
      for i := 0 to |selectedImages|
        invariant assetsToDelete == SelectedAssets(selectedImages[..i], allAssets)
      {
        assert selectedImages[..i + 1][..i] == selectedImages[..i];
        var image := selectedImages[i];
        if image.id in allAssets {
          assetsToDelete := assetsToDelete + [allAssets[image.id]];
        }
      }
      assert selectedImages[..|selectedImages|] == selectedImages;
    }

    /**
     * `calculateFreedSpace`: the paired-video bytes of every selected asset,
     * without the conversion to MiB.
     */
    method CalculateFreedSpace()
      modifies this`freedSpaceBytes
      ensures freedSpaceBytes == FreedBytes(selectedImages, allAssets)
    {
      var fileSize: nat := 0;
      for i := 0 to |selectedImages|
        invariant fileSize == FreedBytes(selectedImages[..i], allAssets)
      {
        assert selectedImages[..i + 1][..i] == selectedImages[..i];
        var element := selectedImages[i];
        if element.id in allAssets {
          var resources := allAssets[element.id].resources;
          ghost var before := fileSize;
          for j := 0 to |resources|
            invariant fileSize == before + PairedVideoSize(resources[..j])
          {
            assert resources[..j + 1][..j] == resources[..j];
            if IsFreedKind(resources[j].kind) {
              fileSize := fileSize + resources[j].fileSize;
            }
          }
          assert resources[..|resources|] == resources;
        }
      }
      assert selectedImages[..|selectedImages|] == selectedImages;
      freedSpaceBytes := fileSize;
    }

    /**
     * `handleDuplicationProgress`: appends the ids to the ledger file, one
     * per line, and removes them from both display lists and both tables.
     * The selection and the in-memory ledger set are left as they are.
     */
    method HandleDuplicationProgress(assets: seq<Id>)
      modifies this`ledger, this`images, this`editedImages, this`imageIndexInformation, this`allAssets
      ensures ledger == old(ledger) + Encode(assets)
      ensures images == Drop(old(images), IdSet(assets)) && editedImages == Drop(old(editedImages), IdSet(assets))
      ensures imageIndexInformation == old(imageIndexInformation) - IdSet(assets)
      ensures allAssets == old(allAssets) - IdSet(assets)
      // read back, a ledger of whole lines gains exactly the reported ids
      ensures (old(ledger) == [] || old(ledger)[|old(ledger)| - 1] == '\n') && NoNewlines(assets) ==>
                Decode(ledger) == Decode(old(ledger)) + IdSet(assets)
    {
      var indices := Lines(assets);
      ledger := ledger + indices;
      if (old(ledger) == [] || old(ledger)[|old(ledger)| - 1] == '\n') && NoNewlines(assets) {
        AppendBatch(old(ledger), assets);
      }
      ForgetIds(assets);
    }

    /** The main-queue block of `handleDuplicationProgress`: forgets each reported id. */
    method ForgetIds(assets: seq<Id>)
      modifies this`images, this`editedImages, this`imageIndexInformation, this`allAssets
      ensures images == Drop(old(images), IdSet(assets)) && editedImages == Drop(old(editedImages), IdSet(assets))
      ensures imageIndexInformation == old(imageIndexInformation) - IdSet(assets)
      ensures allAssets == old(allAssets) - IdSet(assets)
    {
      assert IdSet(assets[..0]) == {};
      DropNothing(images, {});
      DropNothing(editedImages, {});
      assert imageIndexInformation - {} == imageIndexInformation;
      assert allAssets - {} == allAssets;
      for i := 0 to |assets|
        invariant images == Drop(old(images), IdSet(assets[..i]))
        invariant editedImages == Drop(old(editedImages), IdSet(assets[..i]))
        invariant imageIndexInformation == old(imageIndexInformation) - IdSet(assets[..i])
        invariant allAssets == old(allAssets) - IdSet(assets[..i])
      {
        ghost var done := IdSet(assets[..i]);
        var id := assets[i];
        assert IdSet(assets[..i + 1]) == done + {id} by {
          assert assets[..i + 1] == assets[..i] + [id];
        }
        DropDrop(old(images), done, {id});
        DropDrop(old(editedImages), done, {id});
        MinusOneMore(old(imageIndexInformation), done, id);
        MinusOneMore(old(allAssets), done, id);
        ForgetId(id);
      }
      assert assets[..|assets|] == assets;
    }

    /** The main-queue block of `handleDuplicationProgress` for one id. */
    method ForgetId(id: Id)
      modifies this`images, this`editedImages, this`imageIndexInformation, this`allAssets
      ensures images == Drop(old(images), {id}) && editedImages == Drop(old(editedImages), {id})
      ensures imageIndexInformation == old(imageIndexInformation) - {id}
      ensures allAssets == old(allAssets) - {id}
    {
      images := Drop(images, {id});
      editedImages := Drop(editedImages, {id});
      imageIndexInformation := imageIndexInformation - {id};
      allAssets := allAssets - {id};
    }

    /** The inserted branch of `photoLibraryDidChange`: enters new assets not in the ledger set. */
    method AddInsertedAssets(inserted: seq<Asset>)
      modifies this`allAssets
      ensures allAssets == if fetchAllowed then AddInserted(old(allAssets), inserted, duplicatedAssets) else old(allAssets)
    {
      for index := 0 to |inserted|
        invariant allAssets == AddInserted(old(allAssets), inserted[..index], duplicatedAssets)
        invariant !fetchAllowed ==> index == 0
      {
        if !fetchAllowed {
          break;
        }
        assert inserted[..index + 1][..index] == inserted[..index];
        var identifier := inserted[index].id;
        if identifier in duplicatedAssets {
          continue;
        }
        allAssets := allAssets[identifier := inserted[index]];
      }
      assert inserted[..|inserted|] == inserted;
    }

    /** The removed branch of `photoLibraryDidChange`: purges each id from every list, table and the ledger set. */
    method PurgeRemoved(removed: seq<Asset>)
      modifies this`images, this`selectedImages, this`editedImages, this`imageIndexInformation,
               this`allAssets, this`duplicatedAssets
      ensures images == Drop(old(images), AssetIds(removed))
      ensures selectedImages == Drop(old(selectedImages), AssetIds(removed))
      ensures editedImages == Drop(old(editedImages), AssetIds(removed))
      ensures imageIndexInformation == old(imageIndexInformation) - AssetIds(removed)
      ensures allAssets == old(allAssets) - AssetIds(removed)
      ensures duplicatedAssets == old(duplicatedAssets) - AssetIds(removed)
    {
      assert AssetIds(removed[..0]) == {};
      DropNothing(images, {});
      DropNothing(selectedImages, {});
      DropNothing(editedImages, {});
      for i := 0 to |removed|
        invariant images == Drop(old(images), AssetIds(removed[..i]))
        invariant selectedImages == Drop(old(selectedImages), AssetIds(removed[..i]))
        invariant editedImages == Drop(old(editedImages), AssetIds(removed[..i]))
        invariant imageIndexInformation == old(imageIndexInformation) - AssetIds(removed[..i])
        invariant allAssets == old(allAssets) - AssetIds(removed[..i])
        invariant duplicatedAssets == old(duplicatedAssets) - AssetIds(removed[..i])
      {
        ghost var done := AssetIds(removed[..i]);
        var identifier := removed[i].id;
        AssetIdsPrefix(removed, i);
        DropDrop(old(images), done, {identifier});
        DropDrop(old(selectedImages), done, {identifier});
        DropDrop(old(editedImages), done, {identifier});
        MinusOneMore(old(imageIndexInformation), done, identifier);
        MinusOneMore(old(allAssets), done, identifier);
        PurgeId(identifier);
      }
      assert removed[..|removed|] == removed;
    }

    /** The main-queue block of `photoLibraryDidChange` for one removed asset. */
    method PurgeId(identifier: Id)
      modifies this`images, this`selectedImages, this`editedImages, this`imageIndexInformation,
               this`allAssets, this`duplicatedAssets
      ensures images == Drop(old(images), {identifier})
      ensures selectedImages == Drop(old(selectedImages), {identifier})
      ensures editedImages == Drop(old(editedImages), {identifier})
      ensures imageIndexInformation == old(imageIndexInformation) - {identifier}
      ensures allAssets == old(allAssets) - {identifier}
      ensures duplicatedAssets == old(duplicatedAssets) - {identifier}
    {
      images := Drop(images, {identifier});
      selectedImages := Drop(selectedImages, {identifier});
      editedImages := Drop(editedImages, {identifier});
      imageIndexInformation := imageIndexInformation - {identifier};
      allAssets := allAssets - {identifier};
      duplicatedAssets := duplicatedAssets - {identifier};
    }

    /**
     * `photoLibraryDidChange`: ignored before the first fetch or when the
     * fetch result did not change; otherwise enters inserted assets, purges
     * removed ones, rescans on a change that lists nothing, and keeps the
     * fetch result after the change.
     */
    method PhotoLibraryDidChange(details: Option<ChangeDetails>, rescan: Option<seq<Asset>>)
      modifies this`allAssets, this`fetchAllowed, this`fetchResults, this`images, this`editedImages,
               this`selectedImages, this`imageIndexInformation, this`duplicatedAssets
      ensures old(fetchResults).None? || details.None? ==>
                && allAssets == old(allAssets) && fetchAllowed == old(fetchAllowed)
                && fetchResults == old(fetchResults) && images == old(images)
                && editedImages == old(editedImages) && selectedImages == old(selectedImages)
                && imageIndexInformation == old(imageIndexInformation)
                && duplicatedAssets == old(duplicatedAssets)
      ensures old(fetchResults).Some? && details.Some? ==> fetchResults == Some(details.value.afterChanges)
      ensures old(fetchResults).Some? && details.Some? && !Unchanged(details.value) ==>
                var d := details.value;
                var gone := AssetIds(d.removed);
                && allAssets == (if old(fetchAllowed)
                                 then AddInserted(old(allAssets), d.inserted, old(duplicatedAssets))
                                 else old(allAssets)) - gone
                && images == Drop(old(images), gone) && editedImages == Drop(old(editedImages), gone)
                && selectedImages == Drop(old(selectedImages), gone)
                && imageIndexInformation == old(imageIndexInformation) - gone
                && duplicatedAssets == old(duplicatedAssets) - gone
                && fetchAllowed == old(fetchAllowed)
      ensures old(fetchResults).Some? && details.Some? && Unchanged(details.value) ==>
                && fetchAllowed && imageIndexInformation == old(imageIndexInformation)
                && duplicatedAssets == old(duplicatedAssets)
                && if rescan.None?
                   then allAssets == map[] && images == old(images) && editedImages == old(editedImages)
                        && selectedImages == old(selectedImages)
                   else
                     var candidates := NotInLedger(rescan.value, duplicatedAssets);
                     && allAssets == AssetMap(candidates)
                     && images == Within(old(images), AssetIds(candidates))
                     && editedImages == Within(old(editedImages), AssetIds(candidates))
                     && selectedImages == Within(old(selectedImages), AssetIds(candidates))
      // an asset entered by a change was not in the ledger set
      ensures forall id :: id in allAssets && id !in old(allAssets) ==> id !in old(duplicatedAssets)
      // a removed asset is gone from the lists, the tables and the ledger set
      ensures old(fetchResults).Some? && details.Some? ==>
                forall a :: a in details.value.removed ==>
                  && a.id !in allAssets && a.id !in imageIndexInformation && a.id !in duplicatedAssets
                  && a.id !in ImageIdSet(images) && a.id !in ImageIdSet(editedImages)
                  && a.id !in ImageIdSet(selectedImages)
    {
      if fetchResults.None? {
        return;
      }
      if details.None? {
        return;
      }
      var d := details.value;
      ApplyEdits(d);
      DropMembers(old(images), AssetIds(d.removed));
      DropMembers(old(editedImages), AssetIds(d.removed));
      DropMembers(old(selectedImages), AssetIds(d.removed));
      if d.removed == [] && d.changed == [] && d.inserted == [] {
        FetchAllPhotos(rescan);
        if rescan.Some? {
          NotInLedgerMembers(rescan.value, duplicatedAssets);
          AssetMapEntries(NotInLedger(rescan.value, duplicatedAssets));
        }
      }
      fetchResults := Some(d.afterChanges);
    }

    /** The inserted and removed branches of `photoLibraryDidChange`. */
    method ApplyEdits(d: ChangeDetails)
      modifies this`allAssets, this`images, this`editedImages, this`selectedImages,
               this`imageIndexInformation, this`duplicatedAssets
      ensures var gone := AssetIds(d.removed);
              && allAssets == (if fetchAllowed
                               then AddInserted(old(allAssets), d.inserted, old(duplicatedAssets))
                               else old(allAssets)) - gone
              && images == Drop(old(images), gone) && editedImages == Drop(old(editedImages), gone)
              && selectedImages == Drop(old(selectedImages), gone)
              && imageIndexInformation == old(imageIndexInformation) - gone
              && duplicatedAssets == old(duplicatedAssets) - gone
      ensures d.inserted == [] && d.removed == [] ==>
                && allAssets == old(allAssets) && images == old(images) && editedImages == old(editedImages)
                && selectedImages == old(selectedImages) && imageIndexInformation == old(imageIndexInformation)
                && duplicatedAssets == old(duplicatedAssets)
      ensures forall id :: id in allAssets && id !in old(allAssets) ==> id !in old(duplicatedAssets)
    {
      if d.inserted != [] {
        AddInsertedAssets(d.inserted);
      }
      if d.removed != [] {
        PurgeRemoved(d.removed);
      } else {
        assert AssetIds(d.removed) == {};
        DropNothing(images, {});
        DropNothing(editedImages, {});
        DropNothing(selectedImages, {});
        assert allAssets - {} == allAssets;
        assert imageIndexInformation - {} == imageIndexInformation;
      }
    }
  }

  /** A change that lists no inserted, removed or changed object. */
  predicate Unchanged(d: ChangeDetails)
  {
    d.removed == [] && d.changed == [] && d.inserted == []
  }
}
