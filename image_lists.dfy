/**
 * The values the image model keeps: the display record of a Live Photo, the
 * list filters its `removeAll(where:)` and `filter` calls perform, the
 * candidate scan, the asset lookup table and the freed-space byte sum.
 */
module ImageLists {
  import opened PhotoLibrary
  import CleanData

  /** `CustomImage` without its thumbnail: the asset id and the `selected` flag. */
  datatype CustomImage = CustomImage(id: Id, selected: bool)

  /** The positions of an id in the three lists (`imageIndexInformation` values). */
  datatype IndexInfo = IndexInfo(imagesIndex: Option<int>, editedImagesIndex: Option<int>,
                                 selectedImagesIndex: Option<int>)

  /** A `PHFetchResultChangeDetails`: what changed in the fetch result, and the result after it. */
  datatype ChangeDetails = ChangeDetails(inserted: seq<Asset>, removed: seq<Asset>,
                                         changed: seq<Asset>, afterChanges: seq<Asset>)

  /** `maxImageSelectionCount`. */
  const MaxImageSelectionCount: int := 250

  /** The ids in a list, in order. */
  function ImageIds(list: seq<CustomImage>): seq<Id>
  {
    seq(|list|, i requires 0 <= i < |list| => list[i].id)
  }

  /** The ids in a list, as a set. */
  function ImageIdSet(list: seq<CustomImage>): set<Id>
  {
    set x | x in list :: x.id
  }

  /** The ids of some assets, as a set. */
  function AssetIds(assets: seq<Asset>): set<Id>
  {
    set a | a in assets :: a.id
  }

  /** The ids of a prefix one asset longer. */
  lemma AssetIdsPrefix(assets: seq<Asset>, i: nat)
    requires i < |assets|
    ensures AssetIds(assets[..i + 1]) == AssetIds(assets[..i]) + {assets[i].id}
  {
    assert assets[..i + 1] == assets[..i] + [assets[i]];
  }

  /** Removing a set of keys and then one more removes their union. */
  lemma MinusOneMore<V>(m: map<Id, V>, done: set<Id>, id: Id)
    ensures (m - done) - {id} == m - (done + {id})
  {
  }

  /** How many items of a list are selected. */
  function CountSelected(list: seq<CustomImage>): nat
  {
    if list == [] then 0 else (if list[0].selected then 1 else 0) + CountSelected(list[1..])
  }

  /** `firstIndex(where: { $0.id == id })`. */
  function FirstIndex(list: seq<CustomImage>, id: Id): (r: Option<nat>)
    ensures r.Some? ==> r.value < |list| && list[r.value].id == id
    ensures r.Some? ==> forall j :: 0 <= j < r.value ==> list[j].id != id
    ensures r.None? <==> forall j :: 0 <= j < |list| ==> list[j].id != id
  {
    if list == [] then None
    else if list[0].id == id then Some(0)
    else match FirstIndex(list[1..], id)
      case None => None
      case Some(k) => Some(k + 1)
  }

  /** `removeAll(where: { ids.contains($0.id) })`: the items whose id is not in `ids`, in order. */
  function Drop(list: seq<CustomImage>, ids: set<Id>): (r: seq<CustomImage>)
    ensures |r| <= |list|
  {
    if list == [] then []
    else (if list[0].id in ids then [] else [list[0]]) + Drop(list[1..], ids)
  }

  /** `removeAll(where: { !ids.contains($0.id) })`: the items whose id is in `ids`, in order. */
  function Within(list: seq<CustomImage>, ids: set<Id>): (r: seq<CustomImage>)
    ensures |r| <= |list|
  {
    if list == [] then []
    else (if list[0].id in ids then [list[0]] else []) + Within(list[1..], ids)
  }

  /** `Drop` keeps exactly the items whose id is not in `ids`. */
  lemma {:induction false} DropMembers(list: seq<CustomImage>, ids: set<Id>)
    ensures forall x :: x in Drop(list, ids) <==> x in list && x.id !in ids
  {
    if list != [] {
      DropMembers(list[1..], ids);
      assert forall x :: x in list <==> x == list[0] || x in list[1..];
    }
  }

  /** `Within` keeps exactly the items whose id is in `ids`. */
  lemma {:induction false} WithinMembers(list: seq<CustomImage>, ids: set<Id>)
    ensures forall x :: x in Within(list, ids) <==> x in list && x.id in ids
  {
    if list != [] {
      WithinMembers(list[1..], ids);
      assert forall x :: x in list <==> x == list[0] || x in list[1..];
    }
  }

  /** Removing ids that no item carries leaves the list as it is. */
  lemma {:induction false} DropNothing(list: seq<CustomImage>, ids: set<Id>)
    requires forall i :: 0 <= i < |list| ==> list[i].id !in ids
    ensures Drop(list, ids) == list
  {
    if list != [] {
      DropNothing(list[1..], ids);
      assert [list[0]] + list[1..] == list;
    }
  }

  /** Filtering keeps the order: it distributes over concatenation. */
  lemma {:induction false} DropConcat(a: seq<CustomImage>, b: seq<CustomImage>, ids: set<Id>)
    ensures Drop(a + b, ids) == Drop(a, ids) + Drop(b, ids)
  {
    if a != [] {
      assert (a + b)[0] == a[0] && (a + b)[1..] == a[1..] + b;
      DropConcat(a[1..], b, ids);
    } else {
      assert a + b == b;
    }
  }

  /** Removing one set of ids, then another, removes their union. */
  lemma {:induction false} DropDrop(list: seq<CustomImage>, a: set<Id>, b: set<Id>)
    ensures Drop(Drop(list, a), b) == Drop(list, a + b)
  {
    if list != [] {
      var x, rest := list[0], list[1..];
      DropDrop(rest, a, b);
      var once := Drop(list, a);
      if x.id in a {
        assert once == Drop(rest, a);
      } else {
        assert once == [x] + Drop(rest, a);
        assert once[0] == x && once[1..] == Drop(rest, a);
      }
    }
  }

  /** Toggling one item moves the number of selected items by one. */
  lemma {:induction false} CountToggle(list: seq<CustomImage>, k: nat)
    requires k < |list|
    ensures CountSelected(list[k := list[k].(selected := !list[k].selected)])
            == CountSelected(list) + (if list[k].selected then -1 else 1)
  {
    var toggled := list[k := list[k].(selected := !list[k].selected)];
    if k == 0 {
      assert toggled[1..] == list[1..];
    } else {
      CountToggle(list[1..], k - 1);
      assert toggled[1..] == list[1..][k - 1 := list[k].(selected := !list[k].selected)];
    }
  }

  /** A list whose items are all unselected counts no selection. */
  lemma {:induction false} CountNone(list: seq<CustomImage>)
    requires forall i :: 0 <= i < |list| ==> !list[i].selected
    ensures CountSelected(list) == 0
  {
    if list != [] {
      CountNone(list[1..]);
    }
  }

  /** The scan in `fetchAllPhotos`: the fetched assets not yet in the ledger set, in order. */
  function NotInLedger(fetched: seq<Asset>, done: set<Id>): (r: seq<Asset>)
    ensures |r| <= |fetched|
  {
    if fetched == [] then []
    else
      var last := fetched[|fetched| - 1];
      NotInLedger(fetched[..|fetched| - 1], done) + (if last.id in done then [] else [last])
  }

  /** The scan keeps exactly the fetched assets whose id is not in the ledger set. */
  lemma {:induction false} NotInLedgerMembers(fetched: seq<Asset>, done: set<Id>)
    ensures forall a :: a in NotInLedger(fetched, done) <==> a in fetched && a.id !in done
  {
    if fetched != [] {
      var init := fetched[..|fetched| - 1];
      NotInLedgerMembers(init, done);
      assert forall a :: a in fetched <==> a in init || a == fetched[|fetched| - 1];
    }
  }

  /** The lookup table `allAssets` built from a sequence of assets; a later asset wins. */
  function AssetMap(assets: seq<Asset>): map<Id, Asset>
  {
    if assets == [] then map[]
    else
      var last := assets[|assets| - 1];
      AssetMap(assets[..|assets| - 1])[last.id := last]
  }

  /** The table holds exactly the ids of the assets, each mapped to an asset of that id. */
  lemma {:induction false} AssetMapEntries(assets: seq<Asset>)
    ensures AssetMap(assets).Keys == AssetIds(assets)
    ensures forall id :: id in AssetMap(assets) ==> AssetMap(assets)[id] in assets && AssetMap(assets)[id].id == id
  {
    if assets != [] {
      var init := assets[..|assets| - 1];
      AssetMapEntries(init);
      assert forall a :: a in assets <==> a in init || a == assets[|assets| - 1];
    }
  }

  /**
   * What a scan offers: no id of the ledger set gets an entry in the table,
   * and every item a list keeps after pruning to the candidates has one.
   */
  lemma ScanOffers(fetched: seq<Asset>, done: set<Id>, list: seq<CustomImage>)
    ensures forall id :: id in AssetMap(NotInLedger(fetched, done)) ==> id !in done
    ensures forall x :: x in Within(list, AssetIds(NotInLedger(fetched, done))) ==>
              x.id in AssetMap(NotInLedger(fetched, done))
  {
    NotInLedgerMembers(fetched, done);
    AssetMapEntries(NotInLedger(fetched, done));
    WithinMembers(list, AssetIds(NotInLedger(fetched, done)));
  }

  /** The inserted assets not in the ledger set, entered into the lookup table in order. */
  function AddInserted(m: map<Id, Asset>, inserted: seq<Asset>, done: set<Id>): (r: map<Id, Asset>)
    ensures r.Keys == m.Keys + AssetIds(NotInLedger(inserted, done))
    ensures forall id :: id in r && id in done ==> id in m && r[id] == m[id]
    ensures forall id :: id in r && id !in m ==> id !in done
    ensures forall id :: id in m && id !in AssetIds(NotInLedger(inserted, done)) ==> r[id] == m[id]
    ensures forall id :: id in AssetIds(NotInLedger(inserted, done)) ==> r[id] in inserted && r[id].id == id
  {
    if inserted == [] then m
    else
      var last := inserted[|inserted| - 1];
      var init := inserted[..|inserted| - 1];
      var r0 := AddInserted(m, init, done);
      NotInLedgerMembers(init, done);
      assert NotInLedger(inserted, done) == NotInLedger(init, done) + (if last.id in done then [] else [last]);
      if last.id in done then r0 else r0[last.id := last]
  }

  /** The assets of the selected images, in selection order, skipping ids not in the table. */
  function SelectedAssets(selected: seq<CustomImage>, assets: map<Id, Asset>): (r: seq<Asset>)
    ensures |r| <= |selected|
    ensures forall a :: a in r ==> exists i :: 0 <= i < |selected| && selected[i].id in assets && assets[selected[i].id] == a
    ensures (forall i :: 0 <= i < |selected| ==> selected[i].id in assets) ==>
              |r| == |selected| && forall i :: 0 <= i < |r| ==> r[i] == assets[selected[i].id]
  {
    if selected == [] then []
    else
      var last := selected[|selected| - 1];
      var init := selected[..|selected| - 1];
      var r0 := SelectedAssets(init, assets);
      assert forall i :: 0 <= i < |init| ==> init[i] == selected[i];
      r0 + (if last.id in assets then [assets[last.id]] else [])
  }

  /** Selection order is kept: the assets of two selections are those of each, in turn. */
  lemma {:induction false} SelectedAssetsConcat(a: seq<CustomImage>, b: seq<CustomImage>, assets: map<Id, Asset>)
    ensures SelectedAssets(a + b, assets) == SelectedAssets(a, assets) + SelectedAssets(b, assets)
  {
    if b == [] {
      assert a + b == a;
    } else {
      var b0 := b[..|b| - 1];
      SelectedAssetsConcat(a, b0, assets);
      assert (a + b)[..|a + b| - 1] == a + b0;
      assert (a + b)[|a + b| - 1] == b[|b| - 1];
    }
  }

  /** The resource kinds whose bytes go away with the Live Photo: its paired video. */
  predicate IsFreedKind(kind: ResourceKind)
  {
    kind == PairedVideo || kind == FullSizePairedVideo || kind == AdjustmentBasePairedVideo
  }

  /** The bytes counted as freed are never copied: no paired-video kind is a tracked kind. */
  lemma FreedKindsNotCopied(kind: ResourceKind)
    ensures IsFreedKind(kind) ==> !CleanData.ValidType(kind)
  {
  }

  /** The sizes of an asset's paired-video resources, summed. */
  function PairedVideoSize(resources: seq<Resource>): (size: nat)
    ensures (forall i :: 0 <= i < |resources| ==> !IsFreedKind(resources[i].kind)) ==> size == 0
  {
    if resources == [] then 0
    else
      var last := resources[|resources| - 1];
      PairedVideoSize(resources[..|resources| - 1]) + (if IsFreedKind(last.kind) then last.fileSize else 0)
  }

  /** One resource adds its size when it is part of the paired video, and nothing otherwise. */
  lemma PairedVideoSizeOne(r: Resource)
    ensures PairedVideoSize([r]) == if IsFreedKind(r.kind) then r.fileSize else 0
  {
    assert [r][..0] == [];
  }

  /** The paired-video size of an asset is the sum over its resources. */
  lemma {:induction false} PairedVideoSizeConcat(a: seq<Resource>, b: seq<Resource>)
    ensures PairedVideoSize(a + b) == PairedVideoSize(a) + PairedVideoSize(b)
  {
    if b == [] {
      assert a + b == a;
    } else {
      var b0 := b[..|b| - 1];
      PairedVideoSizeConcat(a, b0);
      assert (a + b)[..|a + b| - 1] == a + b0;
      assert (a + b)[|a + b| - 1] == b[|b| - 1];
    }
  }

  /** A Live Photo with a 1 MiB paired video and a 2 MiB full-size paired video frees 3 MiB; its photo frees nothing. */
  lemma PairedVideoExample()
    ensures PairedVideoSize([Resource(Photo, 4000000), Resource(PairedVideo, 1048576),
                             Resource(FullSizePairedVideo, 2097152)]) == 3145728
  {
    var rs := [Resource(Photo, 4000000), Resource(PairedVideo, 1048576), Resource(FullSizePairedVideo, 2097152)];
    PairedVideoSizeConcat([rs[0]], [rs[1]]);
    PairedVideoSizeConcat([rs[0], rs[1]], [rs[2]]);
    PairedVideoSizeOne(rs[0]);
    PairedVideoSizeOne(rs[1]);
    PairedVideoSizeOne(rs[2]);
    assert [rs[0]] + [rs[1]] == [rs[0], rs[1]];
    assert [rs[0], rs[1]] + [rs[2]] == rs;
  }

  /** The byte sum `calculateFreedSpace` computes for a selection, before the MiB conversion. */
  function FreedBytes(selected: seq<CustomImage>, assets: map<Id, Asset>): nat
  {
    if selected == [] then 0
    else
      var last := selected[|selected| - 1];
      FreedBytes(selected[..|selected| - 1], assets)
      + (if last.id in assets then PairedVideoSize(assets[last.id].resources) else 0)
  }

  /** One selected image frees the paired-video bytes of its asset, or nothing when its id is unknown. */
  lemma FreedBytesOne(x: CustomImage, assets: map<Id, Asset>)
    ensures FreedBytes([x], assets) == if x.id in assets then PairedVideoSize(assets[x.id].resources) else 0
  {
    assert [x][..0] == [];
  }

  /** The freed space of a selection is the sum over its parts. */
  lemma {:induction false} FreedBytesConcat(a: seq<CustomImage>, b: seq<CustomImage>, assets: map<Id, Asset>)
    ensures FreedBytes(a + b, assets) == FreedBytes(a, assets) + FreedBytes(b, assets)
  {
    if b == [] {
      assert a + b == a;
    } else {
      var b0 := b[..|b| - 1];
      FreedBytesConcat(a, b0, assets);
      assert (a + b)[..|a + b| - 1] == a + b0;
      assert (a + b)[|a + b| - 1] == b[|b| - 1];
    }
  }

  /** Only paired-video bytes count: selecting images of assets without them frees nothing. */
  lemma {:induction false} FreedBytesOnlyPairedVideo(selected: seq<CustomImage>, assets: map<Id, Asset>)
    requires forall i, j ::
               (0 <= i < |selected| && selected[i].id in assets && 0 <= j < |assets[selected[i].id].resources|)
               ==> !IsFreedKind(assets[selected[i].id].resources[j].kind)
    ensures FreedBytes(selected, assets) == 0
  {
    if selected != [] {
      FreedBytesOnlyPairedVideo(selected[..|selected| - 1], assets);
    }
  }
}
