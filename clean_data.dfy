/**
 * The value-level side of the duplication engine: which resource parts are
 * copied, the per-block completeness map (`imageCleanData`), the data
 * requests issued for a block, how the pending queue is cut into blocks and
 * the creation payload built from a complete map.
 */
module CleanData {
  import opened PhotoLibrary

  /** `duplicationBlockSize`. */
  const BlockSize: nat := 25

  function Min(a: int, b: int): int
  {
    if a < b then a else b
  }

  /** `validTypesOf`: the resource kinds that are copied into the replacement still image. */
  predicate ValidType(kind: ResourceKind)
  {
    kind == Photo || kind == FullSizePhoto || kind == AdjustmentData
  }

  /** One value of `imageCleanData[id][kind]`: the bytes received so far and whether the request finished. */
  datatype Part = Part(data: Bytes, complete: bool)

  type PartMap = map<ResourceKind, Part>

  /** `imageCleanData`: asset id to resource kind to part. */
  type CleanMap = map<Id, PartMap>

  // ---------------------------------------------------------------------------
  // Preparing the map for a block

  /** The kinds of `resources` that get an entry. */
  function TrackedKinds(resources: seq<Resource>): set<ResourceKind>
  {
    set r | r in resources && ValidType(r.kind) :: r.kind
  }

  /** The inner map built for one asset's resources, part by part: every tracked kind, with no data and not complete. */
  function EmptyEntry(resources: seq<Resource>): (entry: PartMap)
    ensures entry.Keys == TrackedKinds(resources)
    ensures forall k :: k in entry ==> entry[k] == Part([], false)
  {
    if resources == [] then map[]
    else
      var r := resources[|resources| - 1];
      var init := resources[..|resources| - 1];
      assert resources == init + [r];
      var entry := EmptyEntry(init);
      if ValidType(r.kind) then entry[r.kind := Part([], false)] else entry
  }

  /** The map built for a block, asset by asset; a later asset with the same id replaces the earlier entry. */
  function Prepared(block: seq<Asset>): CleanMap
  {
    if block == [] then map[]
    else Prepared(block[..|block| - 1])[block[|block| - 1].id := EmptyEntry(block[|block| - 1].resources)]
  }

  /** No two assets of a block share an id unless they are the same asset. */
  predicate IdsIdentify(block: seq<Asset>)
  {
    forall i, j :: 0 <= i < |block| && 0 <= j < |block| && block[i].id == block[j].id ==> block[i] == block[j]
  }

  /** The prepared map has one entry per asset id, and every entry holds only tracked kinds, empty and incomplete. */
  lemma {:induction false} PreparedShape(block: seq<Asset>)
    ensures Prepared(block).Keys == set a | a in block :: a.id
    ensures forall id, k :: id in Prepared(block) && k in Prepared(block)[id] ==>
              ValidType(k) && Prepared(block)[id][k] == Part([], false)
    ensures forall id :: id in Prepared(block) ==>
              exists a :: a in block && a.id == id && Prepared(block)[id] == EmptyEntry(a.resources)
  {
    if block != [] {
      var init, last := block[..|block| - 1], block[|block| - 1];
      assert block == init + [last];
      PreparedShape(init);
      forall id | id in Prepared(block)
        ensures exists a :: a in block && a.id == id && Prepared(block)[id] == EmptyEntry(a.resources)
      {
        if id == last.id {
          assert last in block;
        } else {
          var a :| a in init && a.id == id && Prepared(init)[id] == EmptyEntry(a.resources);
          assert a in block;
        }
      }
    }
  }

  /** When ids identify assets, each asset's entry holds exactly its own tracked kinds. */
  lemma {:induction false} PreparedEntries(block: seq<Asset>)
    requires IdsIdentify(block)
    ensures forall a :: a in block ==> a.id in Prepared(block) && Prepared(block)[a.id] == EmptyEntry(a.resources)
  {
    PreparedShape(block);
    forall a | a in block
      ensures a.id in Prepared(block) && Prepared(block)[a.id] == EmptyEntry(a.resources)
    {
      var b :| b in block && b.id == a.id && Prepared(block)[a.id] == EmptyEntry(b.resources);
      var i :| 0 <= i < |block| && block[i] == a;
      var j :| 0 <= j < |block| && block[j] == b;
    }
  }

  // ---------------------------------------------------------------------------
  // The data requests of a block

  /** One `requestData` call: the asset, the resource kind and `isNetworkAccessAllowed`. */
  datatype Request = Request(id: Id, kind: ResourceKind, networkAccessAllowed: bool)

  /** The requests issued for one asset's resources, in order, skipping untracked kinds. */
  function PartRequests(id: Id, resources: seq<Resource>, network: bool): seq<Request>
  {
    if resources == [] then []
    else
      var r := resources[|resources| - 1];
      PartRequests(id, resources[..|resources| - 1], network)
      + (if ValidType(r.kind) then [Request(id, r.kind, network)] else [])
  }

  /** The requests issued for a block, asset by asset. */
  function BlockRequests(block: seq<Asset>, network: bool): seq<Request>
  {
    if block == [] then []
    else
      var a := block[|block| - 1];
      BlockRequests(block[..|block| - 1], network) + PartRequests(a.id, a.resources, network)
  }

  lemma {:induction false} PartRequestsAre(id: Id, resources: seq<Resource>, network: bool)
    ensures forall q :: q in PartRequests(id, resources, network) <==>
              q.id == id && q.networkAccessAllowed == network && q.kind in TrackedKinds(resources)
  {
    if resources != [] {
      var init := resources[..|resources| - 1];
      assert resources == init + [resources[|resources| - 1]];
      PartRequestsAre(id, init, network);
    }
  }

  /** Every entry of the prepared map has a request of its own. */
  lemma {:induction false} EveryEntryRequested(block: seq<Asset>, network: bool)
    ensures forall id, k :: id in Prepared(block) && k in Prepared(block)[id] ==>
              Request(id, k, network) in BlockRequests(block, network)
  {
    if block != [] {
      var init, last := block[..|block| - 1], block[|block| - 1];
      EveryEntryRequested(init, network);
      PartRequestsAre(last.id, last.resources, network);
    }
  }

  /** When ids identify assets, every request targets an entry of the prepared map. */
  lemma {:induction false} EveryRequestHasEntry(block: seq<Asset>, network: bool)
    requires IdsIdentify(block)
    ensures forall q :: q in BlockRequests(block, network) ==>
              q.id in Prepared(block) && q.kind in Prepared(block)[q.id]
  {
    if block != [] {
      var init, last := block[..|block| - 1], block[|block| - 1];
      assert IdsIdentify(init) by {
        forall i, j | 0 <= i < |init| && 0 <= j < |init| && init[i].id == init[j].id
          ensures init[i] == init[j]
        {
          assert block[i] == init[i] && block[j] == init[j];
        }
      }
      EveryRequestHasEntry(init, network);
      PartRequestsAre(last.id, last.resources, network);
      forall q | q in BlockRequests(init, network)
        ensures q.id in Prepared(block) && q.kind in Prepared(block)[q.id]
      {
        if q.id == last.id {
          PreparedShape(init);
          var a :| a in init && a.id == q.id && Prepared(init)[q.id] == EmptyEntry(a.resources);
          var i :| 0 <= i < |init| && init[i] == a;
          assert block[i] == a && block[|block| - 1] == last;
        }
      }
    }
  }

  // ---------------------------------------------------------------------------
  // Streaming data and completing parts

  /** The two maps have the same ids and, per id, the same kinds. */
  predicate SameShape(m: CleanMap, r: CleanMap)
  {
    m.Keys == r.Keys && forall id :: id in m ==> id in r && r[id].Keys == m[id].Keys
  }

  /** `dataReceivedHandler`: appends a chunk to an existing entry and never creates one. */
  function AppendChunk(m: CleanMap, id: Id, kind: ResourceKind, chunk: Bytes): (r: CleanMap)
    ensures SameShape(m, r)
    ensures forall i, k :: i in m && k in m[i] ==> r[i][k].complete == m[i][k].complete
    ensures forall i, k :: i in m && k in m[i] && (i != id || k != kind) ==> r[i][k] == m[i][k]
    ensures id in m && kind in m[id] ==> r[id][kind].data == m[id][kind].data + chunk
    ensures !(id in m && kind in m[id]) ==> r == m
  {
    if id in m && kind in m[id] then
      m[id := m[id][kind := m[id][kind].(data := m[id][kind].data + chunk)]]
    else m
  }

  /** The successful branch of the completion handler: sets only that entry's flag, if the entry exists. */
  function MarkComplete(m: CleanMap, id: Id, kind: ResourceKind): CleanMap
  {
    if id in m && kind in m[id] then
      m[id := m[id][kind := m[id][kind].(complete := true)]]
    else m
  }

  /** A completion keeps the shape and the data, and completes exactly its own entry. */
  lemma MarkCompleteSetsOne(m: CleanMap, id: Id, kind: ResourceKind)
    ensures var r := MarkComplete(m, id, kind);
            && SameShape(m, r)
            && (forall i, k :: i in m && k in m[i] ==> r[i][k].data == m[i][k].data)
            && (forall i, k :: i in m && k in m[i] ==>
                  r[i][k].complete == (m[i][k].complete || (i == id && k == kind)))
  {
  }

  /** `allAssetsComplete`: every tracked part of every asset has finished. */
  predicate AllComplete(m: CleanMap)
  {
    forall id, k :: id in m && k in m[id] ==> m[id][k].complete
  }

  /** The map after the successful completion of each request of `qs`, in order. */
  function MarkAll(m: CleanMap, qs: seq<Request>): CleanMap
  {
    if qs == [] then m
    else MarkAll(MarkComplete(m, qs[0].id, qs[0].kind), qs[1..])
  }

  /** Some request of `qs` is for this entry. */
  predicate Requested(qs: seq<Request>, id: Id, k: ResourceKind)
  {
    exists q :: q in qs && q.id == id && q.kind == k
  }

  /**
   * After a series of successful completions the map is complete exactly
   * when every entry was already complete or one of them completed it.
   */
  lemma {:induction false} CompleteAfter(m: CleanMap, qs: seq<Request>)
    ensures SameShape(m, MarkAll(m, qs))
    ensures AllComplete(MarkAll(m, qs)) <==>
              forall id, k :: id in m && k in m[id] ==> m[id][k].complete || Requested(qs, id, k)
  {
    if qs != [] {
      var m' := MarkComplete(m, qs[0].id, qs[0].kind);
      MarkCompleteSetsOne(m, qs[0].id, qs[0].kind);
      CompleteAfter(m', qs[1..]);
      forall id, k | id in m && k in m[id]
        ensures (m'[id][k].complete || Requested(qs[1..], id, k)) <==> (m[id][k].complete || Requested(qs, id, k))
      {
        if Requested(qs, id, k) && !m[id][k].complete && !(qs[0].id == id && qs[0].kind == k) {
          var q :| q in qs && q.id == id && q.kind == k;
          assert q in qs[1..];
        }
        if Requested(qs[1..], id, k) {
          var q :| q in qs[1..] && q.id == id && q.kind == k;
          assert q in qs;
        }
      }
    }
  }

  /**
   * A prepared block becomes complete once every request issued for it has
   * succeeded; if one tracked part never succeeds the block never completes.
   */
  lemma BlockCompletes(block: seq<Asset>, network: bool, qs: seq<Request>)
    ensures AllComplete(MarkAll(Prepared(block), BlockRequests(block, network)))
    ensures AllComplete(MarkAll(Prepared(block), qs)) <==>
              forall id, k :: id in Prepared(block) && k in Prepared(block)[id] ==> Requested(qs, id, k)
  {
    PreparedShape(block);
    CompleteAfter(Prepared(block), qs);
    CompleteAfter(Prepared(block), BlockRequests(block, network));
    EveryEntryRequested(block, network);
    forall id, k | id in Prepared(block) && k in Prepared(block)[id]
      ensures Requested(BlockRequests(block, network), id, k)
    {
      assert Request(id, k, network) in BlockRequests(block, network);
    }
  }

  // ---------------------------------------------------------------------------
  // Cutting the queue into blocks

  /** The blocks repeated calls of `startDuplication` take: `suffix(25)` of what remains, until nothing does. */
  function Blocks<T>(q: seq<T>): seq<seq<T>>
    decreases |q|
  {
    if q == [] then []
    else
      var k := Min(BlockSize, |q|);
      [q[|q| - k..]] + Blocks(q[..|q| - k])
  }

  /** Puts the blocks back together: the first block taken is the tail of the queue. */
  function Rejoin<T>(bs: seq<seq<T>>): seq<T>
  {
    if bs == [] then [] else Rejoin(bs[1..]) + bs[0]
  }

  /** The blocks partition the queue: every queued asset is taken exactly once, and nothing else is. */
  lemma {:induction false} BlocksPartition<T>(q: seq<T>)
    ensures Rejoin(Blocks(q)) == q
    ensures multiset(q) == multiset(Rejoin(Blocks(q)))
  {
    if q != [] {
      var k := Min(BlockSize, |q|);
      BlocksPartition(q[..|q| - k]);
      assert q == q[..|q| - k] + q[|q| - k..];
    }
  }

  /** There are ceil(|q| / 25) blocks; none is empty, all but the last hold 25 assets. */
  lemma {:induction false} BlockSizes<T>(q: seq<T>)
    ensures |Blocks(q)| == (|q| + BlockSize - 1) / BlockSize
    ensures forall i :: 0 <= i < |Blocks(q)| ==> 0 < |Blocks(q)[i]| <= BlockSize
    ensures forall i :: 0 <= i < |Blocks(q)| - 1 ==> |Blocks(q)[i]| == BlockSize
  {
    if q != [] {
      var k := Min(BlockSize, |q|);
      BlockSizes(q[..|q| - k]);
    }
  }

  /** 57 queued assets are taken as blocks of 25, 25 and 7. */
  lemma FiftySevenAssets<T>(q: seq<T>)
    requires |q| == 57
    ensures |Blocks(q)| == 3
    ensures |Blocks(q)[0]| == 25 && |Blocks(q)[1]| == 25 && |Blocks(q)[2]| == 7
  {
    BlockSizes(q);
    BlocksPartition(q);
    var bs := Blocks(q);
    assert Rejoin(bs) == Rejoin(bs[1..][1..]) + bs[1] + bs[0];
    assert bs[1..][1..] == [bs[2]];
  }

  // ---------------------------------------------------------------------------
  // The creation payload

  /** One `PHAssetCreationRequest`: the photo data, plus the full-size photo and the adjustment data when the asset has them. */
  datatype CreationRequest = CreationRequest(
    source: Id, photo: Bytes, fullSizePhoto: Option<Bytes>, adjustmentData: Option<Bytes>)

  function CreationFor(id: Id, parts: PartMap): CreationRequest
  {
    CreationRequest(
      id,
      if Photo in parts then parts[Photo].data else [],
      if FullSizePhoto in parts then Some(parts[FullSizePhoto].data) else None,
      if AdjustmentData in parts then Some(parts[AdjustmentData].data) else None)
  }

  /**
   * The payload carries what was streamed into the entry: a chunk appended to
   * one tracked part extends that part's field of the payload and no other.
   */
  lemma CreationForChunk(id: Id, m: CleanMap, kind: ResourceKind, chunk: Bytes)
    requires id in m
    ensures var before := CreationFor(id, m[id]);
            var after := CreationFor(id, AppendChunk(m, id, kind, chunk)[id]);
            && after.source == before.source
            && (kind == Photo && Photo in m[id] ==> after == before.(photo := before.photo + chunk))
            && (kind == FullSizePhoto && FullSizePhoto in m[id] ==>
                  after == before.(fullSizePhoto := Some(before.fullSizePhoto.value + chunk)))
            && (kind == AdjustmentData && AdjustmentData in m[id] ==>
                  after == before.(adjustmentData := Some(before.adjustmentData.value + chunk)))
            && (kind !in m[id] || !ValidType(kind) ==> after == before)
  {
  }

  /** The creation requests of the change block: one per asset that has an entry, in block order. */
  function Creations(assets: seq<Asset>, m: CleanMap): (cs: seq<CreationRequest>)
    ensures |cs| <= |assets|
    ensures forall c :: c in cs ==>
              && c.source in m
              && (exists i :: 0 <= i < |assets| && assets[i].id == c.source)
              && c == CreationFor(c.source, m[c.source])
    ensures (forall a :: a in assets ==> a.id in m) ==>
              |cs| == |assets| && forall i :: 0 <= i < |cs| ==> cs[i].source == assets[i].id
  {
    if assets == [] then []
    else
      (if assets[0].id in m then [CreationFor(assets[0].id, m[assets[0].id])] else [])
      + Creations(assets[1..], m)
  }

  /** A single asset yields its creation request exactly when it has an entry. */
  lemma CreationsOne(a: Asset, m: CleanMap)
    ensures Creations([a], m) == if a.id in m then [CreationFor(a.id, m[a.id])] else []
  {
  }

  /** The payload of a block is the payloads of its parts in order; with CreationsOne this fixes it for every map. */
  lemma {:induction false} CreationsConcat(a: seq<Asset>, b: seq<Asset>, m: CleanMap)
    ensures Creations(a + b, m) == Creations(a, m) + Creations(b, m)
  {
    if a == [] {
      assert a + b == b;
    } else {
      assert (a + b)[1..] == a[1..] + b;
      CreationsConcat(a[1..], b, m);
    }
  }

  /** Assets without an entry are skipped: a block where only the first of two assets has one gives one request. */
  lemma CreationsSkipsMissing(x: Asset, y: Asset, m: CleanMap)
    requires x.id in m && y.id !in m
    ensures Creations([x, y], m) == [CreationFor(x.id, m[x.id])]
  {
    CreationsConcat([x], [y], m);
    assert [x, y] == [x] + [y];
  }
}
