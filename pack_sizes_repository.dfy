/**
 * The in-memory pack-size catalog of src/mocks/repositories/pack_sizes.go:
 * a table from the text of a pack size's ID to the record, updated in
 * place. Create and update are both upserts.
 */
module MockPackSizesRepository {

  import opened Models

  class InMemoryPackSizesRepository {

    /** packSizes: ID text -> pack size record. */
    var packSizes: map<Uuid, PackSize>

    /** Every record is stored under its own ID. */
    ghost predicate Valid()
      reads this
    {
      forall id :: id in packSizes ==> packSizes[id].id == id
    }

    /** NewInMemoryPackSizesRepository: an empty catalog. */
    constructor ()
      ensures Valid() && packSizes == map[]
    {
      packSizes := map[];
    }

    /** CreatePackSize: store the record under its ID and return it unchanged. */
    method CreatePackSize(packSize: PackSize) returns (created: PackSize, err: Status)
      requires Valid()
      modifies this
      ensures Valid() && packSizes == old(packSizes)[packSize.id := packSize]
      ensures created == packSize && err == Ok
    {
      packSizes := packSizes[packSize.id := packSize];
      created, err := packSize, Ok;
    }

    /**
     * GetAllPackSizes: each stored record exactly once, in the order the
     * keys are visited, and never an error.
     */
    method GetAllPackSizes() returns (list: seq<PackSize>, err: Status)
      requires Valid()
      ensures err == Ok && |list| == |packSizes|
      ensures forall i :: 0 <= i < |list| ==> list[i].id in packSizes && packSizes[list[i].id] == list[i]
      ensures forall i, j :: 0 <= i < j < |list| ==> list[i].id != list[j].id
      ensures forall id :: id in packSizes ==> packSizes[id] in list
    {
      list := [];
      var remaining := packSizes.Keys;
      while remaining != {}
        invariant remaining <= packSizes.Keys
        invariant |list| + |remaining| == |packSizes|
        invariant forall i :: 0 <= i < |list| ==>
          list[i].id in packSizes.Keys - remaining && packSizes[list[i].id] == list[i]
        invariant forall i, j :: 0 <= i < j < |list| ==> list[i].id != list[j].id
        invariant forall id :: id in packSizes.Keys - remaining ==> packSizes[id] in list
        decreases |remaining|
      {
        var id :| id in remaining;
        list := list + [packSizes[id]];
        remaining := remaining - {id};
      }
      err := Ok;
    }

    /**
     * UpdatePackSize: the same upsert as CreatePackSize, so an absent ID is
     * inserted rather than refused.
     */
    method UpdatePackSize(packSize: PackSize) returns (updated: PackSize, err: Status)
      requires Valid()
      modifies this
      ensures Valid() && packSizes == old(packSizes)[packSize.id := packSize]
      ensures updated == packSize && err == Ok
    {
      packSizes := packSizes[packSize.id := packSize];
      updated, err := packSize, Ok;
    }

    /** Clear: drop every record. */
    method Clear()
      modifies this
      ensures Valid() && packSizes == map[]
    {
      packSizes := map[];
    }
  }

  /** A new catalog lists nothing. */
  method NewCatalogIsEmpty() returns (list: seq<PackSize>)
    ensures list == []
  {
    var repo := new InMemoryPackSizesRepository();
    var err;
    list, err := repo.GetAllPackSizes();
  }

  /** A created record is returned unchanged and then listed. */
  method CreateThenList(packSize: PackSize) returns (created: PackSize, list: seq<PackSize>)
    ensures created == packSize && list == [packSize]
  {
    var repo := new InMemoryPackSizesRepository();
    var err;
    created, err := repo.CreatePackSize(packSize);
    list, err := repo.GetAllPackSizes();
  }

  /** Records with distinct IDs are all listed, one entry each. */
  method CreateThree(a: PackSize, b: PackSize, c: PackSize) returns (list: seq<PackSize>)
    requires a.id != b.id && a.id != c.id && b.id != c.id
    ensures |list| == 3 && forall p :: p in {a, b, c} <==> p in list
  {
    var repo := new InMemoryPackSizesRepository();
    var _, _ := repo.CreatePackSize(a);
    var _, _ := repo.CreatePackSize(b);
    var _, _ := repo.CreatePackSize(c);
    var err;
    list, err := repo.GetAllPackSizes();
    assert repo.packSizes == map[a.id := a, b.id := b, c.id := c];
    assert a.id in repo.packSizes && b.id in repo.packSizes && c.id in repo.packSizes;
  }

  /**
   * Updating a stored ID replaces that record: the catalog still has as
   * many entries, lists the new record, and keeps the other one.
   */
  method UpdateExisting(initial: PackSize, other: PackSize, revised: PackSize) returns (updated: PackSize, list: seq<PackSize>)
    requires initial.id == revised.id && initial.id != other.id
    ensures updated == revised && |list| == 2
    ensures revised in list && other in list && (initial != revised ==> initial !in list)
  {
    var repo := new InMemoryPackSizesRepository();
    var _, _ := repo.CreatePackSize(initial);
    var _, _ := repo.CreatePackSize(other);
    var err;
    updated, err := repo.UpdatePackSize(revised);
    list, err := repo.GetAllPackSizes();
    assert repo.packSizes == map[revised.id := revised, other.id := other];
    assert revised.id in repo.packSizes && other.id in repo.packSizes;
  }

  /** Updating an ID that is not stored inserts it. */
  method UpdateAbsentInserts(packSize: PackSize) returns (updated: PackSize, list: seq<PackSize>)
    ensures updated == packSize && list == [packSize]
  {
    var repo := new InMemoryPackSizesRepository();
    var err;
    updated, err := repo.UpdatePackSize(packSize);
    list, err := repo.GetAllPackSizes();
  }

  /** After Clear nothing is listed. */
  method ListAfterClear(packSize: PackSize) returns (list: seq<PackSize>)
    ensures list == []
  {
    var repo := new InMemoryPackSizesRepository();
    var _, _ := repo.CreatePackSize(packSize);
    repo.Clear();
    var err;
    list, err := repo.GetAllPackSizes();
  }
}
