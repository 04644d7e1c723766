/**
 * The dataset provenance contract: a map from dataset id to dataset record.
 * The caller and the block time are parameters of each call.
 */
module Provenance {
  import opened Wrappers
  import opened Near

  datatype Dataset = Dataset(
    id: string,
    owner: AccountId,
    title: string,
    description: string,
    lineage: seq<string>,
    timestamp: U64)

  class DaicProvenance {
    var datasets: map<string, Dataset>

    /** Every record is stored under its own id. */
    ghost predicate Valid()
      reads this
    {
      forall k :: k in datasets ==> datasets[k].id == k
    }

    /** `new()`: an empty registry. */
    constructor ()
      ensures Valid()
      ensures datasets == map[]
      ensures forall id :: GetDataset(id) == None
    {
      datasets := map[];
    }

    /**
     * `register_dataset`: stores the record under `id`, replacing any record
     * already there; the lineage is kept as given, parents are not looked up.
     */
    method RegisterDataset(id: string, title: string, description: string, lineage: seq<string>,
                           predecessor: AccountId, blockTimestamp: U64)
      requires Valid()
      modifies this
      ensures Valid()
      ensures datasets == old(datasets)[id := Dataset(id, predecessor, title, description, lineage, blockTimestamp)]
      ensures GetDataset(id) == Some(Dataset(id, predecessor, title, description, lineage, blockTimestamp))
      ensures forall other :: other != id ==> GetDataset(other) == old(GetDataset(other))
    {
      var dataset := Dataset(id, predecessor, title, description, lineage, blockTimestamp);
      datasets := datasets[id := dataset];
    }

    /** `get_dataset`: the record stored under `id`, whose own id is `id`. */
    function GetDataset(id: string): (r: Option<Dataset>)
      reads this
      ensures r.Some? <==> id in datasets
      ensures r.Some? ==> r.value == datasets[id]
      ensures Valid() && r.Some? ==> r.value.id == id
    {
      if id in datasets then Some(datasets[id]) else None
    }
  }

  /**
   * A second registration under an id that is already taken succeeds, and
   * the record stored afterwards is the second one.
   */
  method RegisterTwiceOverwrites(registry: DaicProvenance, id: string,
                                 title1: string, description1: string, lineage1: seq<string>, caller1: AccountId, time1: U64,
                                 title2: string, description2: string, lineage2: seq<string>, caller2: AccountId, time2: U64)
    returns (first: Option<Dataset>, second: Option<Dataset>)
    requires registry.Valid()
    modifies registry
    ensures registry.Valid()
    ensures first == Some(Dataset(id, caller1, title1, description1, lineage1, time1))
    ensures second == Some(Dataset(id, caller2, title2, description2, lineage2, time2))
    ensures registry.datasets == old(registry.datasets)[id := second.value]
  {
    registry.RegisterDataset(id, title1, description1, lineage1, caller1, time1);
    first := registry.GetDataset(id);
    registry.RegisterDataset(id, title2, description2, lineage2, caller2, time2);
    second := registry.GetDataset(id);
  }

  /**
   * Any lineage is accepted and stored as given: no parent is looked up, and
   * a parent other than the record itself keeps whatever entry it had,
   * including none.
   */
  method RegisterAcceptsUnknownParents(registry: DaicProvenance, id: string, title: string, description: string,
                                       lineage: seq<string>, caller: AccountId, time: U64)
    returns (child: Option<Dataset>)
    requires registry.Valid()
    modifies registry
    ensures registry.Valid()
    ensures child == Some(Dataset(id, caller, title, description, lineage, time))
    ensures forall p :: p in lineage && p != id ==> registry.GetDataset(p) == old(registry.GetDataset(p))
  {
    registry.RegisterDataset(id, title, description, lineage, caller, time);
    child := registry.GetDataset(id);
  }
}
