/** The product record of the catalogue (src/types/Phone.ts) and lookup by id. The catalogue itself
    is bundled data outside this model, so every operation receives it as a parameter. */
module Catalog {
  import opened Common

  datatype Screen = Screen(size: real, kind: string, resolution: string, refreshRate: int)
  datatype Processor = Processor(name: string, cores: int, frequency: string)
  datatype Memory = Memory(ram: int, storage: int, expandable: bool)
  datatype Cameras = Cameras(main: int, front: int, features: seq<string>)
  datatype Battery = Battery(capacity: int, fastCharging: string, wirelessCharging: Option<bool>)
  datatype Dimensions = Dimensions(height: real, width: real, thickness: real, weight: real)
  datatype Connectivity = Connectivity(bluetooth: string, wifi: string, nfc: bool, usb: string)
  datatype Feature = Feature(title: string, description: string)

  /** One product; `Screen.kind` is the record's `screen.type`. */
  datatype Phone = Phone(
    id: string,
    name: string,
    brand: string,
    releaseYear: int,
    os: string,
    price: int,
    oldPrice: Option<int>,
    popularity: int,
    images: seq<string>,
    description: string,
    screen: Screen,
    processor: Processor,
    memory: Memory,
    cameras: Cameras,
    battery: Battery,
    dimensions: Dimensions,
    connectivity: Connectivity,
    features: seq<Feature>)

  /** Position `i` holds the first phone of the catalogue whose id is `id`. */
  ghost predicate FirstWithIdAt(catalogue: seq<Phone>, id: string, i: int)
  {
    0 <= i < |catalogue| && catalogue[i].id == id && forall j :: 0 <= j < i ==> catalogue[j].id != id
  }

  /** `getPhoneById`: the first phone of the catalogue whose id is `id`, or `None` when there is none. */
  function GetPhoneById(catalogue: seq<Phone>, id: string): (r: Option<Phone>)
    ensures r.None? <==> forall i :: 0 <= i < |catalogue| ==> catalogue[i].id != id
    ensures r.Some? ==> r.value.id == id && exists i :: FirstWithIdAt(catalogue, id, i) && catalogue[i] == r.value
  {
    if catalogue == [] then None
    else if catalogue[0].id == id then Some(catalogue[0])
    else
      var r := GetPhoneById(catalogue[1..], id);
      assert r.Some? ==> exists i :: FirstWithIdAt(catalogue, id, i) && catalogue[i] == r.value by {
        if r.Some? {
          var i :| FirstWithIdAt(catalogue[1..], id, i) && catalogue[1..][i] == r.value;
          assert catalogue[i + 1] == r.value;
          forall j | 0 <= j < i + 1 ensures catalogue[j].id != id {
            if j > 0 { assert catalogue[j] == catalogue[1..][j - 1]; }
          }
          assert FirstWithIdAt(catalogue, id, i + 1);
        }
      }
      r
  }

  /** Ids are unique across the catalogue. */
  ghost predicate UniqueIds(catalogue: seq<Phone>)
  {
    forall i, j :: 0 <= i < |catalogue| && 0 <= j < |catalogue| && catalogue[i].id == catalogue[j].id ==> i == j
  }

  /** With unique ids the lookup finds the phone at every position by its own id. */
  lemma GetPhoneByIdFindsEach(catalogue: seq<Phone>, k: nat)
    requires UniqueIds(catalogue) && k < |catalogue|
    ensures GetPhoneById(catalogue, catalogue[k].id) == Some(catalogue[k])
  {
    var r := GetPhoneById(catalogue, catalogue[k].id);
    var i :| FirstWithIdAt(catalogue, catalogue[k].id, i) && catalogue[i] == r.value;
  }
}
