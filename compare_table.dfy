/** The comparison table (src/components/PhoneCompareTable.tsx): one column per phone, one row per
    specification path, and each row highlighted when the phones disagree on that path. */
module CompareTable {
  import opened Catalog

  /** The fifteen specification paths the table shows, top to bottom. */
  datatype SpecPath =
    | Brand | Os | ReleaseYear
    | ScreenSize | ScreenType | ScreenResolution | ScreenRefreshRate
    | MemoryRam | MemoryStorage
    | ProcessorName | ProcessorCores
    | CamerasMain | CamerasFront
    | BatteryCapacity | BatteryFastCharging

  const Rows: seq<SpecPath> := [
    Brand, Os, ReleaseYear,
    ScreenSize, ScreenType, ScreenResolution, ScreenRefreshRate,
    MemoryRam, MemoryStorage,
    ProcessorName, ProcessorCores,
    CamerasMain, CamerasFront,
    BatteryCapacity, BatteryFastCharging]

  /** A primitive field value; `===` on these is value equality. */
  datatype FieldValue = Text(text: string) | Number(number: real)

  /** The value at a path: a top-level field, or one field of a nested record. */
  function ValueAt(p: Phone, path: SpecPath): FieldValue
  {
    match path
    case Brand => Text(p.brand)
    case Os => Text(p.os)
    case ReleaseYear => Number(p.releaseYear as real)
    case ScreenSize => Number(p.screen.size)
    case ScreenType => Text(p.screen.kind)
    case ScreenResolution => Text(p.screen.resolution)
    case ScreenRefreshRate => Number(p.screen.refreshRate as real)
    case MemoryRam => Number(p.memory.ram as real)
    case MemoryStorage => Number(p.memory.storage as real)
    case ProcessorName => Text(p.processor.name)
    case ProcessorCores => Number(p.processor.cores as real)
    case CamerasMain => Number(p.cameras.main as real)
    case CamerasFront => Number(p.cameras.front as real)
    case BatteryCapacity => Number(p.battery.capacity as real)
    case BatteryFastCharging => Text(p.battery.fastCharging)
  }

  /** Some phone's value at `path` differs from the first phone's. */
  predicate DiffersFromFirst(phones: seq<Phone>, path: SpecPath)
  {
    exists i :: 0 <= i < |phones| && ValueAt(phones[i], path) != ValueAt(phones[0], path)
  }

  /** `isDifferent(property, index)`: false for at most one phone, otherwise whether not every value
      equals the first. The column index is not used. */
  function IsDifferent(phones: seq<Phone>, path: SpecPath, index: int): (r: bool)
    ensures |phones| <= 1 ==> !r
  {
    if |phones| <= 1 then false
    else DiffersFromFirst(phones, path)
  }

  /** Two of the phones disagree at the path. */
  ghost predicate SomePairDiffers(phones: seq<Phone>, path: SpecPath)
  {
    exists i, j :: 0 <= i < |phones| && 0 <= j < |phones| && ValueAt(phones[i], path) != ValueAt(phones[j], path)
  }

  /** The flag is set exactly when two of the phones disagree at the path. */
  lemma IsDifferentPairwise(phones: seq<Phone>, path: SpecPath, index: int)
    ensures IsDifferent(phones, path, index) <==> SomePairDiffers(phones, path)
  {
    if SomePairDiffers(phones, path) {
      var i, j :| 0 <= i < |phones| && 0 <= j < |phones| && ValueAt(phones[i], path) != ValueAt(phones[j], path);
      assert |phones| > 1;
      if ValueAt(phones[i], path) == ValueAt(phones[0], path) {
        assert ValueAt(phones[j], path) != ValueAt(phones[0], path);
      }
    }
    if IsDifferent(phones, path, index) {
      var i :| 0 <= i < |phones| && ValueAt(phones[i], path) != ValueAt(phones[0], path);
      assert ValueAt(phones[i], path) != ValueAt(phones[0], path);
    }
  }

  /** A disagreeing pair is still there after the phones are rearranged. */
  lemma PairDiffersRearranged(phones: seq<Phone>, others: seq<Phone>, path: SpecPath)
    requires multiset(phones) == multiset(others)
    requires SomePairDiffers(phones, path)
    ensures SomePairDiffers(others, path)
  {
    var i, j :| 0 <= i < |phones| && 0 <= j < |phones| && ValueAt(phones[i], path) != ValueAt(phones[j], path);
    assert phones[i] in multiset(others) && phones[j] in multiset(others);
    var i' :| 0 <= i' < |others| && others[i'] == phones[i];
    var j' :| 0 <= j' < |others| && others[j'] == phones[j];
    assert ValueAt(others[i'], path) != ValueAt(others[j'], path);
  }

  /** The flag does not depend on the order of the phones, nor on the column it is asked for. */
  lemma IsDifferentOrderIndependent(phones: seq<Phone>, others: seq<Phone>, path: SpecPath, index: int, otherIndex: int)
    requires multiset(phones) == multiset(others)
    ensures IsDifferent(phones, path, index) == IsDifferent(others, path, otherIndex)
  {
    IsDifferentPairwise(phones, path, index);
    IsDifferentPairwise(others, path, otherIndex);
    if SomePairDiffers(phones, path) {
      PairDiffersRearranged(phones, others, path);
    }
    if SomePairDiffers(others, path) {
      PairDiffersRearranged(others, phones, path);
    }
  }

  /** One cell of the table: the phone's value and whether the row is highlighted. */
  datatype Cell = Cell(value: FieldValue, highlighted: bool)

  datatype Row = Row(path: SpecPath, cells: seq<Cell>)

  /** What the component renders: the empty state, or the table with one header per phone (its id)
      and one row per specification path. */
  datatype CompareView = EmptyState | Table(headers: seq<string>, rows: seq<Row>)

  function RenderRow(phones: seq<Phone>, path: SpecPath): (r: Row)
    ensures r.path == path && |r.cells| == |phones|
    ensures forall j :: 0 <= j < |phones| ==>
              r.cells[j] == Cell(ValueAt(phones[j], path), IsDifferent(phones, path, j))
  {
    Row(path, seq(|phones|, j requires 0 <= j < |phones| => Cell(ValueAt(phones[j], path), IsDifferent(phones, path, j))))
  }

  /** The component: no phones give the empty state and no table; otherwise the columns follow the
      input order, each row holds every phone's value at its path, and all cells of a row share one
      highlight flag. */
  function Render(phones: seq<Phone>): (v: CompareView)
    ensures v.EmptyState? <==> phones == []
    ensures v.Table? ==> |v.headers| == |phones| && forall j :: 0 <= j < |phones| ==> v.headers[j] == phones[j].id
    ensures v.Table? ==> |v.rows| == |Rows|
    ensures v.Table? ==> forall i :: 0 <= i < |Rows| ==> v.rows[i].path == Rows[i] && |v.rows[i].cells| == |phones|
    ensures v.Table? ==> forall i, j :: 0 <= i < |Rows| && 0 <= j < |phones| ==>
              v.rows[i].cells[j].value == ValueAt(phones[j], Rows[i])
    ensures v.Table? ==> forall i, j, k :: 0 <= i < |Rows| && 0 <= j < |phones| && 0 <= k < |phones| ==>
              v.rows[i].cells[j].highlighted == v.rows[i].cells[k].highlighted
  {
    if phones == [] then EmptyState
    else
      var rows := seq(|Rows|, i requires 0 <= i < |Rows| => RenderRow(phones, Rows[i]));
      assert forall i, j, k :: 0 <= i < |Rows| && 0 <= j < |phones| && 0 <= k < |phones| ==>
        rows[i].cells[j].highlighted == IsDifferent(phones, Rows[i], j) == IsDifferent(phones, Rows[i], k);
      Table(seq(|phones|, j requires 0 <= j < |phones| => phones[j].id), rows)
  }
}
