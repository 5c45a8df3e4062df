/** The filter panel (src/components/Filters.tsx): a draft criteria record edited by check boxes and
    radio buttons, handed to the page on "apply", plus the expanded/collapsed state of the panel on
    small screens. */
module FiltersPanel {
  import opened Common
  import opened PhoneUtils

  /** Below this window width the panel collapses. */
  const SmallScreenWidth: int := 768

  /** The list a multi-value change starts from: the category's list, or `[]` when the category is
      absent or holds a single string. */
  function CurrentValues(prev: Criteria, category: string): seq<string>
  {
    if category in prev && prev[category].Values? then prev[category].values else []
  }

  /** The `handleFilterChange` updater. A multi-value change given a list replaces the category's
      list; given one value it toggles that value in the current list. A single-value change
      overwrites the category. No other category changes. */
  function UpdateFilters(prev: Criteria, category: string, value: FilterValue, isMultiple: bool): (r: Criteria)
    ensures category in r
    ensures forall k :: k != category ==> (k in r <==> k in prev)
    ensures forall k :: k != category && k in r ==> r[k] == prev[k]
    ensures (!isMultiple || value.Values?) ==> r[category] == value
    ensures isMultiple ==> r[category].Values?
  {
    if isMultiple then
      var current := CurrentValues(prev, category);
      match value
      case Values(vs) => prev[category := Values(vs)]
      case Scalar(v) =>
        if v in current then prev[category := Values(Without(current, v))]
        else prev[category := Values(current + [v])]
    else
      prev[category := value]
  }

  /** `isFilterActive`: membership for a list, equality for a string, false for an absent category. */
  function IsFilterActive(filters: Criteria, category: string, value: string): bool
  {
    if category !in filters then false
    else
      match filters[category]
      case Values(vs) => value in vs
      case Scalar(s) => s == value
  }

  /** Toggling a value flips whether it is active, unless the category held a single string. */
  lemma ToggleFlipsActive(prev: Criteria, category: string, v: string)
    requires category !in prev || prev[category].Values?
    ensures IsFilterActive(UpdateFilters(prev, category, Scalar(v), true), category, v)
            == !IsFilterActive(prev, category, v)
  {
  }

  /** A single string in a multi-value category is read as no selection: toggling a value over it
      leaves exactly that value selected. */
  lemma ToggleOverScalar(prev: Criteria, category: string, v: string)
    requires category in prev && prev[category].Scalar?
    ensures UpdateFilters(prev, category, Scalar(v), true)[category] == Values([v])
  {
  }

  /** Toggling `v` leaves every other value of the category as active as it was in the current list. */
  lemma ToggleKeepsOtherValues(prev: Criteria, category: string, v: string, w: string)
    requires w != v
    ensures IsFilterActive(UpdateFilters(prev, category, Scalar(v), true), category, w)
            == (w in CurrentValues(prev, category))
  {
    var current := CurrentValues(prev, category);
    WithoutMembership(current, v, w);
  }

  /** Toggling the same value twice restores which values are active; when the value was not
      selected, it restores the current list exactly. */
  lemma ToggleTwice(prev: Criteria, category: string, v: string, w: string)
    ensures var twice := UpdateFilters(UpdateFilters(prev, category, Scalar(v), true), category, Scalar(v), true);
      && IsFilterActive(twice, category, w) == (w in CurrentValues(prev, category))
      && (v !in CurrentValues(prev, category) ==> twice == prev[category := Values(CurrentValues(prev, category))])
  {
    if v in CurrentValues(prev, category) {
      ToggleTwicePresent(prev, category, v, w);
    } else {
      ToggleTwiceAbsent(prev, category, v);
    }
  }

  /** `ToggleTwice` for a selected value: it is removed, then put back at the end. */
  lemma ToggleTwicePresent(prev: Criteria, category: string, v: string, w: string)
    requires v in CurrentValues(prev, category)
    ensures IsFilterActive(UpdateFilters(UpdateFilters(prev, category, Scalar(v), true), category, Scalar(v), true), category, w)
            == (w in CurrentValues(prev, category))
  {
    var current := CurrentValues(prev, category);
    var once := UpdateFilters(prev, category, Scalar(v), true);
    assert CurrentValues(once, category) == Without(current, v);
    WithoutMembership(current, v, v);
    WithoutMembership(current, v, w);
    var twice := UpdateFilters(once, category, Scalar(v), true);
    assert twice[category] == Values(Without(current, v) + [v]);
  }

  /** `ToggleTwice` for a value not selected: it is appended, then removed again. */
  lemma ToggleTwiceAbsent(prev: Criteria, category: string, v: string)
    requires v !in CurrentValues(prev, category)
    ensures UpdateFilters(UpdateFilters(prev, category, Scalar(v), true), category, Scalar(v), true)
            == prev[category := Values(CurrentValues(prev, category))]
  {
    var current := CurrentValues(prev, category);
    var once := prev[category := Values(current + [v])];
    ToggleAppendsAbsent(prev, category, v);
    ToggleRemovesAppended(once, category, current, v);
    assert once[category := Values(current)] == prev[category := Values(current)];
  }

  /** Toggling a value the current list lacks appends it. */
  lemma ToggleAppendsAbsent(prev: Criteria, category: string, v: string)
    requires v !in CurrentValues(prev, category)
    ensures UpdateFilters(prev, category, Scalar(v), true) == prev[category := Values(CurrentValues(prev, category) + [v])]
  {
  }

  /** Toggling the value a category's list ends with, and holds nowhere else, drops it again. */
  lemma ToggleRemovesAppended(m: Criteria, category: string, current: seq<string>, v: string)
    requires category in m && m[category] == Values(current + [v]) && v !in current
    ensures UpdateFilters(m, category, Scalar(v), true) == m[category := Values(current)]
  {
    assert CurrentValues(m, category) == current + [v];
    assert v in current + [v];
    WithoutAppend(current, v);
  }

  /** The panel's state. */
  class FilterPanel {
    var filters: Criteria
    var isExpanded: bool
    var isSmallScreen: bool

    /** Mounting: the draft starts as the page's active criteria, and the resize handler runs once. */
    constructor(activeFilters: Criteria, width: int)
      ensures filters == activeFilters
      ensures isSmallScreen == (width < SmallScreenWidth)
      ensures isExpanded == !isSmallScreen
    {
      filters := activeFilters;
      isSmallScreen := width < SmallScreenWidth;
      isExpanded := width >= SmallScreenWidth;
    }

    /** `handleFilterChange`. */
    method HandleFilterChange(category: string, value: FilterValue, isMultiple: bool)
      modifies this`filters
      ensures filters == UpdateFilters(old(filters), category, value, isMultiple)
    {
      filters := UpdateFilters(filters, category, value, isMultiple);
    }

    /** `applyFilters`: the draft is handed over unchanged; on a small screen the panel collapses. */
    method ApplyFilters() returns (applied: Criteria)
      modifies this`isExpanded
      ensures applied == filters
      ensures isExpanded == (!isSmallScreen && old(isExpanded))
    {
      applied := filters;
      if isSmallScreen {
        isExpanded := false;
      }
    }

    /** `resetFilters`: the draft becomes `{}` and `{}` is handed over. */
    method ResetFilters() returns (applied: Criteria)
      modifies this`filters
      ensures filters == map[] && applied == map[]
    {
      filters := map[];
      applied := map[];
    }

    /** The resize handler: a wide window shows the panel, a narrow one collapses it. */
    method Resize(width: int)
      modifies this`isSmallScreen, this`isExpanded
      ensures isSmallScreen == (width < SmallScreenWidth)
      ensures isExpanded == !isSmallScreen
    {
      isSmallScreen := width < SmallScreenWidth;
      if width >= SmallScreenWidth {
        isExpanded := true;
      } else {
        isExpanded := false;
      }
    }

    /** The toggle button shown on small screens. */
    method ToggleExpanded()
      modifies this`isExpanded
      ensures isExpanded == !old(isExpanded)
    {
      isExpanded := !isExpanded;
    }
  }
}
