/** The spot filter bar (components/spot-filters.tsx): committed filter
    values, the dialog's temporary copies, and the URL query the bar writes
    when it applies them. The query is a map from parameter name to value. */
module SpotFilters {

  /** The five filter values the bar commits and writes to the URL. */
  datatype FilterValues = FilterValues(search: string, difficulty: string, waveType: string, season: string, sort: string)

  /** The dialog's working copies of the three dialog-edited filters. */
  datatype DialogValues = DialogValues(difficulty: string, waveType: string, season: string)

  datatype FilterField = SearchField | DifficultyField | WaveTypeField | SeasonField

  const FilterKeys: set<string> := {"search", "difficulty", "waveType", "season", "sort"}

  /** `params.set(key, value)` when `keep`, else `params.delete(key)`. */
  function SetOrDelete(m: map<string, string>, key: string, value: string, keep: bool): (r: map<string, string>)
    ensures keep ==> key in r && r[key] == value
    ensures !keep ==> key !in r
    ensures forall k :: k != key ==> (k in r <==> k in m) && (k in r ==> r[k] == m[k])
  {
    if keep then m[key := value] else m - {key}
  }

  /** The query `applyFilters` builds from the current one: each non-empty
      filter written, each empty one removed, `sort` written only when it
      is not the default "name", every other parameter kept. */
  function Params(p: map<string, string>, v: FilterValues): (r: map<string, string>)
    ensures v.search != "" ==> "search" in r && r["search"] == v.search
    ensures v.search == "" ==> "search" !in r
    ensures v.difficulty != "" ==> "difficulty" in r && r["difficulty"] == v.difficulty
    ensures v.difficulty == "" ==> "difficulty" !in r
    ensures v.waveType != "" ==> "waveType" in r && r["waveType"] == v.waveType
    ensures v.waveType == "" ==> "waveType" !in r
    ensures v.season != "" ==> "season" in r && r["season"] == v.season
    ensures v.season == "" ==> "season" !in r
    ensures v.sort != "" && v.sort != "name" ==> "sort" in r && r["sort"] == v.sort
    ensures v.sort == "" || v.sort == "name" ==> "sort" !in r
    ensures forall k :: k !in FilterKeys ==> (k in r <==> k in p) && (k in r ==> r[k] == p[k])
  {
    var a := SetOrDelete(p, "search", v.search, v.search != "");
    var b := SetOrDelete(a, "difficulty", v.difficulty, v.difficulty != "");
    var c := SetOrDelete(b, "waveType", v.waveType, v.waveType != "");
    var d := SetOrDelete(c, "season", v.season, v.season != "");
    SetOrDelete(d, "sort", v.sort, v.sort != "" && v.sort != "name")
  }

  function Get(p: map<string, string>, key: string, absent: string): string {
    if key in p then p[key] else absent
  }

  /** How the spots page reads the query back into the bar's initial
      values: a missing filter is "", a missing sort is "name". */
  function ReadBack(p: map<string, string>): FilterValues {
    FilterValues(Get(p, "search", ""), Get(p, "difficulty", ""), Get(p, "waveType", ""),
                 Get(p, "season", ""), Get(p, "sort", "name"))
  }

  /** The values as the page sees them: an empty sort reads as "name". */
  function Shown(v: FilterValues): FilterValues {
    v.(sort := if v.sort == "" then "name" else v.sort)
  }

  /** Writing the filters and reading the URL back gives the values
      written, whatever the query held before. */
  lemma ReadBackParams(p: map<string, string>, v: FilterValues)
    ensures ReadBack(Params(p, v)) == Shown(v)
  {
    var r := Params(p, v);
    if v.sort == "" || v.sort == "name" {
      assert "sort" !in r;
    }
  }

  /** `hasActiveFilters`: any of the four filters is set; the sort is not
      a filter. */
  predicate HasActive(v: FilterValues) {
    v.difficulty != "" || v.waveType != "" || v.season != "" || v.search != ""
  }

  /** After the dialog's Reset and Apply, the three filters are "any": they
      are written to the URL and still count as active filters. */
  lemma AnyIsWritten(p: map<string, string>, v: FilterValues)
    requires v.difficulty == "any" && v.waveType == "any" && v.season == "any"
    ensures HasActive(v)
    ensures ReadBack(Params(p, v)).difficulty == "any"
    ensures ReadBack(Params(p, v)).waveType == "any"
    ensures ReadBack(Params(p, v)).season == "any"
  {
    ReadBackParams(p, v);
  }

  class FilterBar {
    var committed: FilterValues
    var temp: DialogValues
    var dialogOpen: bool
    /** The query of the current URL (`useSearchParams`). */
    var url: map<string, string>

    /** The state a fresh page starts from: committed values and temporary
        copies from the props, dialog closed. */
    constructor (initial: FilterValues, query: map<string, string>)
      ensures committed == initial && !dialogOpen && url == query
      ensures temp == DialogValues(initial.difficulty, initial.waveType, initial.season)
    {
      committed := initial;
      temp := DialogValues(initial.difficulty, initial.waveType, initial.season);
      dialogOpen := false;
      url := query;
    }

    /** `applyFilters` with the values committed when it runs: sets or
        deletes each key in turn and navigates to the result. */
    method ApplyFilters()
      modifies this
      ensures url == Params(old(url), committed)
      ensures ReadBack(url) == Shown(committed)
      ensures committed == old(committed) && temp == old(temp) && dialogOpen == old(dialogOpen)
    {
      var params := url;
      if committed.search != "" { params := params["search" := committed.search]; }
      else { params := params - {"search"}; }
      if committed.difficulty != "" { params := params["difficulty" := committed.difficulty]; }
      else { params := params - {"difficulty"}; }
      if committed.waveType != "" { params := params["waveType" := committed.waveType]; }
      else { params := params - {"waveType"}; }
      if committed.season != "" { params := params["season" := committed.season]; }
      else { params := params - {"season"}; }
      if committed.sort != "" && committed.sort != "name" { params := params["sort" := committed.sort]; }
      else { params := params - {"sort"}; }
      url := params;
      ReadBackParams(old(url), committed);
    }

    /** `resetFilters`: every filter cleared, sort back to "name", and
        navigation to the bare path. */
    method ResetFilters()
      modifies this
      ensures committed == FilterValues("", "", "", "", "name")
      ensures temp == DialogValues("", "", "")
      ensures url == map[] && dialogOpen == old(dialogOpen)
      ensures !HasActive(committed) && ReadBack(url) == committed
    {
      committed := FilterValues("", "", "", "", "name");
      temp := DialogValues("", "", "");
      url := map[];
    }

    /** `handleDialogOpen`: opening copies the committed values into the
        temporary ones; closing keeps them. */
    method SetDialogOpen(open: bool)
      modifies this
      ensures dialogOpen == open && committed == old(committed) && url == old(url)
      ensures open ==> temp == DialogValues(committed.difficulty, committed.waveType, committed.season)
      ensures !open ==> temp == old(temp)
    {
      if open {
        temp := DialogValues(committed.difficulty, committed.waveType, committed.season);
      }
      dialogOpen := open;
    }

    /** One of the dialog's selects changes its temporary value. */
    method ChooseInDialog(field: FilterField, value: string)
      requires field != SearchField
      modifies this
      ensures field == DifficultyField ==> temp == old(temp).(difficulty := value)
      ensures field == WaveTypeField ==> temp == old(temp).(waveType := value)
      ensures field == SeasonField ==> temp == old(temp).(season := value)
      ensures committed == old(committed) && url == old(url) && dialogOpen == old(dialogOpen)
    {
      match field
      case DifficultyField => temp := temp.(difficulty := value);
      case WaveTypeField => temp := temp.(waveType := value);
      case SeasonField => temp := temp.(season := value);
    }

    /** The dialog's Reset button: the temporary values become "any". */
    method ResetDialog()
      modifies this
      ensures temp == DialogValues("any", "any", "any")
      ensures committed == old(committed) && url == old(url) && dialogOpen == old(dialogOpen)
    {
      temp := DialogValues("any", "any", "any");
    }

    /** `handleApplyDialogFilters` as written: the temporary values are
        committed and the dialog closes, but the deferred `applyFilters`
        is the one captured before the commit, so it writes the values
        committed before. */
    method ApplyDialogAsWritten()
      modifies this
      ensures committed == old(committed).(difficulty := old(temp).difficulty, waveType := old(temp).waveType, season := old(temp).season)
      ensures !dialogOpen && temp == old(temp)
      ensures url == Params(old(url), old(committed))
    {
      var stale := committed;
      committed := committed.(difficulty := temp.difficulty, waveType := temp.waveType, season := temp.season);
      dialogOpen := false;
      url := Params(url, stale);
    }

    /** `handleApplyDialogFilters` as intended: the URL carries the values
        just committed. */
    method ApplyDialog()
      modifies this
      ensures committed == old(committed).(difficulty := old(temp).difficulty, waveType := old(temp).waveType, season := old(temp).season)
      ensures !dialogOpen && temp == old(temp)
      ensures url == Params(old(url), committed)
      ensures ReadBack(url) == Shown(committed)
    {
      committed := committed.(difficulty := temp.difficulty, waveType := temp.waveType, season := temp.season);
      dialogOpen := false;
      ApplyFilters();
    }

    /** The sort select as written: the sort is committed, then the
        `applyFilters` captured before it runs with the old sort. */
    method SelectSortAsWritten(value: string)
      modifies this
      ensures committed == old(committed).(sort := value)
      ensures url == Params(old(url), old(committed))
      ensures temp == old(temp) && dialogOpen == old(dialogOpen)
    {
      var stale := committed;
      committed := committed.(sort := value);
      url := Params(url, stale);
    }

    /** The sort select as intended. */
    method SelectSort(value: string)
      modifies this
      ensures committed == old(committed).(sort := value)
      ensures url == Params(old(url), committed)
      ensures ReadBack(url).sort == (if value == "" then "name" else value)
      ensures temp == old(temp) && dialogOpen == old(dialogOpen)
    {
      committed := committed.(sort := value);
      ApplyFilters();
    }

    /** Typing in the search box commits the text; the URL follows later. */
    method TypeSearch(value: string)
      modifies this
      ensures committed == old(committed).(search := value)
      ensures url == old(url) && temp == old(temp) && dialogOpen == old(dialogOpen)
    {
      committed := committed.(search := value);
    }

    /** The debounced effect on `search`: once typing settles, the filters
        are applied if the search differs from the page's. */
    method SearchSettled(initialSearch: string)
      modifies this
      ensures committed.search != initialSearch ==> url == Params(old(url), committed)
      ensures committed.search == initialSearch ==> url == old(url)
      ensures committed == old(committed) && temp == old(temp) && dialogOpen == old(dialogOpen)
    {
      if committed.search != initialSearch {
        ApplyFilters();
      }
    }

    /** The search box's and a badge's X as written: the filter is cleared,
        then the `applyFilters` of the same render runs with the filter
        still set. */
    method ClearFilterAsWritten(field: FilterField)
      modifies this
      ensures committed == Cleared(old(committed), field)
      ensures url == Params(old(url), old(committed))
      ensures temp == old(temp) && dialogOpen == old(dialogOpen)
    {
      var stale := committed;
      committed := Cleared(committed, field);
      url := Params(url, stale);
    }

    /** The X buttons as intended: the cleared filter leaves the URL. */
    method ClearFilter(field: FilterField)
      modifies this
      ensures committed == Cleared(old(committed), field)
      ensures url == Params(old(url), committed)
      ensures ReadBack(url) == Shown(committed)
      ensures temp == old(temp) && dialogOpen == old(dialogOpen)
    {
      committed := Cleared(committed, field);
      ApplyFilters();
    }

    /** The props effect: when the page passes new initial values, the
        committed and temporary dialog values and the sort follow them; the
        search text typed so far is kept. */
    method ReceiveProps(initial: FilterValues)
      modifies this
      ensures committed == initial.(search := old(committed).search)
      ensures temp == DialogValues(initial.difficulty, initial.waveType, initial.season)
      ensures url == old(url) && dialogOpen == old(dialogOpen)
    {
      committed := committed.(difficulty := initial.difficulty, waveType := initial.waveType,
                              season := initial.season, sort := initial.sort);
      temp := DialogValues(initial.difficulty, initial.waveType, initial.season);
    }
  }

  /** The values with one filter set to "". */
  function Cleared(v: FilterValues, field: FilterField): (r: FilterValues)
    ensures r.sort == v.sort
    ensures field == SearchField ==> r == v.(search := "")
    ensures field == DifficultyField ==> r == v.(difficulty := "")
    ensures field == WaveTypeField ==> r == v.(waveType := "")
    ensures field == SeasonField ==> r == v.(season := "")
  {
    match field
    case SearchField => v.(search := "")
    case DifficultyField => v.(difficulty := "")
    case WaveTypeField => v.(waveType := "")
    case SeasonField => v.(season := "")
  }

  /** The dialog Apply as written, on a page with no filters: choosing
      difficulty 3 and applying commits "3" but leaves the URL, and so the
      listed spots, without a difficulty. */
  method StaleDialogApply() returns (committedDifficulty: string, query: map<string, string>)
    ensures committedDifficulty == "3"
    ensures "difficulty" !in query
    ensures ReadBack(query).difficulty != committedDifficulty
  {
    var bar := new FilterBar(FilterValues("", "", "", "", "name"), map[]);
    bar.SetDialogOpen(true);
    bar.ChooseInDialog(DifficultyField, "3");
    bar.ApplyDialogAsWritten();
    committedDifficulty, query := bar.committed.difficulty, bar.url;
  }

  /** The same steps with the intended Apply put "3" in the URL. */
  method FreshDialogApply() returns (committedDifficulty: string, query: map<string, string>)
    ensures committedDifficulty == "3"
    ensures "difficulty" in query && query["difficulty"] == "3"
  {
    var bar := new FilterBar(FilterValues("", "", "", "", "name"), map[]);
    bar.SetDialogOpen(true);
    bar.ChooseInDialog(DifficultyField, "3");
    bar.ApplyDialog();
    committedDifficulty, query := bar.committed.difficulty, bar.url;
  }
}
