/** The filter bar of src/components/games/GamesSearch.tsx: the searchable,
    paginated team dropdown and the status dropdown. The memoised lists are
    functions of the component's state; the event handlers are methods of a
    class holding that state. */
module GamesSearch {
  import opened Wrappers
  import opened Seqs
  import opened Strings

  /** How many more teams one scroll to the bottom reveals. */
  const TeamsPerPage: nat := 20

  /** How close to the bottom of the list, in pixels, a scroll loads more. */
  const ScrollThreshold: int := 50

  /** `filteredTeams`: every team when the search is blank after trimming,
      else the teams whose lower-cased name contains the lower-cased,
      untrimmed search, in their original order. */
  function FilteredTeams(teams: seq<string>, teamSearch: string): (r: seq<string>)
    ensures Trim(teamSearch) == "" ==> r == teams
    ensures Trim(teamSearch) != "" ==>
      forall t :: t in r <==> t in teams && Contains(ToLower(t), ToLower(teamSearch))
    ensures |r| <= |teams|
  {
    if Trim(teamSearch) == "" then teams
    else Filter(teams, MatchesSearch(ToLower(teamSearch)))
  }

  /** `(t) => t.toLowerCase().includes(search)`. */
  function MatchesSearch(search: string): string -> bool
  {
    (t: string) => Contains(ToLower(t), search)
  }

  /** The team filter keeps the original order: filtering a list is filtering
      its two halves and joining the results. */
  lemma FilteredTeamsConcat(a: seq<string>, b: seq<string>, teamSearch: string)
    ensures FilteredTeams(a + b, teamSearch) == FilteredTeams(a, teamSearch) + FilteredTeams(b, teamSearch)
  {
    if Trim(teamSearch) != "" {
      FilterConcat(a, b, MatchesSearch(ToLower(teamSearch)));
    }
  }

  /** A single team is kept exactly when it matches (with the halves rule
      above, this pins the filtered list down completely). */
  lemma FilteredTeamsSingle(t: string, teamSearch: string)
    ensures FilteredTeams([t], teamSearch)
         == if Trim(teamSearch) == "" || Contains(ToLower(t), ToLower(teamSearch)) then [t] else []
  {
    if Trim(teamSearch) != "" {
      FilterSingleton(t, MatchesSearch(ToLower(teamSearch)));
    }
  }

  /** `visibleTeams`: the first `teamsDisplayed` filtered teams. Like the
      memo, it depends on the filtered list and the page count only. */
  function VisibleTeams(filteredTeams: seq<string>, teamsDisplayed: nat): (r: seq<string>)
    ensures r == filteredTeams[..Min(teamsDisplayed, |filteredTeams|)]
  {
    SliceFromStart(filteredTeams, teamsDisplayed);
    Slice(filteredTeams, 0, teamsDisplayed)
  }

  /** `hasMoreTeams`. */
  function HasMoreTeams(filteredTeams: seq<string>, teamsDisplayed: nat): bool
  {
    teamsDisplayed < |filteredTeams|
  }

  /** More teams are to come exactly when some filtered team is not visible
      yet; when none are, every filtered team is visible. */
  lemma NoMoreMeansAllVisible(filteredTeams: seq<string>, teamsDisplayed: nat)
    ensures HasMoreTeams(filteredTeams, teamsDisplayed) <==>
      |VisibleTeams(filteredTeams, teamsDisplayed)| < |filteredTeams|
    ensures !HasMoreTeams(filteredTeams, teamsDisplayed) <==>
      VisibleTeams(filteredTeams, teamsDisplayed) == filteredTeams
  {
    var v := VisibleTeams(filteredTeams, teamsDisplayed);
    if teamsDisplayed >= |filteredTeams| {
      assert v == filteredTeams[..|filteredTeams|] == filteredTeams;
    } else {
      assert |v| < |filteredTeams|;
    }
  }

  /** Showing more teams only appends to the list: what was visible stays
      visible, in place. */
  lemma VisibleTeamsGrow(filteredTeams: seq<string>, d: nat, e: nat)
    requires d <= e
    ensures var small := VisibleTeams(filteredTeams, d);
      var large := VisibleTeams(filteredTeams, e);
      |small| <= |large| && small == large[..|small|]
  {
    PrefixOfPrefix(filteredTeams, Min(d, |filteredTeams|), Min(e, |filteredTeams|));
  }

  lemma PrefixOfPrefix<T>(s: seq<T>, m: nat, n: nat)
    requires m <= n <= |s|
    ensures s[..m] == s[..n][..m]
  {
  }

  /** Lower-casing keeps white space white space and everything else not. */
  lemma LowerCharWhitespace(c: char)
    ensures IsWhitespace(LowerChar(c)) <==> IsWhitespace(c)
  {
  }

  /** The team search ignores case: a search and its lower-cased form select
      the same teams. */
  lemma {:induction false} FilterIgnoresCase(teams: seq<string>, teamSearch: string)
    ensures FilteredTeams(teams, ToLower(teamSearch)) == FilteredTeams(teams, teamSearch)
  {
    var lower := ToLower(teamSearch);
    forall i | 0 <= i < |teamSearch|
      ensures IsWhitespace(lower[i]) <==> IsWhitespace(teamSearch[i])
    {
      LowerCharWhitespace(teamSearch[i]);
    }
    TrimEmptyIff(teamSearch);
    TrimEmptyIff(lower);
    if Trim(teamSearch) != "" {
      ToLowerIdempotent(teamSearch);
      FilterAgrees(teams, MatchesSearch(ToLower(lower)), MatchesSearch(ToLower(teamSearch)));
    }
  }

  /** The footer count: `Знайдено` with the filtered count while a search is
      typed, else `Всього` with the number of teams. */
  function FooterCount(teams: seq<string>, teamSearch: string): nat
  {
    if teamSearch != "" then |FilteredTeams(teams, teamSearch)| else |teams|
  }

  /** Both footer labels show the length of the filtered list. */
  lemma FooterCountIsFilteredCount(teams: seq<string>, teamSearch: string)
    ensures FooterCount(teams, teamSearch) == |FilteredTeams(teams, teamSearch)|
  {
    if teamSearch == "" {
      TrimEmptyIff(teamSearch);
    }
  }

  /** One entry of `STATUS_OPTIONS`; `labelText` is its `label` field, a
      reserved word in Dafny. */
  datatype StatusOption = StatusOption(value: string, labelText: string, icon: string)

  const StatusOptions: seq<StatusOption> := [
    StatusOption("all", "Усі ігри", "fa-solid fa-gamepad"),
    StatusOption("completed", "Готово", "fa-solid fa-check-circle"),
    StatusOption("in-progress", "В розробці", "fa-solid fa-spinner"),
    StatusOption("planned", "Заплановано", "fa-solid fa-clock")
  ]

  /** `selectedStatusOption`: the option whose value is `status`, else the
      first one ("all"). */
  function SelectedStatusOption(status: string): (o: StatusOption)
    ensures o in StatusOptions
    ensures (exists i :: 0 <= i < |StatusOptions| && StatusOptions[i].value == status) ==> o.value == status
    ensures (forall i :: 0 <= i < |StatusOptions| ==> StatusOptions[i].value != status) ==> o == StatusOptions[0]
  {
    FindStatus(StatusOptions, status).GetOr(StatusOptions[0])
  }

  /** `options.find(opt => opt.value === status)`. */
  function FindStatus(options: seq<StatusOption>, status: string): (r: Option<StatusOption>)
    ensures r.Some? ==> r.value in options && r.value.value == status
    ensures r.Some? ==> exists k :: 0 <= k < |options| && options[k] == r.value &&
                                    forall i :: 0 <= i < k ==> options[i].value != status
    ensures r.None? <==> forall i :: 0 <= i < |options| ==> options[i].value != status
  {
    if options == [] then None
    else if options[0].value == status then Some(options[0])
    else FindStatus(options[1..], status)
  }

  /** Each status value has its own option, and an unknown status reads as
      "all". */
  lemma StatusSelection()
    ensures SelectedStatusOption("completed").labelText == "Готово"
    ensures SelectedStatusOption("planned").icon == "fa-solid fa-clock"
    ensures SelectedStatusOption("archived").value == "all"
    ensures SelectedStatusOption("").value == "all"
  {
    assert StatusOptions[0].value != "completed";
    assert StatusOptions[1].value == "completed";
    assert StatusOptions[3].value == "planned";
  }

  /** The component state the handlers update. */
  class SearchState {
    var isStatusOpen: bool
    var isTeamOpen: bool
    var teamSearch: string
    var teamsDisplayed: nat

    /** `teamsDisplayed` is always a positive multiple of the page size. */
    predicate Valid()
      reads this
    {
      teamsDisplayed > 0 && teamsDisplayed % TeamsPerPage == 0
    }

    /** The initial state: both dropdowns closed, no team search, one page. */
    constructor ()
      ensures Valid()
      ensures !isStatusOpen && !isTeamOpen && teamSearch == "" && teamsDisplayed == TeamsPerPage
    {
      isStatusOpen := false;
      isTeamOpen := false;
      teamSearch := "";
      teamsDisplayed := TeamsPerPage;
    }

    /** `handleTeamSearchChange`: a new search starts again from one page. */
    method HandleTeamSearchChange(newValue: string)
      requires Valid()
      modifies this
      ensures Valid()
      ensures teamSearch == newValue && teamsDisplayed == TeamsPerPage
      ensures isTeamOpen == old(isTeamOpen) && isStatusOpen == old(isStatusOpen)
    {
      teamSearch := newValue;
      teamsDisplayed := TeamsPerPage;
    }

    /** `handleTeamDropdownToggle`: opening keeps the search and the page
      count; closing clears the search and goes back to one page. */
    method HandleTeamDropdownToggle()
      requires Valid()
      modifies this
      ensures Valid()
      ensures isTeamOpen == !old(isTeamOpen)
      ensures old(isTeamOpen) ==> teamSearch == "" && teamsDisplayed == TeamsPerPage
      ensures !old(isTeamOpen) ==> teamSearch == old(teamSearch) && teamsDisplayed == old(teamsDisplayed)
      ensures isStatusOpen == old(isStatusOpen)
    {
      if isTeamOpen {
        teamSearch := "";
        teamsDisplayed := TeamsPerPage;
      }
      isTeamOpen := !isTeamOpen;
    }

    /** `handleTeamScroll`: with the list mounted and more teams to show, a
      scroll within the threshold of the bottom reveals one more page;
      otherwise nothing changes. `filteredTeams` is the memoised list the
      callback's `hasMoreTeams` is computed from. */
    method HandleTeamScroll(filteredTeams: seq<string>, listMounted: bool,
                            scrollTop: int, scrollHeight: int, clientHeight: int)
      requires Valid()
      modifies this
      ensures Valid()
      ensures var loads := listMounted && HasMoreTeams(filteredTeams, old(teamsDisplayed)) && scrollTop + clientHeight >= scrollHeight - ScrollThreshold;
        teamsDisplayed == if loads then old(teamsDisplayed) + TeamsPerPage else old(teamsDisplayed)
      ensures teamSearch == old(teamSearch) && isTeamOpen == old(isTeamOpen) && isStatusOpen == old(isStatusOpen)
    {
      if !listMounted || !HasMoreTeams(filteredTeams, teamsDisplayed) {
        return;
      }
      if scrollTop + clientHeight >= scrollHeight - ScrollThreshold {
        teamsDisplayed := teamsDisplayed + TeamsPerPage;
      }
    }

    /** The clear button: empties the search but keeps the page count. */
    method ClearTeamSearch()
      requires Valid()
      modifies this
      ensures Valid()
      ensures teamSearch == "" && teamsDisplayed == old(teamsDisplayed)
      ensures isTeamOpen == old(isTeamOpen) && isStatusOpen == old(isStatusOpen)
    {
      teamSearch := "";
    }

    /** `handleTeamSelect`: reports the chosen team (`None` for all authors)
      and closes the dropdown without resetting the search. */
    method HandleTeamSelect(teamValue: Option<string>) returns (selected: Option<string>)
      requires Valid()
      modifies this
      ensures Valid()
      ensures selected == teamValue && !isTeamOpen
      ensures teamSearch == old(teamSearch) && teamsDisplayed == old(teamsDisplayed)
      ensures isStatusOpen == old(isStatusOpen)
    {
      selected := teamValue;
      isTeamOpen := false;
    }

    /** The status trigger button toggles its dropdown. */
    method ToggleStatusDropdown()
      requires Valid()
      modifies this
      ensures Valid()
      ensures isStatusOpen == !old(isStatusOpen)
      ensures isTeamOpen == old(isTeamOpen) && teamSearch == old(teamSearch) && teamsDisplayed == old(teamsDisplayed)
    {
      isStatusOpen := !isStatusOpen;
    }

    /** `handleStatusSelect`: reports the chosen status and closes the
      dropdown. */
    method HandleStatusSelect(optionValue: string) returns (selected: string)
      requires Valid()
      modifies this
      ensures Valid()
      ensures selected == optionValue && !isStatusOpen
      ensures isTeamOpen == old(isTeamOpen) && teamSearch == old(teamSearch) && teamsDisplayed == old(teamsDisplayed)
    {
      selected := optionValue;
      isStatusOpen := false;
    }
  }
}
