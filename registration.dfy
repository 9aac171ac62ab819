/**
  The registration-lookup view of the competition page: the view state, the
  search the participant submits, the outcome of the backend's name query,
  and the count of registered reciters shown in the statistics.

  The backend is not modelled: a query is represented by the name pattern the
  page sends, and each response is an input, applied once it arrives.
 */
module Registration {
  import opened Wrappers
  import opened Text
  import Schedule

  /** A registration record as the page reads it from the `reciters` table. */
  datatype Reciter = Reciter(id: string, name: string, teacher: Option<string>, category: string)

  /** The error object of the backend's reply; only its code is inspected. */
  datatype BackendError = BackendError(code: string)

  /** The code with which a single-row query reports that no row matched. */
  const NoRowsCode := "PGRST116"

  /** What the awaited search query yields: a reply carrying `data` and
      `error`, or an exception. */
  datatype SearchOutcome =
    | SearchReply(data: Option<Reciter>, error: Option<BackendError>)
    | SearchThrown

  /** What the awaited count query yields. */
  datatype CountOutcome =
    | CountReply(count: Option<nat>, error: Option<BackendError>)
    | CountThrown

  /** The component's state: the input text, the last result, whether a
      search was attempted, the loading flag and the registered count. */
  datatype ViewState = ViewState(
    searchTerm: string,
    searchResult: Option<Reciter>,
    searchAttempted: bool,
    isLoading: bool,
    totalStudents: nat)

  const Initial := ViewState("", None, false, false, 0)

  /** The `ilike` pattern of the name query: the term between wildcards, so
      the term can be read back from the pattern. */
  function NamePattern(term: string): (p: string)
    ensures |p| == |term| + 2 && p[0] == '%' && p[|p| - 1] == '%'
    ensures p[1..|p| - 1] == term
  {
    "%" + term + "%"
  }

  /** A reply that the page accepts as a result: no error, or the "no rows"
      code, which is not treated as a failure. */
  predicate Accepted(o: SearchOutcome) {
    o.SearchReply? && (o.error.None? || o.error.value.code == NoRowsCode)
  }

  // ---------------------------------------------------------------------
  // The state changes, as functions of the state before them
  // ---------------------------------------------------------------------

  /** handleSearch up to the query. A blank term resets the result and the
      attempted flag and sends nothing; any other term sets the loading and
      attempted flags and sends the query for the trimmed term. */
  function SubmitStep(s: ViewState): (r: (ViewState, Option<string>))
    ensures r.1.None? <==> AllSpace(s.searchTerm, IsWhitespace)
    ensures r.1.Some? ==> exists a, b :: TrimmedAt(s.searchTerm, IsWhitespace, a, b)
                                 && r.1.value == NamePattern(s.searchTerm[a..b])
    ensures r.1.None? ==> !r.0.searchAttempted && r.0.searchResult.None?
    ensures r.1.Some? ==> r.0.searchAttempted && r.0.isLoading && r.0.searchResult == s.searchResult
    ensures r.1.None? ==> r.0.isLoading == s.isLoading
    ensures r.0.searchTerm == s.searchTerm && r.0.totalStudents == s.totalStudents
  {
    TrimEmptyIffAllSpace(s.searchTerm, IsWhitespace);
    var term := Trim(s.searchTerm);
    if term == [] then
      (s.(searchResult := None, searchAttempted := false), None)
    else
      var bounds := TrimBounds(s.searchTerm, IsWhitespace);
      assert TrimmedAt(s.searchTerm, IsWhitespace, bounds.0, bounds.1);
      (s.(isLoading := true, searchAttempted := true), Some(NamePattern(term)))
  }

  /** handleSearch after the query: an accepted reply stores its row (none for
      "no rows"), any other error and an exception store none, and loading
      ends on every path. */
  function SearchStep(s: ViewState, o: SearchOutcome): (t: ViewState)
    ensures !t.isLoading
    ensures t.searchResult.Some? <==> Accepted(o) && o.data.Some?
    ensures Accepted(o) ==> t.searchResult == o.data
    ensures t.searchTerm == s.searchTerm && t.searchAttempted == s.searchAttempted
    ensures t.totalStudents == s.totalStudents
  {
    var result :=
      match o
      case SearchReply(data, error) =>
        if error.Some? && error.value.code != NoRowsCode then None else data
      case SearchThrown => None;
    s.(searchResult := result, isLoading := false)
  }

  /** fetchTotalStudents after the query: a reply without error stores its
      count (zero when absent); an error or an exception keeps the old one. */
  function CountStep(s: ViewState, o: CountOutcome): (t: ViewState)
    ensures o.CountReply? && o.error.None? && o.count.Some? ==> t.totalStudents == o.count.value
    ensures o.CountReply? && o.error.None? && o.count.None? ==> t.totalStudents == 0
    ensures !(o.CountReply? && o.error.None?) ==> t == s
    ensures t.(totalStudents := s.totalStudents) == s
  {
    match o
    case CountReply(count, error) =>
      if error.Some? then s else s.(totalStudents := count.GetOr(0))
    case CountThrown => s
  }

  // ---------------------------------------------------------------------
  // What the page shows
  // ---------------------------------------------------------------------

  /** The result area: nothing before an attempt, the not-found panel after
      an attempt without a result, and the record with its exam (if its
      category has one) after an attempt with a result. */
  datatype ResultPanel =
    | NoPanel
    | NotFound
    | Found(record: Reciter, exam: Option<Schedule.ExamInfo>)

  function ResultPanelOf(s: ViewState): (p: ResultPanel)
    ensures p.NoPanel? <==> !s.searchAttempted
    ensures p.NotFound? <==> s.searchAttempted && s.searchResult.None?
    ensures p.Found? ==> s.searchResult == Some(p.record)
    ensures p.Found? ==> (p.exam.Some? <==> p.record.category in Schedule.Labels(Schedule.ExamSchedule))
    ensures p.Found? && p.exam.Some? ==>
      exists i :: 0 <= i < |Schedule.ExamSchedule|
        && Schedule.ExamSchedule[i] == Schedule.ScheduleRow(p.record.category, p.exam.value)
  {
    if !s.searchAttempted then NoPanel
    else match s.searchResult
      case None => NotFound
      case Some(r) => Found(r, Schedule.GetExamInfo(r.category))
  }

  /** The input and the search button are disabled while a search runs. */
  predicate ControlsEnabled(s: ViewState) {
    !s.isLoading
  }

  // ---------------------------------------------------------------------
  // Properties of the state machine
  // ---------------------------------------------------------------------

  /** The states the page can reach: loading only during an attempted
      search, and a result only after an attempted one. */
  predicate Consistent(s: ViewState) {
    (s.isLoading ==> s.searchAttempted) && (!s.searchAttempted ==> s.searchResult.None?)
  }

  lemma InitialConsistent()
    ensures Consistent(Initial) && ResultPanelOf(Initial) == NoPanel && !Initial.isLoading
  {
  }

  /** A submission, made while the controls are enabled, keeps the state
      consistent. */
  lemma SubmitKeepsConsistent(s: ViewState)
    requires Consistent(s) && ControlsEnabled(s)
    ensures Consistent(SubmitStep(s).0)
  {
  }

  /** A blank submission returns the view to its unsearched state. */
  lemma BlankSubmitResets(s: ViewState)
    requires AllSpace(s.searchTerm, IsWhitespace)
    ensures ResultPanelOf(SubmitStep(s).0) == NoPanel && SubmitStep(s).1.None?
  {
  }

  /** The search outcome of a submission keeps the state consistent. */
  lemma SearchKeepsConsistent(s: ViewState, o: SearchOutcome)
    requires Consistent(s) && s.isLoading
    ensures Consistent(SearchStep(s, o)) && ControlsEnabled(SearchStep(s, o))
  {
  }

  lemma CountKeepsConsistent(s: ViewState, o: CountOutcome)
    requires Consistent(s)
    ensures Consistent(CountStep(s, o))
  {
  }

  /** A whole search, from a term that is not blank: a query is sent, and
      once its outcome is applied the page shows the returned record with its
      exam, or the not-found panel. This holds even for a second submission
      made while an earlier one is still loading. */
  lemma SearchRoundTrip(s: ViewState, o: SearchOutcome)
    requires !AllSpace(s.searchTerm, IsWhitespace)
    ensures SubmitStep(s).1.Some?
    ensures var t := SearchStep(SubmitStep(s).0, o);
      && ControlsEnabled(t)
      && (if Accepted(o) && o.data.Some?
          then ResultPanelOf(t) == Found(o.data.value, Schedule.GetExamInfo(o.data.value.category))
          else ResultPanelOf(t) == NotFound)
  {
  }

  /** A record of the three-part category found by a search is shown with the
      Friday, 8 August 2025 exam after the Friday prayer. */
  lemma ThreePartsRecordShowsItsExam(s: ViewState, r: Reciter)
    requires !AllSpace(s.searchTerm, IsWhitespace)
    requires r.category == "ثلاثة أجزاء"
    ensures var t := SearchStep(SubmitStep(s).0, SearchReply(Some(r), None));
      && ResultPanelOf(t).Found?
      && ResultPanelOf(t).exam.Some?
      && ResultPanelOf(t).exam.value.date == "الجمعة، ٨ أغسطس ٢٠٢٥ م"
      && ResultPanelOf(t).exam.value.time == "بعد صلاة الجمعة - ١:٣٠ ظهراً"
  {
  }

  /** A failed query (an error other than "no rows", or an exception) shows
      the same panel as a query that matched no row. */
  lemma FailureLooksLikeNoMatch(s: ViewState, o: SearchOutcome)
    requires s.searchAttempted && !Accepted(o)
    ensures ResultPanelOf(SearchStep(s, o)) == ResultPanelOf(SearchStep(s, SearchReply(None, None)))
    ensures ResultPanelOf(SearchStep(s, o)) == NotFound
  {
  }

  /** The "no rows" code behaves exactly like a reply without error. */
  lemma NoRowsIsNotAnError(s: ViewState, data: Option<Reciter>)
    ensures SearchStep(s, SearchReply(data, Some(BackendError(NoRowsCode)))) == SearchStep(s, SearchReply(data, None))
  {
  }

  /** The count shown on the page starts at zero and stays zero when the
      count query fails. */
  lemma FailedCountShowsZero(o: CountOutcome)
    requires !(o.CountReply? && o.error.None?)
    ensures CountStep(Initial, o).totalStudents == 0
  {
  }

  // ---------------------------------------------------------------------
  // The component
  // ---------------------------------------------------------------------

  /** The component with its state fields; each handler updates them in the
      order the page's setters do. */
  class RegistrationView {
    var searchTerm: string
    var searchResult: Option<Reciter>
    var searchAttempted: bool
    var isLoading: bool
    var totalStudents: nat

    function State(): ViewState
      reads this
    {
      ViewState(searchTerm, searchResult, searchAttempted, isLoading, totalStudents)
    }

    /** The state the hooks start with. */
    constructor ()
      ensures State() == Initial
    {
      searchTerm := "";
      searchResult := None;
      searchAttempted := false;
      isLoading := false;
      totalStudents := 0;
    }

    /** The input's change handler. */
    method SetSearchTerm(term: string)
      modifies this
      ensures State() == old(State()).(searchTerm := term)
    {
      searchTerm := term;
    }

    /** handleSearch up to the awaited query; returns the name pattern queried,
        or none when nothing is sent. */
    method HandleSearch() returns (pattern: Option<string>)
      modifies this
      ensures (State(), pattern) == SubmitStep(old(State()))
    {
      var term := Trim(searchTerm);
      if term == [] {
        searchResult := None;
        searchAttempted := false;
        return None;
      }
      isLoading := true;
      searchAttempted := true;
      pattern := Some(NamePattern(term));
    }

    /** handleSearch from the awaited query on, given its outcome. */
    method ApplySearchOutcome(o: SearchOutcome)
      modifies this
      ensures State() == SearchStep(old(State()), o)
    {
      match o {
        case SearchReply(data, error) =>
          if error.Some? && error.value.code != NoRowsCode {
            searchResult := None;
          } else {
            searchResult := data;
          }
        case SearchThrown =>
          searchResult := None;
      }
      isLoading := false;
    }

    /** fetchTotalStudents from the awaited query on, given its outcome. */
    method ApplyCountOutcome(o: CountOutcome)
      modifies this
      ensures State() == CountStep(old(State()), o)
    {
      match o {
        case CountReply(count, error) =>
          if error.Some? {
            return;
          }
          totalStudents := count.GetOr(0);
        case CountThrown =>
      }
    }

    /** handleKeyPress: Enter starts a search, any other key does nothing. */
    method HandleKeyPress(key: string) returns (pattern: Option<string>)
      modifies this
      ensures key == "Enter" ==> (State(), pattern) == SubmitStep(old(State()))
      ensures key != "Enter" ==> State() == old(State()) && pattern.None?
    {
      pattern := None;
      if key == "Enter" {
        pattern := HandleSearch();
      }
    }
  }
}
