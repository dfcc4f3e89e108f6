/**
  The search box above the book grid.  What the reader types reaches the
  debounced term when the debounce timer fires; a debounced term of three
  or more characters is searched for and an empty one clears the search.
  Time is modelled by an explicit `Fire` event standing for the timer
  running out, and the component's callbacks become a list of calls.
 */
module SearchBar {

  import opened Optional

  const MinSearchLength: int := 3
  const RecommendationsPath: string := "/recommendations"

  /** A call the component makes to its parent, or a navigation. */
  datatype Call = Search(term: string) | ClearSearch | Navigate(path: string)

  /** The typed term, the debounced term, and whether a debounce timer is pending. */
  datatype Bar = Bar(term: string, debounced: string, pending: bool)

  /** The effect on the debounced term: a long enough term is searched, an empty one clears. */
  function DebouncedCall(debounced: string): (c: Option<Call>)
    ensures c.Some? <==> |debounced| >= MinSearchLength || |debounced| == 0
    ensures |debounced| >= MinSearchLength ==> c == Some(Search(debounced))
    ensures |debounced| == 0 ==> c == Some(ClearSearch)
  {
    if |debounced| >= MinSearchLength then Some(Search(debounced))
    else if |debounced| == 0 then Some(ClearSearch)
    else None
  }

  function AsCalls(c: Option<Call>): seq<Call> {
    if c.Some? then [c.value] else []
  }

  /** Mounting: both terms start from the initial value, a timer starts, and the effect runs once. */
  function Mount(initial: string): (r: (Bar, seq<Call>))
    ensures r.0 == Bar(initial, initial, true)
    ensures r.1 == AsCalls(DebouncedCall(initial))
  {
    (Bar(initial, initial, true), AsCalls(DebouncedCall(initial)))
  }

  /**
    What can happen to the bar.  `NewCallbacks` is the parent passing a
    new `onSearch` or `onClear` (the book listing's clear handler changes
    whenever the number of loaded books does); the effect depends on them
    and so runs again on the unchanged debounced term.
   */
  datatype Event = Type(value: string) | Fire | ClearButton | Submit | AiButton(isAuthenticated: bool) | NewCallbacks

  /**
    One event.  Typing sets the term and restarts the timer; the timer
    copies the term into the debounced term, and the effect runs only if
    that changed it; the clear button empties both terms and clears the
    search (the effect clears it a second time if the debounced term was
    not already empty, and the emptied term restarts the timer); submitting
    searches a long enough typed term; the recommendations button navigates
    only for a signed-in reader; new callbacks repeat the effect.
   */
  function Step(b: Bar, e: Event): (r: (Bar, seq<Call>))
    ensures e.Type? ==> r == (b.(term := e.value, pending := true), [])
    ensures e.Fire? && b.pending && b.term != b.debounced ==>
      r == (Bar(b.term, b.term, false), AsCalls(DebouncedCall(b.term)))
    ensures e.Fire? && !(b.pending && b.term != b.debounced) ==> r.1 == [] && r.0.term == b.term && r.0.debounced == b.debounced
    ensures e.ClearButton? ==> r.0 == Bar("", "", b.pending || b.term != "")
    ensures e.ClearButton? && b.debounced != "" ==> r.1 == [ClearSearch, ClearSearch]
    ensures e.ClearButton? && b.debounced == "" ==> r.1 == [ClearSearch]
    ensures e.Submit? ==> r.0 == b && (r.1 == [Search(b.term)] <==> |b.term| >= MinSearchLength)
    ensures e.Submit? && |b.term| < MinSearchLength ==> r.1 == []
    ensures e.AiButton? ==> r.0 == b && (r.1 == [Navigate(RecommendationsPath)] <==> e.isAuthenticated)
    ensures e.AiButton? && !e.isAuthenticated ==> r.1 == []
    ensures e.NewCallbacks? ==> r.0 == b && r.1 == AsCalls(DebouncedCall(b.debounced))
    ensures |r.1| <= 2
  {
    match e
    case Type(value) => (b.(term := value, pending := true), [])
    case Fire =>
      if !b.pending then (b, [])
      else if b.term == b.debounced then (b.(pending := false), [])
      else (Bar(b.term, b.term, false), AsCalls(DebouncedCall(b.term)))
    case ClearButton =>
      var effect := if b.debounced != "" then [ClearSearch] else [];
      (Bar("", "", b.pending || b.term != ""), [ClearSearch] + effect)
    case Submit => (b, if |b.term| >= MinSearchLength then [Search(b.term)] else [])
    case AiButton(isAuthenticated) => (b, if isAuthenticated then [Navigate(RecommendationsPath)] else [])
    case NewCallbacks => (b, AsCalls(DebouncedCall(b.debounced)))
  }

  /** The calls a run of events makes, in order, and the final state. */
  function Run(b: Bar, events: seq<Event>): (r: (Bar, seq<Call>))
    ensures events == [] ==> r == (b, [])
    ensures |r.1| <= 2 * |events|
    decreases |events|
  {
    if events == [] then (b, [])
    else
      var (next, calls) := Step(b, events[0]);
      var (last, rest) := Run(next, events[1..]);
      (last, calls + rest)
  }

  /** Every search the bar asks for has at least three characters. */
  predicate SearchesAreLong(calls: seq<Call>) {
    forall i :: 0 <= i < |calls| && calls[i].Search? ==> |calls[i].term| >= MinSearchLength
  }

  /** However the reader types, submits and clears, no search is made for fewer than three characters. */
  lemma {:induction false} NoShortSearch(b: Bar, events: seq<Event>)
    ensures SearchesAreLong(Run(b, events).1)
    decreases |events|
  {
    if events != [] {
      var (next, calls) := Step(b, events[0]);
      NoShortSearch(next, events[1..]);
      var rest := Run(next, events[1..]).1;
      assert SearchesAreLong(calls);
      assert Run(b, events).1 == calls + rest;
      forall i | 0 <= i < |calls + rest| && (calls + rest)[i].Search?
        ensures |(calls + rest)[i].term| >= MinSearchLength
      {
        if i >= |calls| {
          assert (calls + rest)[i] == rest[i - |calls|];
        }
      }
    }
  }

  /** Typing a term and letting the timer fire makes the debounced call for that term, if it is new. */
  lemma TypeThenWait(b: Bar, value: string)
    requires value != b.debounced
    ensures Run(b, [Type(value), Fire]) == (Bar(value, value, false), AsCalls(DebouncedCall(value)))
  {
    var typed := b.(term := value, pending := true);
    var fired := Step(typed, Fire);
    assert [Type(value), Fire][1..] == [Fire] && [Fire][1..] == [];
    assert Run(typed, [Fire]) == (fired.0, fired.1 + []);
    assert fired.1 + [] == fired.1;
    assert Run(b, [Type(value), Fire]) == (fired.0, [] + fired.1);
    assert [] + fired.1 == fired.1;
  }

  /** The "type at least 3 characters" hint is shown for a non-empty term of fewer than three characters. */
  predicate ShowsHint(term: string): (shown: bool)
    ensures shown <==> term != "" && DebouncedCall(term).None?
  {
    |term| > 0 && |term| < MinSearchLength
  }

  /** The hint is shown exactly for the non-empty terms that neither the timer nor a submission would act on. */
  lemma HintMeansNoAction(b: Bar)
    ensures ShowsHint(b.term) <==> b.term != "" && DebouncedCall(b.term).None? && Step(b, Submit).1 == []
  {
  }
}
