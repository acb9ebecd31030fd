/** The row-selection logic of the Bigfoot sightings dashboard: the
    plausibility filter applied when the report table is loaded, the sidebar
    filters (classification, year range, title search), and the colour of a
    report's map marker. */
module BigfootApp {
  import opened Text
  import opened Frames

  /** Reports dated after this year are discarded as implausible. */
  const YearCutoff: int := 2020

  /** The three queries `load_data` chains onto the parsed table. */
  const LoadConditions: seq<Condition> :=
    [YearAtMost(YearCutoff), LongitudeWithin(-180.0, 180.0), LatitudeWithin(-90.0, 90.0)]

  lemma LoadConditionsMeaning()
    ensures forall s :: AllHold(LoadConditions, s) <==>
      s.year <= YearCutoff && -180.0 <= s.longitude <= 180.0 && -90.0 <= s.latitude <= 90.0
  {
    forall s ensures AllHold(LoadConditions, s) <==>
      s.year <= YearCutoff && -180.0 <= s.longitude <= 180.0 && -90.0 <= s.latitude <= 90.0
    {
      assert Holds(LoadConditions[0], s) && Holds(LoadConditions[1], s) && Holds(LoadConditions[2], s)
        <==> s.year <= YearCutoff && -180.0 <= s.longitude <= 180.0 && -90.0 <= s.latitude <= 90.0;
    }
  }

  /** `load_data`'s row filter: keeps exactly the reports dated no later than
      the cutoff year whose coordinates lie on the globe, all bounds inclusive. */
  function LoadFilter(rows: seq<Sighting>): (r: seq<Sighting>)
    ensures forall s :: s in r <==>
      && s in rows
      && s.year <= YearCutoff
      && -180.0 <= s.longitude <= 180.0
      && -90.0 <= s.latitude <= 90.0
  {
    ChainIsSelect(rows, LoadConditions);
    LoadConditionsMeaning();
    Chain(rows, LoadConditions)
  }

  /** The loaded table is the input with rows deleted, in the original order,
      and every plausible report is kept as often as it occurs. */
  lemma LoadFilterKeepsOrder(rows: seq<Sighting>)
    ensures IsSubsequence(LoadFilter(rows), rows)
    ensures forall s :: s in rows && s in LoadFilter(rows) ==>
      multiset(LoadFilter(rows))[s] == multiset(rows)[s]
  {
    ChainIsSelect(rows, LoadConditions);
    SelectIsSubsequence(rows, LoadConditions);
    forall s | s in rows && s in LoadFilter(rows)
      ensures multiset(LoadFilter(rows))[s] == multiset(rows)[s]
    {
      SelectCount(rows, LoadConditions, s);
    }
  }

  /** Loading an already loaded table drops nothing more. */
  lemma LoadFilterIdempotent(rows: seq<Sighting>)
    ensures LoadFilter(LoadFilter(rows)) == LoadFilter(rows)
  {
    ChainIsSelect(rows, LoadConditions);
    ChainIsSelect(LoadFilter(rows), LoadConditions);
    SelectIdempotent(rows, LoadConditions);
  }

  /** `select_color`: the colour of a report's map marker. */
  function SelectColor(classification: string): (color: string)
    ensures color in {"red", "orange", "blue"}
    ensures color == "red" <==> classification == "Class A"
    ensures color == "orange" <==> classification == "Class B"
  {
    if classification == "Class A" then "red"
    else if classification == "Class B" then "orange"
    else "blue"
  }

  /** The options, and the default selection, of the classification widget:
      every classification that occurs in the loaded table. */
  function ClassificationOptions(rows: seq<Sighting>): (options: set<string>)
    ensures forall s :: s in rows ==> s.classification in options
    ensures forall c :: c in options ==> exists s :: s in rows && s.classification == c
  {
    set s | s in rows :: s.classification
  }

  function YearConditions(years: (int, int)): seq<Condition> {
    [YearAtLeast(years.0), YearAtMost(years.1)]
  }

  /** The three queries chained on every interaction. */
  function RangeConditions(classifications: set<string>, years: (int, int)): seq<Condition> {
    [ClassificationIn(classifications)] + YearConditions(years)
  }

  lemma RangeConditionsMeaning(classifications: set<string>, years: (int, int))
    ensures forall s :: AllHold(RangeConditions(classifications, years), s) <==>
      s.classification in classifications && years.0 <= s.year <= years.1
  {
    var cs := RangeConditions(classifications, years);
    forall s ensures AllHold(cs, s) <==> s.classification in classifications && years.0 <= s.year <= years.1 {
      assert Holds(cs[0], s) && Holds(cs[1], s) && Holds(cs[2], s)
        <==> s.classification in classifications && years.0 <= s.year <= years.1;
    }
  }

  /** The title query, present only when the lower-cased search text is non-empty. */
  function TextConditions(text: string): seq<Condition> {
    if Lower(text) != [] then [TitleContains(Lower(text))] else []
  }

  function SidebarConditions(classifications: set<string>, years: (int, int), text: string): seq<Condition> {
    RangeConditions(classifications, years) + TextConditions(text)
  }

  /** The sidebar filters as the dashboard runs them: the search text is
      lower-cased, the classification and year queries are chained, and only
      a non-empty text adds the title query. The title itself is NOT
      lower-cased, so the match is case-sensitive on the title's side. */
  function SidebarFilter(rows: seq<Sighting>, classifications: set<string>, years: (int, int), text: string): (r: seq<Sighting>)
    ensures forall s :: s in r <==>
      && s in rows
      && s.classification in classifications
      && years.0 <= s.year <= years.1
      && (|text| > 0 ==> Contains(s.title, Lower(text)))
  {
    var query := Lower(text);
    ChainIsSelect(rows, RangeConditions(classifications, years));
    RangeConditionsMeaning(classifications, years);
    var filtered := Chain(rows, RangeConditions(classifications, years));
    if query != [] then Query(filtered, TitleContains(query)) else filtered
  }

  /** The chained sidebar queries are one filter by the conjunction of all of them. */
  lemma SidebarIsConjunction(rows: seq<Sighting>, classifications: set<string>, years: (int, int), text: string)
    ensures SidebarFilter(rows, classifications, years, text)
         == Select(rows, SidebarConditions(classifications, years, text))
  {
    var range := RangeConditions(classifications, years);
    ChainIsSelect(rows, range);
    SelectFusion(rows, range, TextConditions(text));
    if Lower(text) == [] {
      assert range + TextConditions(text) == range;
    }
  }

  /** With an empty search box the title query is skipped and the result is
      that of the classification and year queries alone. */
  lemma SidebarWithoutText(rows: seq<Sighting>, classifications: set<string>, years: (int, int))
    ensures SidebarFilter(rows, classifications, years, "")
         == Select(rows, RangeConditions(classifications, years))
  {
    ChainIsSelect(rows, RangeConditions(classifications, years));
  }

  /** A year range whose lower end lies above its upper end selects nothing. */
  lemma SidebarInvertedRangeIsEmpty(rows: seq<Sighting>, classifications: set<string>, years: (int, int), text: string)
    requires years.0 > years.1
    ensures SidebarFilter(rows, classifications, years, text) == []
  {
    var range := RangeConditions(classifications, years);
    var cs := SidebarConditions(classifications, years, text);
    SidebarIsConjunction(rows, classifications, years, text);
    RangeConditionsMeaning(classifications, years);
    forall s | s in rows ensures !AllHold(cs, s) {
      AllHoldAppend(range, TextConditions(text), s);
    }
    SelectKeepsNone(rows, cs);
  }

  /** The sidebar's default selection, every classification in the table,
      removes nothing: only the year and title queries have an effect. */
  lemma DefaultClassificationsRemoveNothing(rows: seq<Sighting>, years: (int, int), text: string)
    ensures SidebarFilter(rows, ClassificationOptions(rows), years, text)
         == Select(rows, YearConditions(years) + TextConditions(text))
  {
    var all := ClassificationOptions(rows);
    var conds := SidebarConditions(all, years, text);
    var rest := YearConditions(years) + TextConditions(text);
    SidebarIsConjunction(rows, all, years, text);
    assert conds == [ClassificationIn(all)] + rest;
    forall s | s in rows ensures AllHold(conds, s) <==> AllHold(rest, s) {
      AllHoldAppend([ClassificationIn(all)], rest, s);
    }
    SelectCongruent(rows, conds, rest);
  }

  /** The sidebar result is the loaded table with rows deleted, in order. */
  lemma SidebarKeepsOrder(rows: seq<Sighting>, classifications: set<string>, years: (int, int), text: string)
    ensures IsSubsequence(SidebarFilter(rows, classifications, years, text), rows)
  {
    SidebarIsConjunction(rows, classifications, years, text);
    SelectIsSubsequence(rows, SidebarConditions(classifications, years, text));
  }

  /** Running the sidebar filters again with the same settings changes nothing. */
  lemma SidebarIdempotent(rows: seq<Sighting>, classifications: set<string>, years: (int, int), text: string)
    ensures SidebarFilter(SidebarFilter(rows, classifications, years, text), classifications, years, text)
         == SidebarFilter(rows, classifications, years, text)
  {
    var cs := SidebarConditions(classifications, years, text);
    SidebarIsConjunction(rows, classifications, years, text);
    SidebarIsConjunction(SidebarFilter(rows, classifications, years, text), classifications, years, text);
    SelectIdempotent(rows, cs);
  }

  /** What the dashboard shows, loading then sidebar filtering, is one filter
      of the raw table by the conjunction of every query. */
  lemma DashboardIsOneFilter(raw: seq<Sighting>, classifications: set<string>, years: (int, int), text: string)
    ensures SidebarFilter(LoadFilter(raw), classifications, years, text)
         == Select(raw, LoadConditions + SidebarConditions(classifications, years, text))
  {
    ChainIsSelect(raw, LoadConditions);
    SidebarIsConjunction(LoadFilter(raw), classifications, years, text);
    SelectFusion(raw, LoadConditions, SidebarConditions(classifications, years, text));
  }

  /** As written, searching for a report's own title finds nothing when the
      title holds an upper-case letter: the search text is lower-cased and
      the title is not, and a text as long as the title can only match it
      at offset 0. */
  lemma ExactTitleWithCapitalIsMissed(rows: seq<Sighting>, classifications: set<string>, years: (int, int), s: Sighting, j: int)
    requires 0 <= j < |s.title| && IsAsciiUpper(s.title[j])
    ensures s !in SidebarFilter(rows, classifications, years, s.title)
  {
  }

  /** The title query with case ignored on both sides. */
  function TextConditionsIgnoringCase(text: string): seq<Condition> {
    if Lower(text) != [] then [TitleContainsIgnoringCase(Lower(text))] else []
  }

  /** The sidebar filters with the title search case-insensitive, as the
      lower-casing of the search text suggests was intended. */
  function SidebarFilterIgnoringCase(rows: seq<Sighting>, classifications: set<string>, years: (int, int), text: string): (r: seq<Sighting>)
    ensures forall s :: s in r <==>
      && s in rows
      && s.classification in classifications
      && years.0 <= s.year <= years.1
      && (|text| > 0 ==> Contains(Lower(s.title), Lower(text)))
  {
    var query := Lower(text);
    ChainIsSelect(rows, RangeConditions(classifications, years));
    RangeConditionsMeaning(classifications, years);
    var filtered := Chain(rows, RangeConditions(classifications, years));
    if query != [] then Query(filtered, TitleContainsIgnoringCase(query)) else filtered
  }

  /** With case ignored, a report whose title contains the typed text
      verbatim, capitals included, is found. */
  lemma IgnoringCaseFindsTypedText(rows: seq<Sighting>, classifications: set<string>, years: (int, int), text: string, s: Sighting)
    requires s in rows && s.classification in classifications && years.0 <= s.year <= years.1
    requires Contains(s.title, text)
    ensures s in SidebarFilterIgnoringCase(rows, classifications, years, text)
  {
    ContainsLowered(s.title, text);
  }

  /** With case ignored, two search texts that differ only in the case of
      their letters select the same reports. */
  lemma IgnoringCaseIgnoresTextCase(rows: seq<Sighting>, classifications: set<string>, years: (int, int), text1: string, text2: string)
    requires Lower(text1) == Lower(text2)
    ensures SidebarFilterIgnoringCase(rows, classifications, years, text1)
         == SidebarFilterIgnoringCase(rows, classifications, years, text2)
  {
  }

  /** The case-insensitive variant keeps the other sidebar properties: it is
      one filter by a conjunction, and hence order-preserving and idempotent. */
  lemma SidebarIgnoringCaseIsConjunction(rows: seq<Sighting>, classifications: set<string>, years: (int, int), text: string)
    ensures SidebarFilterIgnoringCase(rows, classifications, years, text)
         == Select(rows, RangeConditions(classifications, years) + TextConditionsIgnoringCase(text))
  {
    var range := RangeConditions(classifications, years);
    ChainIsSelect(rows, range);
    SelectFusion(rows, range, TextConditionsIgnoringCase(text));
    if Lower(text) == [] {
      assert range + TextConditionsIgnoringCase(text) == range;
    }
  }
}
