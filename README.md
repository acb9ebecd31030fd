# Bigfoot sightings dashboard: row selection, in Dafny

The dashboard loads a table of Bigfoot sighting reports once. It drops the
implausible rows, then shows the reports that match the sidebar settings
(classifications, an inclusive year range, a title search) on a map and in
charts. Each map marker is coloured by the report's classification.

This project models the part of that script that decides which rows are
shown, and the marker colour:

- `text.dfy` (module `Text`): Python's `str.lower` on ASCII text, and the
  substring test `part in text`.
- `frames.dfy` (module `Frames`): a report is a `Sighting` record and a table
  is a `seq<Sighting>`. A pandas `DataFrame.query(expr)` is `Query`, a filter by
  one `Condition`, and a chain of queries is `Chain`. `Select` is one filter by
  the conjunction of several conditions. It is the reference that every chain
  is proved equal to (`ChainIsSelect`). The lemmas beside it prove that a
  filter keeps the order, keeps every copy of a matching row, fuses with
  another filter, is idempotent and commutes with other filters.
- `bigfoot_app.dfy` (module `BigfootApp`): `load_data`'s plausibility filter
  (`LoadFilter`), the sidebar filter pipeline (`SidebarFilter`), `select_color`
  (`SelectColor`), and their properties.

Two points of the code shape the model:

- `.lower()` on line 57 of `bigfoot_streamlit_app.py` lower-cases only the
  search text. pandas' `str.contains` is case-sensitive by default, so the
  title match on line 67 is case-sensitive (see "## Findings").
- `load_data` drops rows whose year or coordinates are out of range. It
  changes no coordinate.

## Model

| member | source | states |
|---|---|---|
| `Text.Lower` | bigfoot_streamlit_app.py:57 | the lower-cased search text has the same length as the typed text. It holds no upper-case ASCII letter: each upper-case letter becomes its lower-case partner and every other character is kept |
| `Text.ContainsLowered` | bigfoot_streamlit_app.py:67 | if a pattern occurs in a text, its lower-cased form occurs in the lower-cased text |
| `Text.Contains` | bigfoot_streamlit_app.py:67 | defines `str.contains` for a plain pattern: the pattern occurs in the text at some offset. The empty pattern is found in every text, and a pattern longer than the text is found in none |
| `Frames.Holds` | bigfoot_streamlit_app.py:21-67 | defines what each query expression means for one row: `year<=n`, `year>=n`, the two inclusive coordinate ranges, `classification.isin(...)` and `title.str.contains(...)` on the title as stored (lines 21-23, 61-63, 67), plus the corrected condition that lower-cases the title first |
| `Frames.Chain` | bigfoot_streamlit_app.py:60-64 | the queries applied one after another, as in `.query(a).query(b)...`. A row is in the result iff it is in the input and satisfies every condition |
| `Frames.Query` | bigfoot_streamlit_app.py:21-23 | one `.query(expr)` keeps exactly the rows of its input that satisfy `expr` |
| `Frames.Select` | bigfoot_streamlit_app.py:60-64 | a filter by a list of conditions is never longer than its input, and keeps exactly the input rows that satisfy every condition |
| `Frames.ChainIsSelect` | bigfoot_streamlit_app.py:60-64 | applying queries one after another equals one filter by the conjunction of all of them |
| `Frames.SelectIsSubsequence` | bigfoot_streamlit_app.py:20-24 | a filter's result can be mapped to strictly increasing positions of its input with equal rows, so no row is added or altered and the relative order is kept |
| `Frames.SelectCount` | bigfoot_streamlit_app.py:60-64 | a filter keeps every copy of a matching row and no copy of any other row |
| `Frames.SelectKeepsAll` | bigfoot_streamlit_app.py:61 | when every row satisfies the conditions, the filter returns its input unchanged |
| `Frames.SelectKeepsNone` | bigfoot_streamlit_app.py:62-63 | when no row satisfies the conditions, the filter returns the empty table |
| `Frames.SelectFusion` | bigfoot_streamlit_app.py:60-67 | filtering by `a` and then by `b` equals one filter by `a + b` |
| `Frames.SelectIdempotent` | bigfoot_streamlit_app.py:60-64 | applying the same filter twice is the same as applying it once |
| `Frames.SelectCommutes` | bigfoot_streamlit_app.py:60-64 | the order of two filters does not change the result |
| `BigfootApp.LoadConditionsMeaning` | bigfoot_streamlit_app.py:21-23 | a row passes the three load queries iff its year is at most 2020, its longitude is in [-180, 180] and its latitude is in [-90, 90] |
| `BigfootApp.LoadFilter` | bigfoot_streamlit_app.py:20-24 | a row is in the loaded table iff it is in the input, its year is at most 2020, its longitude is in [-180, 180] and its latitude is in [-90, 90], all bounds inclusive |
| `BigfootApp.LoadFilterKeepsOrder` | bigfoot_streamlit_app.py:20-24 | the loaded table is a subsequence of the input, and each kept row keeps its multiplicity |
| `BigfootApp.LoadFilterIdempotent` | bigfoot_streamlit_app.py:20-24 | filtering an already loaded table again removes nothing |
| `BigfootApp.SelectColor` | bigfoot_streamlit_app.py:27-33 | the lookup is total and returns one of "red", "orange" and "blue". It is "red" exactly for "Class A", "orange" exactly for "Class B", and "blue" for everything else |
| `BigfootApp.ClassificationOptions` | bigfoot_streamlit_app.py:46-47 | the options and default selection of the classification widget: every classification of a row in the table, and nothing else |
| `BigfootApp.RangeConditionsMeaning` | bigfoot_streamlit_app.py:61-63 | a row passes the classification and year queries iff its classification is selected and `years[0] <= year <= years[1]` |
| `BigfootApp.SidebarFilter` | bigfoot_streamlit_app.py:57-67 | a row is kept iff it is in the input, its classification is selected and `years[0] <= year <= years[1]`. When the text is non-empty, its unmodified title must also contain the lower-cased text |
| `BigfootApp.SidebarIsConjunction` | bigfoot_streamlit_app.py:60-67 | the chained sidebar queries, with the optional title query, equal one filter by the conjunction of all of them |
| `BigfootApp.SidebarWithoutText` | bigfoot_streamlit_app.py:66-67 | with an empty search text the title query is skipped, and the result is the classification-and-year result |
| `BigfootApp.SidebarInvertedRangeIsEmpty` | bigfoot_streamlit_app.py:62-63 | a year range with `years[0] > years[1]` selects no row |
| `BigfootApp.DefaultClassificationsRemoveNothing` | bigfoot_streamlit_app.py:44-61 | with the default selection (every classification in the table), the classification query removes nothing, and only the year and title queries act |
| `BigfootApp.SidebarKeepsOrder` | bigfoot_streamlit_app.py:60-67 | the sidebar result is a subsequence of the loaded table |
| `BigfootApp.SidebarIdempotent` | bigfoot_streamlit_app.py:60-67 | running the sidebar filters again with the same settings changes nothing |
| `BigfootApp.DashboardIsOneFilter` | bigfoot_streamlit_app.py:38-67 | loading and then sidebar filtering equals one filter of the raw table by the conjunction of all seven queries |
| `BigfootApp.ExactTitleWithCapitalIsMissed` | bigfoot_streamlit_app.py:57-67 | as written, searching for a report's own title never finds that report if the title holds an upper-case letter |
| `BigfootApp.SidebarFilterIgnoringCase` | bigfoot_streamlit_app.py:57-67 | corrected search: a row is kept iff it is selected by classification and year and, for a non-empty text, its lower-cased title contains the lower-cased text |
| `BigfootApp.IgnoringCaseFindsTypedText` | bigfoot_streamlit_app.py:57-67 | with the corrected search, a selected report whose title contains the typed text verbatim, capitals included, is found |
| `BigfootApp.IgnoringCaseIgnoresTextCase` | bigfoot_streamlit_app.py:57-67 | with the corrected search, two search texts that differ only in the case of their letters select the same reports |
| `BigfootApp.SidebarIgnoringCaseIsConjunction` | bigfoot_streamlit_app.py:60-67 | the corrected pipeline is also one filter by a conjunction, so the `Frames` lemmas on order and idempotence apply to it |

## Left out

- Reading the CSV file and parsing its free-form dates with `dateutil` (bigfoot_streamlit_app.py:16-18). Both are foreign library code. `year` is a given integer field of `Sighting`.
- The `@st.cache` memoisation (line 14). It is process-level caching and does not change the result.
- The Streamlit widgets (lines 36, 44-57): their layout, the slider's bounds and its default lower year of 1956. Their outputs are the parameters `classifications`, `years` and `text`. `ClassificationOptions` models only the default selection.
- The folium map (lines 74-93): the float mean used as its centre, and the loop that adds one circle per row to the map object. `SelectColor`, which that loop calls, is modelled.
- The Altair charts and the table display (lines 99-117). The counting happens inside the charting library.
- Text.Contains: a plain substring test. pandas' `str.contains` treats the text as a regular expression by default, so a search text with regex metacharacters falls outside the model.
- Missing values (NaN) in titles, coordinates or dates. A missing title makes `str.contains` yield NaN rather than a boolean.
- Text.Lower: lower-cases ASCII letters only. Python's `str.lower` also maps non-ASCII letters.
- Coordinates are exact reals. Floating-point rounding plays no part, since they are only compared with integer bounds.

## Findings

| source | as written | input that shows it | evidently intended | confidence | as-written member | corrected member |
|---|---|---|---|---|---|---|
| bigfoot_streamlit_app.py:57-67 | only the search text is lower-cased (line 57). The title is matched as stored (line 67), so the search is case-sensitive and finds no title text that holds a capital letter | a report titled "Bigfoot" and the search text "Bigfoot": the query becomes "bigfoot", which does not occur in "Bigfoot", so the report is dropped | a case-insensitive title search: the title lower-cased as well | medium; not executed | `BigfootApp.ExactTitleWithCapitalIsMissed` | `BigfootApp.SidebarFilterIgnoringCase` |

The dashboard lemmas above (`SidebarIsConjunction`, `SidebarKeepsOrder`,
`SidebarIdempotent`, `DashboardIsOneFilter`, ...) are stated for
`SidebarFilter`, because that is what the program does. The corrected
pipeline differs only in its title condition. `SidebarIgnoringCaseIsConjunction`
reduces it to a `Select`, and the `Frames` lemmas then give it the same
properties.
