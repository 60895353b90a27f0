# Activity finder agents, modelled in Dafny

The activity finder backend is a set of small Python "agents". This project
models the deterministic ones and proves what they promise:

- **Location agent.** It cleans a free-text place name (strip, lower-case) and
  resolves it against a ten-city table. An exact key comes first. Then the
  first key in table order that lies inside the input, or holds it. Then
  San Francisco. It also suggests title-cased city names for partial input.
- **Data collection agent.** It returns ten mock activities placed at fixed
  offsets around a centre point.
- **Two result formatters.** Both are classes named `SummaryAgent`.
  - The copy in `filter_agent.py` keeps numeric sort keys, shows short
    distances in metres and adds tags.
  - The copy in `summary_agent.py` repeats "$" for any positive level and
    always shows kilometres.
  - The model states where the two agree and where they differ.
- **Mock search agent.** It filters a four-entry catalogue by type,
  shuffles, and keeps at most three. It also looks up details by id.
- **The two LLM agents** (`agent.py` and `agent_sim.py`). Only their pure
  steps are modelled:
  - the Places text-search query and the first five or four results;
  - reading preferences out of a model reply (code fences in one agent, the
    first-to-last brace span in the other);
  - the fallback and apology branches;
  - the exit command of the console loop.

The modules follow the source files:

- `location_agent.dfy` and `location_examples.dfy` (worked inputs)
- `data_agent.dfy`
- `filter_agent.dfy`, `summary_agent.dfy` and `comparison.dfy` (how the two
  formatters compare)
- `mock_search.dfy`
- `places.dfy` (what the two LLM agents share), `agent.dfy` and `agent_sim.dfy`

Shared building blocks:

- `wrappers.dfy`: `Option`, `Result`, and `Field`. `Field` is a dictionary
  entry that is missing, holds None, or holds a value.
- `text.dfy`: Python's `strip`, `lower`, `capitalize`, `title`, `in`, `find`,
  `split`, `join` and `str(int)`.
- `numerals.dfy`: Python's `round` and `f"{x:.2f}"`, on exact reals.
- `formatting.dfy`: the opening-hours text both formatters produce.
- `records.dfy`: the activity record shapes.
- `json.dfy`: decoded JSON values and their truthiness.

Some parts of the system are outside Dafny's reach. Each becomes a
parameter of the function that uses it:

- the model call: `reply`, the reply text or the error raised;
- `json.loads`: `parse`, which gives None where it raises;
- the Places HTTP request: `fetch`, from query to decoded response;
- `str()` of a non-string JSON value: `str`;
- `random.shuffle`: an arbitrary list of exchanges, `swaps`. Every permutation
  arises from some list, so the search properties hold for every outcome of
  the shuffle.

A few behaviours of the code are easy to misread. The model states them as
they are:

- The mock activities' price levels are `[1, 2, 4, 2, 3, 3, 2, 3, 4, 1]`
  (`DataAgent.ActivityPrices`).
- A distance of exactly 0 earns no "Nearby" tag, because the code tests
  `distance and distance < 1` (`FilterAgent.ZeroDistanceNotNearby`).
- In the ```json branch of `extract_preferences`, the text after the first
  "```json" is cut at the next "```json" and then at the next "```"
  (`Agent.StripFences`).
- A `max_results` below 1 still lets one suggestion through, because the
  bound is checked only after an append (`LocationAgent.SuggestionsIn`).

## Model

| member | source | states |
|---|---|---|
| LocationAgent.Normalize | backend/agents/location_agent.py:46 | the cleaned input is no longer than the input, and has no surrounding whitespace and no upper-case letter |
| LocationAgent.NormalizeBlank | backend/agents/location_agent.py:46 | an input cleans to the empty string exactly when it is whitespace only |
| LocationAgent.NormalizeIdempotent | backend/agents/location_agent.py:46 | cleaning an input (strip, then lower-case) a second time changes nothing |
| LocationAgent.Lookup | backend/agents/location_agent.py:49-50 | the exact-key lookup succeeds exactly when some key equals the cleaned input, and then gives that key's coordinates |
| LocationAgent.FirstMatchFrom | backend/agents/location_agent.py:53-55 | the chosen entry is the first in table order whose key is inside the input or holds it; none is chosen only when no key matches either way |
| LocationAgent.ResolveIn | backend/agents/location_agent.py:42-60 | None exactly for an empty or non-string input; otherwise the exact entry; failing that the first partially matching entry; failing that San Francisco (37.7749, -122.4194) |
| LocationAgent.ResolveIgnoresCaseAndSpace | backend/agents/location_agent.py:46-55 | any input whose cleaned form is non-empty resolves like that cleaned form, so case and surrounding whitespace never matter there (a whitespace-only input is the exception, see ResolveWhitespaceOnly) |
| LocationAgent.Resolve | backend/agents/location_agent.py:42-60 | over the city table: None exactly for an empty or non-string input; every other input is placed at one of the ten cities, since the default is San Francisco's entry |
| LocationAgent.ResolveWhitespaceOnly | backend/agents/location_agent.py:42-55 | a non-empty whitespace-only input cleans to "", which every key holds, so it resolves to the first entry |
| LocationAgent.MatchesMembership | backend/agents/location_agent.py:80-82 | a suggestion is exactly the title-cased form of some key that contains the cleaned input |
| LocationAgent.MatchesPrefix | backend/agents/location_agent.py:80-84 | stopping the scan early yields a prefix of the full list of suggestions |
| LocationAgent.SuggestionsIn | backend/agents/location_agent.py:74-86 | empty input gives []; otherwise the matching keys, title-cased and in table order, cut to max(1, max_results), because the bound is checked only after an append |
| LocationAgent.Suggestions | backend/agents/location_agent.py:63-86 | over the city table: never more than `max_results` suggestions when `max_results` is at least 1 |
| LocationAgent.SuggestionsDefault | backend/agents/location_agent.py:63-86 | with `max_results` left out: the first five matching keys, title-cased and in table order, and never more than five |
| LocationExamples.ResolveExact | backend/agents/location_agent.py:49-50 | an input that cleans to a key resolves to that key's coordinates |
| LocationExamples.ResolveFirstPartial | backend/agents/location_agent.py:53-55 | with no exact key, a partial match on the first entry decides the result |
| LocationExamples.ResolveNewYorkCity | backend/agents/location_agent.py:19-55 | "New York City" has no exact key and resolves to New York, the first key inside it |
| LocationExamples.ResolveParis | backend/agents/location_agent.py:53-60 | "Paris" matches no key in either direction and falls back to San Francisco |
| LocationExamples.ResolveChicagoPlain | backend/agents/location_agent.py:49-50 | "chicago" is a key and resolves to Chicago |
| LocationExamples.ResolveChicago | backend/agents/location_agent.py:46-50 | "  CHICAGO " resolves like "chicago", to Chicago |
| LocationExamples.ResolveBlank | backend/agents/location_agent.py:42-55 | "   " resolves to New York, the first entry |
| LocationExamples.ResolveEmpty | backend/agents/location_agent.py:42-43 | the empty string and non-string input resolve to None |
| DataAgent.GetActivities | backend/agents/data_agent.py:22-46 | exactly ten records, one per catalogue entry and in catalogue order, each placed relative to the centre |
| DataAgent.ActivityIds | backend/agents/data_agent.py:60-201 | the ids are "1" to "10" in order and pairwise distinct |
| DataAgent.ActivityPrices | backend/agents/data_agent.py:70-196 | every price level lies in 0..4, and the levels are [1, 2, 4, 2, 3, 3, 2, 3, 4, 1] |
| DataAgent.ActivityCategories | backend/agents/data_agent.py:60-201 | every category is one of the seven categories the API serves |
| DataAgent.ActivityOffsets | backend/agents/data_agent.py:67-194 | every activity lies within 0.03 degrees of the centre on each axis |
| DataAgent.ActivityHoursAndRatings | backend/agents/data_agent.py:71-198 | every record has one opening-hours string and a rating in [4.0, 4.9] |
| DataAgent.ActivitiesFollowCentre | backend/agents/data_agent.py:33-44 | moving the centre moves every activity by the same amount and changes nothing else; the datetime string never matters |
| Text.Strip | backend/agents/location_agent.py:46 | the stripped text is a slice of the input with only whitespace cut from either side, and neither starts nor ends with whitespace |
| Text.Title | backend/agents/location_agent.py:82 | non-letters are kept; a letter is upper case exactly when it does not follow another letter |
| Text.Split | backend/agents/agent.py:85-87 | at least one piece, exactly one when the separator does not occur, and no piece holds the separator |
| Text.JoinSplit | backend/agents/filter_agent.py:92 | joining the pieces of a split with the same separator gives back the text |
| Text.DecimalRoundTrip | backend/agents/filter_agent.py:109-110 | the decimal numeral of an integer reads back as that integer |
| Numerals.RoundHalfEven | backend/agents/filter_agent.py:109 | `round` gives an integer within one half of its argument, and the even one on a tie |
| Numerals.RoundHalfEvenUnique | backend/agents/filter_agent.py:109 | those two properties determine the rounded value |
| Numerals.RoundInteger | backend/agents/filter_agent.py:109 | an integer rounds to itself |
| Numerals.Fixed2 | backend/agents/filter_agent.py:112 | a two-decimal numeral: digits, a point and two digits, with a leading minus exactly for negative values |
| Numerals.Fixed2RoundTrip | backend/agents/filter_agent.py:112 | the two-decimal numeral reads back as the value rounded to hundredths |
| Formatting.FormatHours | backend/agents/filter_agent.py:80-92 | "Hours not available" for a missing or empty list; a single entry as it is; otherwise a text that contains every entry and, when no entry holds ", ", splits at ", " back into the entries in order |
| Formatting.SplitJoin | backend/agents/filter_agent.py:92 | splitting the ", "-joined entries at ", " gives the entries back, when no entry holds ", " |
| Formatting.JoinContains | backend/agents/filter_agent.py:92 | every entry of a list occurs in the joined text |
| Formatting.HoursRoundTrip | backend/agents/filter_agent.py:90-92 | formatting the ", "-separated pieces of a text gives that text back |
| FilterAgent.FormatPriceLevel | backend/agents/filter_agent.py:57-78 | level 0 is "Free", and only it; 1 to 4 are that many "$"; None and every other level are "Unknown" |
| FilterAgent.FormatDistance | backend/agents/filter_agent.py:94-112 | None is "Unknown"; below one kilometre, a numeral of whole metres (rounded half to even) and " m"; otherwise kilometres to two decimals and " km"; both numerals read back as the rounded value |
| FilterAgent.CategoryTag | backend/agents/filter_agent.py:127-128 | a tag exactly when the category is a non-empty string, and then it is the capitalised category |
| FilterAgent.PriceTag | backend/agents/filter_agent.py:131-137 | a tag exactly for a raw level of 0, 1 or 4: "Free", "Budget-friendly" or "Luxury" |
| FilterAgent.HighlyRated | backend/agents/filter_agent.py:140-141 | the rating rule fires exactly for a present rating of at least 4.7; its truthiness test never matters |
| FilterAgent.Nearby | backend/agents/filter_agent.py:145-146 | an activity the distance rule calls nearby always shows its distance in metres |
| FilterAgent.GenerateTags | backend/agents/filter_agent.py:114-149 | one tag per rule that fires, in rule order (category, price, rating, distance), so at most four |
| FilterAgent.TagVocabulary | backend/agents/filter_agent.py:124-149 | every tag is the capitalised category or one of five fixed labels |
| FilterAgent.FormatActivity | backend/agents/filter_agent.py:30-53 | every field: id, name and category read with `.get`; address "Unknown" only when missing, None when null; coordinates as read; price level 0 when missing, and the price string is always the rendering of the stored level; rating "N/A" when missing, None when null, otherwise the rating; hours the rendering of the list read with default []; description "" when missing; the distance string renders the raw distance, which is kept as the sort key; the tags |
| FilterAgent.FormatResults | backend/agents/filter_agent.py:15-55 | None or [] gives []; otherwise one formatted entry per activity, in order |
| FilterAgent.MissingPriceNoFreeTag | backend/agents/filter_agent.py:41-137 | a missing level shows as "Free" with level 0, yet earns no "Free" tag: its tags equal those of level 2 and differ from those of level 0 |
| FilterAgent.ZeroDistanceNotNearby | backend/agents/filter_agent.py:104-147 | a distance of exactly 0 is shown as "0 m" but its tags are those of an activity with no distance |
| FilterAgent.ShortDistanceNearby | backend/agents/filter_agent.py:145-147 | any other distance under one kilometre ends the tag list with "Nearby" |
| SummaryAgent.FormatPriceLevel | backend/agents/summary_agent.py:41-53 | "Unknown" exactly for None; a positive level gives that many "$"; "Free" exactly for levels of 0 or below |
| SummaryAgent.PriceRoundTrip | backend/agents/summary_agent.py:53 | counting the "$" of a positive level's price gives back the level |
| SummaryAgent.FormatDistance | backend/agents/summary_agent.py:69-81 | None is "Unknown"; any distance is kilometres to two decimals and " km", reading back as the distance rounded to hundredths |
| SummaryAgent.FormatActivity | backend/agents/summary_agent.py:19-35 | every one of the ten fields: id, name and category read with `.get`; address "Unknown" only when missing, None when null; coordinates as read; price "Free" when the level is missing, "Unknown" when null, otherwise the rendered level; rating "N/A", None or the rating; hours the rendering of the list read with default []; description "", None or the text; the distance in kilometres |
| SummaryAgent.FormatResults | backend/agents/summary_agent.py:7-39 | one formatted entry per activity, in order |
| FormatterComparison.PriceFormattersAgree | backend/agents/summary_agent.py:51-53 | the two price formatters agree exactly on None and on levels 0 to 4 |
| FormatterComparison.LevelFiveDiffers | backend/agents/summary_agent.py:53 | level 5 is "$$$$$" in one formatter and "Unknown" in the other |
| FormatterComparison.DistanceFormattersAgree | backend/agents/summary_agent.py:79-81 | the two distance formatters agree exactly when there is no distance or it is at least one kilometre |
| FormatterComparison.SharedFieldsAgree | backend/agents/summary_agent.py:21-34 | the fields both formatters write agree; price and distance agree exactly under the two conditions above |
| FormatterComparison.CatalogPricesAgree | backend/agents/data_agent.py:70-196 | on the mock activities both formatters show the same price, never "Unknown" |
| MockSearch.CatalogIdsDistinct | backend/agents/mock_search_agent.py:7-44 | no two catalogue entries share an id |
| MockSearch.ShufflePermutes | backend/agents/mock_search_agent.py:57 | shuffling keeps each element as often as before |
| MockSearch.ShuffleKeepsDistinct | backend/agents/mock_search_agent.py:57 | shuffling a list without repeats gives a list without repeats |
| MockSearch.OfKinds | backend/agents/mock_search_agent.py:50-54 | an activity is kept exactly when it is in the catalogue and of a requested type |
| MockSearch.Search | backend/agents/mock_search_agent.py:46-58 | min(3, number of eligible activities) results, all from the catalogue and of a requested type, distinct; the catalogue keeps its contents, and its order too when types are given |
| MockSearch.SearchIgnoresLocation | backend/agents/mock_search_agent.py:46-58 | location and radius never change the outcome |
| MockSearch.AnyEligibleCanLead | backend/agents/mock_search_agent.py:56-58 | every eligible activity comes first under some shuffle |
| MockSearch.FindId | backend/agents/mock_search_agent.py:62-63 | the first entry carrying the id, or none when no entry does |
| MockSearch.GetDetails | backend/agents/mock_search_agent.py:60-77 | "Activity not found" exactly when no entry has the id; otherwise the first such entry with the fixed hours, address, phone, website and two reviews |
| MockSearch.DetailsOfEntry | backend/agents/mock_search_agent.py:62-76 | with distinct ids, looking up an entry's id gives that entry |
| MockSearch.CatalogDetails | backend/agents/mock_search_agent.py:60-76 | every catalogue entry can be looked up |
| MockSearch.UnknownIdNotFound | backend/agents/mock_search_agent.py:77 | "act5" gives the error entry |
| Places.ComposeQuery | backend/agents/agent_sim.py:26-30 | the query starts with interest + " in " + location, then " during the " + time and " on " + date for the parts given, in that order |
| Places.BuildQuery | backend/agents/agent.py:31-35 | the same, with a part added exactly when it is non-empty |
| Places.TopResults | backend/agents/agent.py:53 | a missing `results` gives []; null raises; a list gives its first n entries |
| Agent.Recommend | backend/agents/agent.py:47-52 | name and address read with `.get`; a missing rating becomes "No rating", a null one None, a present one passes through; missing types become [], null ones None, present ones pass through |
| Agent.FindPlaces | backend/agents/agent.py:18-54 | fails exactly when `results` is null; otherwise at most five recommendations, one per leading result, in order |
| Agent.NoArgumentsSearch | backend/agents/agent.py:18-54 | a call with every argument left out searches for "fun things in San Francisco" and returns the first five results of that search |
| Agent.OmittedTimeAndDate | backend/agents/agent.py:18-35 | leaving out time and date is passing "", and the query is then interest + " in " + location |
| Agent.UpTo | backend/agents/agent.py:85-87 | the text before the first separator, or all of it; it never holds the separator |
| Agent.FencedPart | backend/agents/agent.py:85-87 | the stripped text after the first fence, cut at the next fences; it holds no fence |
| Agent.StripFences | backend/agents/agent.py:81-87 | the ```json branch, else the ``` branch, else the text unchanged; after either branch no fence is left |
| Agent.ExtractPreferences | backend/agents/agent.py:79-98 | the decoded fence-stripped reply; any failure of the model call or the decoding gives the San Francisco / "fun things" fallback |
| Agent.FencedReplyRoundTrip | backend/agents/agent.py:81-89 | a JSON text wrapped in a ```json block, with no fence and no padding of its own, comes back unchanged |
| Agent.IsExit | backend/agents/agent.py:172 | only a four-letter input can stop the loop |
| Agent.ExitIgnoresCase | backend/agents/agent.py:172 | only four-letter inputs stop the loop, and case never matters |
| Agent.PaddedExitContinues | backend/agents/agent.py:172 | the input is not stripped, so " exit" keeps the loop going |
| AgentSim.Pref | backend/agents/agent_sim.py:21-24 | a missing preference reads as "", a present one as its stored value |
| AgentSim.PrefQuery | backend/agents/agent_sim.py:20-30 | the query starts with interest + " in " + location; " during the " + time follows exactly when the time is truthy, then " on " + date exactly when the date is truthy; nothing else |
| AgentSim.QueriesAgree | backend/agents/agent_sim.py:21-30 | on string preferences both LLM agents search with the same query |
| AgentSim.EmptyPreferencesQuery | backend/agents/agent_sim.py:21-30 | empty preferences search for " in " |
| AgentSim.Recommend | backend/agents/agent_sim.py:42-47 | every field read with `.get`: rating and types are given exactly when present, and then as stored |
| AgentSim.FindPlaces | backend/agents/agent_sim.py:20-49 | fails exactly when `results` is null; otherwise at most four recommendations, one per leading result, in order |
| AgentSim.FindPlacesAgree | backend/agents/agent_sim.py:20-49 | on string preferences both agents' searches fail together; otherwise this agent's places are the first four of the other's, with the same names, addresses, ratings where given and types where given |
| AgentSim.BraceSpan | backend/agents/agent_sim.py:79 | a span exists exactly when some "{" precedes some "}"; it runs from the first "{" to the last "}" |
| AgentSim.SpanAtUnique | backend/agents/agent_sim.py:79 | the first "{" and the last "}" determine the span |
| AgentSim.BraceSpanWrapped | backend/agents/agent_sim.py:79 | a braced text with no "{" before it and no "}" after it is exactly the span |
| AgentSim.BraceSpanIdempotent | backend/agents/agent_sim.py:79 | the span of a span is itself |
| AgentSim.NoOpeningBraceNoSpan | backend/agents/agent_sim.py:75-84 | a reply without "{" holds no span |
| AgentSim.ExtractPreferences | backend/agents/agent_sim.py:74-88 | a failed model call or a reply with no span gives None; otherwise the decoded span |
| AgentSim.Respond | backend/agents/agent_sim.py:94-100 | the apology exactly when there are no preferences or they are falsy (an empty object among them); otherwise the places found for the preferences, or the error raised while finding them |
| AgentSim.RunAgent | backend/agents/agent_sim.py:90-100 | a failed model call, a reply with no brace span, or a span `json.loads` rejects all earn the apology |
| AgentSim.BracelessReplyApologises | backend/agents/agent_sim.py:79-100 | a reply without "{" always earns the apology |

## Left out

- The model call, the Places HTTP request, `json.loads` and `datetime.fromisoformat` are not modelled. They sit outside the code's own logic, so they are parameters: reply text, a fetch function and a parse function. `DataAgent.GetActivities` ignores the datetime string, because the code never reads the parsed value.
- The ReAct agent setup, `agent.run_agent`, `format_places_response` and the console's input/print loop are left out. They only call the LLM or do I/O. The exit predicate of that loop is modelled.
- `input_agent.py`, `search_agent.py`, `google_maps_tool.py`, the Flask routes in `app.py` and `views.py`, and the frontend are not part of this model.
- Numerals.Fixed2: works on exact reals, so binary floating-point effects are not modelled. For example, 2.675 is stored just below 2.675 and prints as "2.67".
- Numerals.RoundHalfEven: also works on exact reals. `distance * 1000` is computed exactly, not in floating point.
- Text.Lower: maps only ASCII letters. Python's Unicode case mapping of other letters is not modelled. The same holds for `UpperChar`, `Capitalize` and `Title`.
- Records.AddressOf: reads an absent `location` as an empty dictionary. A `location` key that holds None makes the source raise `AttributeError`, which is not modelled. The same holds for `LatOf` and `LngOf`.
- SummaryAgent.FormatResults: takes a list. With None the source raises `TypeError` when it iterates, and that is not modelled.
- Values of unexpected types in activity dictionaries are not modelled: `Field` is typed, so a string rating passed to `float()` cannot occur.
- AgentSim.Render: renders a non-string preference value through a parameter standing for `str()`. Python's exact rendering of numbers and objects is not modelled.
- That neither location method nor `get_details` changes the stored tables holds by construction: tables are constants and every operation is a function. `MockSearch.Search` returns the catalogue after its in-place shuffle as part of its result.
