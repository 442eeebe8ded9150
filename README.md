# Itinerary result step — a Dafny model

This project models the data-shaping core of the result step of a travel
planner wizard (`ResultStep.tsx`). That step shows a generated multi-day
itinerary next to a map. The model covers the helpers that decide what is
shown:

- `categorizePlace` classifies a free-text place category into one of seven
  place types. It tests keyword groups in a fixed order, and the first group
  that occurs wins.
- `sortPlacesByTimeAndType` lays a day out in five day parts: up to two
  morning sights, the first eatery, up to three afternoon places, the second
  eatery and one evening place, each part taking what the day's places offer
  (a part may be empty, and parts may share a place). It then tops the day up with unused places, to at most eight.
- `generateTimeSlot` gives the clock time of each position in a day.
- `getMapCenter` looks the destination up in a fixed table of city centres,
  with Seoul as the fallback.
- `getDestinationMarkers` and `getSpecificItinerary` choose which markers the
  map shows and what a day's schedule is. Each prefers the optimized
  itinerary, then the flat list of recommended places, then fixed defaults.
- `getActivityIcon` gives the icon of an entry's type tag.

Modules: `Prelude` holds `Option`, `Array.prototype.slice` and the ascending
key order of `Object.entries`. `Text` holds `String.prototype.includes` and
decimal rendering. `Places` holds the place record and `categorizePlace`.
`Schedule` holds the two module-level helpers. `ResultView` holds the helpers
nested in the component; they take the component's state as parameters:
`optimized: map<nat, seq<Place>>`, `recommended: seq<Place>` and
`destination: string`, where "" stands for no destination.

`sortPlacesByTimeAndType` and the marker loop of `getDestinationMarkers` build
their arrays by successive pushes. They are methods with loops, proved equal to
the functions `ArrangeDay` and `ItineraryMarkers`. The properties are proved as
lemmas about those functions. `getSpecificItinerary` is pure, so it is the
function `SpecificItinerary`, and it uses `ArrangeDay` for its second branch.

## Model

| member | source | states |
|---|---|---|
| Prelude.SortedKeys | src/features/travel-planner/components/steps/ResultStep.tsx:217-218 | the day keys are visited in strictly ascending order, each key of the itinerary exactly once |
| Text.IncludesIffOccurs | src/features/travel-planner/components/steps/ResultStep.tsx:82-102 | `includes` is true exactly when the keyword occurs as a contiguous substring at some position |
| Text.NatToStringRoundTrip | src/features/travel-planner/components/steps/ResultStep.tsx:77 | an integer rendered into a template literal is all digits, has no leading zero, and reads back as the same number |
| Places.Label | src/features/travel-planner/components/steps/ResultStep.tsx:81-104 | every type tag the classification returns is one of the seven names and maps back to its type |
| Places.LabelToTypeSound | src/features/travel-planner/components/steps/ResultStep.tsx:81-104 | a string read as a type is exactly that type's tag |
| Places.CategorizePlace | src/features/travel-planner/components/steps/ResultStep.tsx:81-104 | `categorizePlace`: when group k of `Rules` is the first keyword group the category mentions, the result is group k's type; so a food keyword always makes the place food |
| Places.FirstMatchFrom | src/features/travel-planner/components/steps/ResultStep.tsx:82-102 | finds the first keyword group the category mentions: that group matches and every earlier one does not |
| Places.CategorizeNoMatch | src/features/travel-planner/components/steps/ResultStep.tsx:103 | a category that mentions no keyword is an attraction |
| Places.CategorizeOrigin | src/features/travel-planner/components/steps/ResultStep.tsx:81-104 | conversely, every result is the type of the first mentioned group, or attraction when none is mentioned |
| Places.CategorizePrecedence | src/features/travel-planner/components/steps/ResultStep.tsx:82-102 | a mentioned group is beaten only by earlier groups: the result's group comes at or before every mentioned group |
| Places.CafeSightseeingIsFood | src/features/travel-planner/components/steps/ResultStep.tsx:82-87 | "카페 관광", which has a food and a sightseeing keyword, is food |
| Schedule.SortPlacesByTimeAndType | src/features/travel-planner/components/steps/ResultStep.tsx:36-70 | the pushes, the loop that builds the used-id set, the filter loop and the final concatenation and slice produce exactly `ArrangeDay(places)` |
| Schedule.OfTypesHead | src/features/travel-planner/components/steps/ResultStep.tsx:44-48 | a day-part filter keeps input order: its first element is the first place of a wanted type |
| Schedule.OfTypesEmpty | src/features/travel-planner/components/steps/ResultStep.tsx:44-48 | a day-part filter comes out empty exactly when no place of the input has a wanted type |
| Schedule.PushPicks | src/features/travel-planner/components/steps/ResultStep.tsx:43-62 | the five filters and the five pushes leave exactly the day-part picks: two morning sights, the first eatery, three afternoon places, the second eatery and one evening place, each as far as the filter has them |
| Schedule.CollectIds | src/features/travel-planner/components/steps/ResultStep.tsx:65 | the used-id set is exactly the set of ids of the picks |
| Schedule.FilterUnused | src/features/travel-planner/components/steps/ResultStep.tsx:66 | the remaining places are the input's places, in order, whose id is not in the used-id set |
| Schedule.PicksBounded | src/features/travel-planner/components/steps/ResultStep.tsx:53-62 | the day parts take at most 2 + 1 + 3 + 1 + 1 = 8 places |
| Schedule.PicksMembers | src/features/travel-planner/components/steps/ResultStep.tsx:43-62 | every day-part pick is a place of the input |
| Schedule.ArrangeDayBounded | src/features/travel-planner/components/steps/ResultStep.tsx:51-69 | an arranged day has at most eight places, each a place of the input |
| Schedule.LunchAndDinner | src/features/travel-planner/components/steps/ResultStep.tsx:55-60 | lunch is the first eatery and dinner the second; dinner is empty exactly when there are fewer than two; without repeated places, lunch and dinner differ |
| Schedule.LunchIsFirstEatery | src/features/travel-planner/components/steps/ResultStep.tsx:45-56 | lunch is the first place of the input that classifies as food |
| Schedule.ArrangeDayFill | src/features/travel-planner/components/steps/ResultStep.tsx:64-69 | the picks stay at the front; after them come the first places whose id was not picked, in input order, up to eight in all or as many as there are |
| Schedule.TopUpUnused | src/features/travel-planner/components/steps/ResultStep.tsx:64-69 | topping any pick list of at most eight up with the places whose ids it does not use keeps the picks as a prefix and appends only input places with unused ids, in input order, to a total of eight or as many as there are |
| Prelude.SliceTopUp | src/features/travel-planner/components/steps/ResultStep.tsx:64-69 | topping the picks up from the unused places and cutting at eight keeps the picks whole and then takes a prefix of the unused places, as much as fits or as there is |
| Schedule.LoneSightRepeats | src/features/travel-planner/components/steps/ResultStep.tsx:37-67 | the day parts overlap: a single sight is placed three times, so an arranged day may repeat a place |
| Schedule.GenerateTimeSlot | src/features/travel-planner/components/steps/ResultStep.tsx:73-78 | `generateTimeSlot`: positions 0 to 7 read as the eight table times; any other index of -9 or more reads as the hour 9 + index on the hour; an index below -9 gives a negative hour, no clock time; every non-negative position reads as a clock time (digits, a colon and two digits, the hour not bounded by 23) |
| Schedule.TableTimes | src/features/travel-planner/components/steps/ResultStep.tsx:74-76 | the eight table strings read as 09:00, 10:30, 12:00, 14:00, 15:30, 17:00, 18:30 and 20:00 |
| Schedule.HourClock | src/features/travel-planner/components/steps/ResultStep.tsx:77 | a rendered hour followed by ":00" reads as that hour on the hour |
| Schedule.NegativeHourClock | src/features/travel-planner/components/steps/ResultStep.tsx:77 | a rendered negative hour followed by ":00" is not a clock time |
| Schedule.LateSlotsPastMidnight | src/features/travel-planner/components/steps/ResultStep.tsx:77 | from position 15 on the time is 24:00 or later, which a long optimized day reaches; position 15 reads exactly 24:00 |
| Schedule.TableTimesAscend | src/features/travel-planner/components/steps/ResultStep.tsx:74-76 | within the table the times strictly increase |
| Schedule.FallbackTimesAscend | src/features/travel-planner/components/steps/ResultStep.tsx:77 | past the table the times rise by one hour per position |
| Schedule.FallbackRepeatsTable | src/features/travel-planner/components/steps/ResultStep.tsx:75-77 | position 8 gives 17:00, the time of position 5 and earlier than position 7 |
| ResultView.MapCenter | src/features/travel-planner/components/steps/ResultStep.tsx:189-202 | `getMapCenter`: a table city gets its own centre; the centre is Seoul's exactly when the destination is not in the table (Seoul and "" included; inherited object members aside, see Left out); the centre is always a table centre or Seoul's |
| ResultView.SeoulOutsideTable | src/features/travel-planner/components/steps/ResultStep.tsx:190-201 | none of the eight table cities has Seoul's centre |
| ResultView.DayMarkersSnoc | src/features/travel-planner/components/steps/ResultStep.tsx:219-228 | each place visited appends exactly its own marker |
| ResultView.PushDayMarkers | src/features/travel-planner/components/steps/ResultStep.tsx:219-228 | the inner `forEach` appends the day's markers, in order, to what was there |
| ResultView.GetDestinationMarkers | src/features/travel-planner/components/steps/ResultStep.tsx:204-258 | a non-empty itinerary gives the markers of its days in ascending order, and none at all when every day is empty; otherwise the fallback markers |
| ResultView.DayMarkersAt | src/features/travel-planner/components/steps/ResultStep.tsx:219-227 | one marker per place of a day: marker j is place j's, with order j + 1 and day number day + 1 |
| ResultView.ItineraryMarkersPerDay | src/features/travel-planner/components/steps/ResultStep.tsx:206-231 | the markers of day d + 1 are exactly day d's places in order; no marker has a day the itinerary lacks; days ascend |
| ResultView.ItineraryMarkersAscend | src/features/travel-planner/components/steps/ResultStep.tsx:217-229 | along the marker list the day numbers never decrease |
| ResultView.EmptyDaysShowNoMarkers | src/features/travel-planner/components/steps/ResultStep.tsx:206-231 | days that are all empty give no marker, so an itinerary with keys but no places still takes the itinerary branch and shows nothing |
| ResultView.FallbackMarkers | src/features/travel-planner/components/steps/ResultStep.tsx:234-257 | with no itinerary: the first min(n, 10) recommended places as unnumbered markers; else the four samples for Seoul or no destination; else one marker named after the destination at its centre |
| ResultView.SpecificItinerary | src/features/travel-planner/components/steps/ResultStep.tsx:467-597 | `getSpecificItinerary`: a non-empty optimized day gives one entry per place, in order, timed by position, with road address or else address as location, typed by classification, the place's other fields copied, marked optimized; otherwise a non-empty window of eight gives exactly the entries of `ArrangeDay` of that window (the day-part arrangement of `sortPlacesByTimeAndType`), unoptimized and timed by position; otherwise the fixed schedule for the destination and day, even an empty one, else the generic five-entry day |
| ResultView.ItineraryFromRecommended | src/features/travel-planner/components/steps/ResultStep.tsx:486-506 | in the second case there are at most eight entries, and each is the entry of a place of that day's window of eight (the flat list's places day·8 to day·8 + 7), at its position's time |
| ResultView.DayItinerary | src/features/travel-planner/components/steps/ResultStep.tsx:600 | a chosen destination is passed on; with none, a day that falls through to the fixed schedules gets Seoul's schedule for that day, or the generic day for Seoul |
| ResultView.DayWindowEmpty | src/features/travel-planner/components/steps/ResultStep.tsx:488-490 | a day's window is empty exactly when the flat list ends before the day's first slot, and it holds at most eight places |
| ResultView.ActivityIcon | src/features/travel-planner/components/steps/ResultStep.tsx:602-611 | `getActivityIcon`: the pin exactly for a tag that names no type, culture or nightlife; food, attraction, shopping, transport and accommodation get their own icons |
| ResultView.ActivityIconsDistinct | src/features/travel-planner/components/steps/ResultStep.tsx:603-608 | the five types with their own icon get different icons |

## Left out

- React rendering, `useState`/`useEffect`, the loading and error banners and the three-second timer: these are UI and async plumbing. The model takes the state they produce as parameters.
- `generateOptimizedItinerary`, `getPopularPlacesByRegion`, `KakaoMap` and the store actions `setCurrentStep`, `resetPlanData` and `setIsGenerating` are collaborators whose code is not part of this model. Their results appear only as the `optimized` and `recommended` parameters.
- The trip length (`Date` arithmetic and `Math.ceil`) and the `date-fns` day headings are left out because they are clock and floating-point work. The model takes the day index as a parameter.
- The marker descriptions (rating or `N/A`, review count, category) are kept as their parts in `PlaceSummary`. The text they render to is left out. The `toLocaleString` budget display and the rating and match-score badges are left out too, because they format floating-point values.
- Coordinates, ratings and match scores are fixed-point or opaque values that the model only copies. No arithmetic is done on them.
- The fixed per-city day schedules are the `templates` parameter, a lookup that may or may not have an entry. Their literal contents carry no logic.
- `handleDownloadCalendar`, `handleShare` and the `console.log` calls are alert or logging stubs.
- Day keys of the optimized itinerary are non-negative integers below 2^32 - 1. `Object.entries` visits every own key, with array-index keys (those below 2^32 - 1) first in ascending order and all other keys after them in creation order; keys of other shapes, larger integers included, are not modelled.
- `Text.Includes` compares Unicode scalar values, while JavaScript compares UTF-16 code units. The two agree for the Korean keywords here, which lie in the Basic Multilingual Plane.
- `Schedule.GenerateTimeSlot` takes an integer index. The component only ever passes array positions, so fractional numbers are not modelled. `Text.IntToString` writes every digit, where JavaScript would switch to exponent notation from 10^21.
- ResultView.MapCenter: destinations named after members that every JavaScript object inherits (`constructor`, `__proto__`, `toString`, `valueOf`, `hasOwnProperty` and the like) are not modelled. For those names the source's table lookup finds the inherited member rather than Seoul, and the single fallback marker then has undefined coordinates. The model has no value for such a member, so it gives Seoul's centre and its Seoul-iff covers them as well.
- An absent `roadAddress` is the empty string. Both are falsy, so `roadAddress || address` picks the same value.
