/**
 * The selection helpers nested in the result step component. Each reads the
 * component's state, which the model passes in: the optimized itinerary (day
 * index to the day's places), the flat list of recommended places, and the
 * chosen destination ("" when none was chosen).
 */
module ResultView {
  import opened Prelude
  import opened Text
  import opened Places
  import opened Schedule

  // ---------------------------------------------------------------- map centre

  /** Seoul city hall, the centre used for every destination without its own. */
  const SeoulCityHall: Coord := Coord(375665, 1269780)

  const CityCenters: map<string, Coord> := map[
    "제주도" := Coord(334996, 1265312),
    "부산" := Coord(351796, 1290756),
    "경주" := Coord(358562, 1292247),
    "강릉" := Coord(377519, 1288761),
    "여수" := Coord(347604, 1276622),
    "전주" := Coord(358242, 1271480),
    "속초" := Coord(382070, 1285918),
    "가평" := Coord(378314, 1275109)
  ]

  /**
   * `getMapCenter`: the destination's own centre when the table has one, and
   * Seoul's exactly for the destinations outside the table, Seoul and "" among
   * them.
   */
  function MapCenter(destination: string): (c: Coord)
    ensures destination in CityCenters ==> c == CityCenters[destination]
    ensures c == SeoulCityHall <==> destination !in CityCenters
    ensures c in CityCenters.Values || c == SeoulCityHall
  {
    SeoulOutsideTable();
    if destination in CityCenters then CityCenters[destination] else SeoulCityHall
  }

  /** No city of the table has Seoul's centre. */
  lemma SeoulOutsideTable()
    ensures SeoulCityHall !in CityCenters.Values
  {
    forall d | d in CityCenters ensures CityCenters[d] != SeoulCityHall {
      assert CityCenters[d].lat != 375665;
    }
  }

  // ---------------------------------------------------------------- markers

  /** A marker's caption: a place's rating line, or fixed text. */
  datatype Description =
    | PlaceSummary(rating: Option<Measure>, reviewCount: Option<nat>, category: string)
    | Caption(text: string)

  /** A map marker; `order` and `day` count from 1 and are present only for itinerary markers. */
  datatype Marker = Marker(position: Coord, name: string, description: Description, order: Option<nat>, day: Option<nat>)

  /** The four sample markers shown for Seoul and for no destination. */
  const SampleMarkers: seq<Marker> := [
    Marker(Coord(375665, 1269780), "서울 시청", Caption("서울의 중심지"), None, None),
    Marker(Coord(375796, 1269770), "경복궁", Caption("조선 왕조의 대표 궁궐"), None, None),
    Marker(Coord(375665, 1269849), "명동", Caption("쇼핑과 맛집의 거리"), None, None),
    Marker(Coord(375547, 1269707), "남산타워", Caption("서울의 랜드마크"), None, None)
  ]

  /** The marker of the place at position `index` of day `day`, both counted from 0. */
  function OrderedMarker(day: nat, index: nat, p: Place): Marker
  {
    Marker(
      p.position,
      NatToString(day + 1) + "일차 " + NatToString(index + 1) + "번: " + p.name,
      PlaceSummary(p.rating, p.reviewCount, p.category),
      Some(index + 1),
      Some(day + 1))
  }

  /** The marker of a recommended place outside the itinerary: no order, no day. */
  function PlainMarker(p: Place): Marker
  {
    Marker(p.position, p.name, PlaceSummary(p.rating, p.reviewCount, p.category), None, None)
  }

  /** The one marker shown for a destination other than Seoul when nothing was recommended. */
  function CenterMarker(destination: string): Marker
  {
    Marker(MapCenter(destination), destination, Caption("선택하신 여행 목적지"), None, None)
  }

  /** The markers of one day's places, in visiting order. */
  function DayMarkers(day: nat, places: seq<Place>): seq<Marker>
  {
    if places == [] then []
    else DayMarkers(day, places[..|places| - 1]) + [OrderedMarker(day, |places| - 1, places[|places| - 1])]
  }

  /** The markers of the listed days of the itinerary, day after day. */
  function ItineraryMarkers(itinerary: map<nat, seq<Place>>, days: seq<nat>): seq<Marker>
    requires forall d :: d in days ==> d in itinerary
  {
    if days == [] then []
    else
      var last := days[|days| - 1];
      ItineraryMarkers(itinerary, days[..|days| - 1]) + DayMarkers(last, itinerary[last])
  }

  /** One more place of a day adds its marker at the end. */
  lemma DayMarkersSnoc(day: nat, places: seq<Place>, index: nat)
    requires index < |places|
    ensures DayMarkers(day, places[..index + 1]) == DayMarkers(day, places[..index]) + [OrderedMarker(day, index, places[index])]
  {
    assert places[..index + 1][..index] == places[..index];
  }

  /** One more day adds that day's markers at the end. */
  lemma ItineraryMarkersSnoc(itinerary: map<nat, seq<Place>>, days: seq<nat>, d: nat)
    requires d < |days| && forall k :: k in days ==> k in itinerary
    ensures ItineraryMarkers(itinerary, days[..d + 1])
         == ItineraryMarkers(itinerary, days[..d]) + DayMarkers(days[d], itinerary[days[d]])
  {
    assert days[..d + 1][..d] == days[..d];
  }

  /**
   * The markers when there is no optimized itinerary: the first ten
   * recommended places, unnumbered; with none of those, the four samples for
   * Seoul or no destination, and else exactly one marker at the destination's
   * centre.
   */
  function FallbackMarkers(recommended: seq<Place>, destination: string): (ms: seq<Marker>)
    ensures |recommended| > 0 ==>
      && |ms| == Min(|recommended|, 10)
      && forall i :: 0 <= i < |ms| ==> ms[i] == PlainMarker(recommended[i]) && ms[i].order == None && ms[i].day == None
    ensures |recommended| == 0 && (destination == "서울" || destination == "") ==> ms == SampleMarkers && |ms| == 4
    ensures |recommended| == 0 && destination != "서울" && destination != "" ==>
      |ms| == 1 && ms[0].position == MapCenter(destination) && ms[0].name == destination
  {
    if |recommended| > 0 then
      var shown := Slice(recommended, 0, 10);
      seq(|shown|, i requires 0 <= i < |shown| => PlainMarker(shown[i]))
    else if destination == "서울" || destination == "" then SampleMarkers
    else [CenterMarker(destination)]
  }

  /**
   * The inner `places.forEach` of `getDestinationMarkers`: pushes the marker
   * of each place of day `day`, in order, onto `markers`.
   */
  method PushDayMarkers(markers: seq<Marker>, day: nat, places: seq<Place>) returns (pushed: seq<Marker>)
    ensures pushed == markers + DayMarkers(day, places)
  {
    pushed := markers;
    for index := 0 to |places|
      invariant pushed == markers + DayMarkers(day, places[..index])
    {
      DayMarkersSnoc(day, places, index);
      pushed := pushed + [OrderedMarker(day, index, places[index])];
    }
    assert places[..|places|] == places;
  }

  /**
   * Days that are all empty give no marker: an itinerary with keys but no
   * places still takes the itinerary branch and shows nothing.
   */
  lemma {:induction false} EmptyDaysShowNoMarkers(itinerary: map<nat, seq<Place>>, days: seq<nat>)
    requires forall d :: d in days ==> d in itinerary && itinerary[d] == []
    ensures ItineraryMarkers(itinerary, days) == []
    decreases |days|
  {
    if days != [] {
      EmptyDaysShowNoMarkers(itinerary, days[..|days| - 1]);
    }
  }

  /**
   * `getDestinationMarkers`: with an itinerary, walks its days in ascending
   * order and pushes the markers of each day's places; otherwise falls back
   * to the recommended places or the destination. Keys whose days are all
   * empty still take the itinerary branch and give no marker.
   */
  method GetDestinationMarkers(optimized: map<nat, seq<Place>>, recommended: seq<Place>, destination: string)
    returns (markers: seq<Marker>)
    ensures |optimized| > 0 ==> markers == ItineraryMarkers(optimized, SortedKeys(optimized.Keys))
    ensures |optimized| == 0 ==> markers == FallbackMarkers(recommended, destination)
    ensures |optimized| > 0 && (forall d :: d in optimized ==> optimized[d] == []) ==> markers == []
  {
    if |optimized| > 0 {
      var days := SortedKeys(optimized.Keys);
      markers := [];
      for d := 0 to |days|
        invariant markers == ItineraryMarkers(optimized, days[..d])
      {
        ItineraryMarkersSnoc(optimized, days, d);
        markers := PushDayMarkers(markers, days[d], optimized[days[d]]);
      }
      assert days[..|days|] == days;
      if forall d :: d in optimized ==> optimized[d] == [] {
        EmptyDaysShowNoMarkers(optimized, days);
      }
    } else {
      markers := FallbackMarkers(recommended, destination);
    }
  }

  /** The markers that belong to day `n` (counted from 1), in order. */
  function MarkersOfDay(markers: seq<Marker>, n: nat): seq<Marker>
  {
    if markers == [] then []
    else
      var last := markers[|markers| - 1];
      MarkersOfDay(markers[..|markers| - 1], n) + (if last.day == Some(n) then [last] else [])
  }

  lemma {:induction false} MarkersOfDayAppend(a: seq<Marker>, b: seq<Marker>, n: nat)
    ensures MarkersOfDay(a + b, n) == MarkersOfDay(a, n) + MarkersOfDay(b, n)
    decreases |b|
  {
    if b == [] {
      assert a + b == a;
    } else {
      var init := b[..|b| - 1];
      assert (a + b)[..|a + b| - 1] == a + init;
      MarkersOfDayAppend(a, init, n);
    }
  }

  /**
   * One marker per place of the day: the marker at position `j` is place `j`'s,
   * with order j + 1 and day `day` + 1.
   */
  lemma {:induction false} DayMarkersAt(day: nat, places: seq<Place>)
    ensures |DayMarkers(day, places)| == |places|
    ensures forall j :: 0 <= j < |places| ==> DayMarkers(day, places)[j] == OrderedMarker(day, j, places[j])
    ensures forall m :: m in DayMarkers(day, places) ==> m.day == Some(day + 1) && m.order.Some?
    decreases |places|
  {
    if places != [] {
      var init := places[..|places| - 1];
      DayMarkersAt(day, init);
      assert forall j :: 0 <= j < |init| ==> init[j] == places[j];
    }
  }

  lemma {:induction false} DayMarkersOfDay(day: nat, places: seq<Place>, n: nat)
    ensures MarkersOfDay(DayMarkers(day, places), n) == if n == day + 1 then DayMarkers(day, places) else []
    decreases |places|
  {
    if places != [] {
      var init := places[..|places| - 1];
      DayMarkersOfDay(day, init, n);
      var ms := DayMarkers(day, places);
      assert ms[..|ms| - 1] == DayMarkers(day, init);
    }
  }

  /** Every itinerary marker carries a day, one after a listed day index. */
  lemma {:induction false} ItineraryMarkerDays(itinerary: map<nat, seq<Place>>, days: seq<nat>)
    requires forall d :: d in days ==> d in itinerary
    ensures forall m :: m in ItineraryMarkers(itinerary, days) ==> m.day.Some? && m.day.value >= 1 && m.day.value - 1 in days
    decreases |days|
  {
    if days != [] {
      var init := days[..|days| - 1];
      var last := days[|days| - 1];
      ItineraryMarkerDays(itinerary, init);
      DayMarkersAt(last, itinerary[last]);
    }
  }

  lemma {:induction false} ItineraryMarkersOfDay(itinerary: map<nat, seq<Place>>, days: seq<nat>, d: nat)
    requires forall k :: k in days ==> k in itinerary
    requires StrictlyAscending(days)
    ensures MarkersOfDay(ItineraryMarkers(itinerary, days), d + 1) == if d in days then DayMarkers(d, itinerary[d]) else []
    decreases |days|
  {
    if days != [] {
      var init := days[..|days| - 1];
      var last := days[|days| - 1];
      var front := ItineraryMarkers(itinerary, init);
      var back := DayMarkers(last, itinerary[last]);
      assert MarkersOfDay(ItineraryMarkers(itinerary, days), d + 1)
             == MarkersOfDay(front, d + 1) + MarkersOfDay(back, d + 1) by {
        assert ItineraryMarkers(itinerary, days) == front + back;
        MarkersOfDayAppend(front, back, d + 1);
      }
      assert MarkersOfDay(front, d + 1) == if d in init then DayMarkers(d, itinerary[d]) else [] by {
        AscendingSplit(days);
        ItineraryMarkersOfDay(itinerary, init, d);
      }
      assert MarkersOfDay(back, d + 1) == if d == last then back else [] by {
        DayMarkersOfDay(last, itinerary[last], d + 1);
      }
      assert (d in days <==> d in init || d == last) && !(d in init && d == last) by {
        AscendingSplit(days);
      }
    }
  }

  /**
   * With an optimized itinerary there is exactly one marker per planned
   * place: the markers of day d + 1 are day d's places in order, numbered
   * from 1, no marker has a day the itinerary lacks, and the days come in
   * ascending order.
   */
  lemma ItineraryMarkersPerDay(itinerary: map<nat, seq<Place>>, d: nat)
    ensures var markers := ItineraryMarkers(itinerary, SortedKeys(itinerary.Keys));
      && (d in itinerary ==> MarkersOfDay(markers, d + 1) == DayMarkers(d, itinerary[d]))
      && (d !in itinerary ==> MarkersOfDay(markers, d + 1) == [])
      && (forall m :: m in markers ==> m.day.Some? && m.day.value >= 1 && m.day.value - 1 in itinerary)
      && DayByDay(markers)
  {
    var days := SortedKeys(itinerary.Keys);
    ItineraryMarkersOfDay(itinerary, days, d);
    ItineraryMarkerDays(itinerary, days);
    ItineraryMarkersAscend(itinerary, days);
  }

  /** Every marker has a day, and the day numbers never decrease along the sequence. */
  predicate DayByDay(ms: seq<Marker>)
  {
    && (forall i :: 0 <= i < |ms| ==> ms[i].day.Some?)
    && (forall i, j :: 0 <= i < j < |ms| ==> ms[i].day.Some? && ms[j].day.Some? && ms[i].day.value <= ms[j].day.value)
  }

  /** Markers of one later day appended to markers that go day by day still go day by day. */
  lemma DayByDayAppend(front: seq<Marker>, back: seq<Marker>, day: nat)
    requires DayByDay(front)
    requires forall m :: m in front ==> m.day.Some? && m.day.value <= day
    requires forall m :: m in back ==> m.day == Some(day)
    ensures DayByDay(front + back)
  {
    var ms := front + back;
    forall i | 0 <= i < |ms| ensures ms[i].day.Some? {
      if i < |front| { assert ms[i] == front[i]; } else { assert ms[i] == back[i - |front|] && ms[i] in back; }
    }
    forall i, j | 0 <= i < j < |ms|
      ensures ms[i].day.Some? && ms[j].day.Some? && ms[i].day.value <= ms[j].day.value
    {
      if j < |front| {
        assert ms[i] == front[i] && ms[j] == front[j];
      } else {
        assert ms[j] == back[j - |front|] && ms[j] in back;
        if i < |front| {
          assert ms[i] == front[i] && ms[i] in front;
        } else {
          assert ms[i] == back[i - |front|] && ms[i] in back;
        }
      }
    }
  }

  /** The itinerary markers go day by day. */
  lemma {:induction false} ItineraryMarkersAscend(itinerary: map<nat, seq<Place>>, days: seq<nat>)
    requires forall k :: k in days ==> k in itinerary
    requires StrictlyAscending(days)
    ensures DayByDay(ItineraryMarkers(itinerary, days))
    decreases |days|
  {
    if days != [] {
      var init := days[..|days| - 1];
      var last := days[|days| - 1];
      AscendingSplit(days);
      ItineraryMarkersAscend(itinerary, init);
      var front := ItineraryMarkers(itinerary, init);
      assert forall m :: m in front ==> m.day.Some? && m.day.value <= last + 1 by {
        ItineraryMarkerDays(itinerary, init);
        forall m | m in front ensures m.day.Some? && m.day.value <= last + 1 {
          var w :| 0 <= w < |init| && init[w] == m.day.value - 1;
          assert days[w] == init[w];
        }
      }
      DayMarkersAt(last, itinerary[last]);
      DayByDayAppend(front, DayMarkers(last, itinerary[last]), last + 1);
    }
  }

  // ---------------------------------------------------------------- day itinerary

  /**
   * One entry of a day's schedule. Entries built from places carry the
   * place's details; entries of the fixed schedules carry only what they list.
   */
  datatype Item = Item(
    time: string,
    activity: string,
    location: string,
    kind: string,
    description: Option<string>,
    rating: Option<Measure>,
    reviewCount: Option<nat>,
    matchScore: Option<Measure>,
    phone: Option<string>,
    isOptimized: bool)

  /** The entry for the place at position `index` of a day. */
  function PlaceItem(p: Place, index: nat, optimized: bool): Item
  {
    Item(
      GenerateTimeSlot(index),
      p.name,
      if p.roadAddress != "" then p.roadAddress else p.address,
      Label(CategorizePlace(p.category)),
      Some(p.category),
      p.rating, p.reviewCount, p.matchScore, p.phone,
      optimized)
  }

  function PlaceItems(places: seq<Place>, optimized: bool): seq<Item>
  {
    seq(|places|, i requires 0 <= i < |places| => PlaceItem(places[i], i, optimized))
  }

  function FixedItem(time: string, activity: string, location: string, kind: string): Item
  {
    Item(time, activity, location, kind, None, None, None, None, None, false)
  }

  /** The generic five-entry day for a destination without a fixed schedule. */
  function DefaultDay(destination: string): seq<Item>
  {
    [
      FixedItem("09:00", "호텔 조식 및 체크아웃", "숙소", "accommodation"),
      FixedItem("10:30", destination + " 주요 관광지 방문", destination, "attraction"),
      FixedItem("12:30", "현지 맛집에서 점심", destination + " 맛집", "food"),
      FixedItem("14:00", "문화 체험 및 쇼핑", destination + " 쇼핑가", "shopping"),
      FixedItem("18:00", "저녁 식사 및 야경 감상", destination + " 야경 명소", "food")
    ]
  }

  /** The fixed schedules: destination, then day index, to the day's entries. */
  type Templates = map<string, map<nat, seq<Item>>>

  /** The places of the flat list that belong to day `day`: eight per day. */
  function DayWindow(recommended: seq<Place>, day: nat): seq<Place>
  {
    Slice(recommended, day * DayCapacity, (day + 1) * DayCapacity)
  }

  /**
   * `getSpecificItinerary`: the optimized day if it has places, else the
   * day's window of the flat list arranged by day part, else the fixed
   * schedule for the destination and day, else the generic day. A fixed
   * schedule that exists but is empty is still chosen (an empty array is
   * truthy).
   */
  function SpecificItinerary(optimized: map<nat, seq<Place>>, recommended: seq<Place>, templates: Templates,
                             destination: string, day: nat): (items: seq<Item>)
    ensures day in optimized && |optimized[day]| > 0 ==>
      && |items| == |optimized[day]|
      && forall i :: 0 <= i < |items| ==>
           && items[i].time == GenerateTimeSlot(i)
           && items[i].activity == optimized[day][i].name
           && items[i].location == (if optimized[day][i].roadAddress != "" then optimized[day][i].roadAddress
                                    else optimized[day][i].address)
           && items[i].kind == Label(CategorizePlace(optimized[day][i].category))
           && items[i].isOptimized
           && items[i] == PlaceItem(optimized[day][i], i, true)
    ensures !(day in optimized && |optimized[day]| > 0) && |DayWindow(recommended, day)| > 0 ==>
      && |items| == |ArrangeDay(DayWindow(recommended, day))| <= DayCapacity
      && forall i :: 0 <= i < |items| ==>
           && items[i].time == GenerateTimeSlot(i) && !items[i].isOptimized
           && items[i] == PlaceItem(ArrangeDay(DayWindow(recommended, day))[i], i, false)
    ensures !(day in optimized && |optimized[day]| > 0) && |DayWindow(recommended, day)| == 0 ==>
      && (destination in templates && day in templates[destination] ==> items == templates[destination][day])
      && (!(destination in templates && day in templates[destination]) ==>
            items == DefaultDay(destination) && |items| == 5)
  {
    ArrangeDayBounded(DayWindow(recommended, day));
    if day in optimized && |optimized[day]| > 0 then PlaceItems(optimized[day], true)
    else if |recommended| > 0 && |DayWindow(recommended, day)| > 0 then
      PlaceItems(ArrangeDay(DayWindow(recommended, day)), false)
    else if destination in templates && day in templates[destination] then templates[destination][day]
    else DefaultDay(destination)
  }

  /**
   * The schedule the component shows for a day: a chosen destination is
   * passed on, and with none chosen a day that falls through to the fixed
   * schedules gets Seoul's schedule for that day, or the generic day for
   * Seoul when there is none.
   */
  function DayItinerary(optimized: map<nat, seq<Place>>, recommended: seq<Place>, templates: Templates,
                        destination: string, day: nat): (items: seq<Item>)
    ensures destination != "" ==> items == SpecificItinerary(optimized, recommended, templates, destination, day)
    ensures destination == "" && !(day in optimized && |optimized[day]| > 0) && |DayWindow(recommended, day)| == 0 ==>
      items == if "서울" in templates && day in templates["서울"] then templates["서울"][day] else DefaultDay("서울")
  {
    SpecificItinerary(optimized, recommended, templates, if destination == "" then "서울" else destination, day)
  }

  /**
   * Second priority: otherwise, when the day's window of the flat list has
   * places, at most eight entries, each the entry of a place of that window
   * at its position's time.
   */
  lemma ItineraryFromRecommended(optimized: map<nat, seq<Place>>, recommended: seq<Place>, templates: Templates,
                                 destination: string, day: nat)
    requires !(day in optimized && |optimized[day]| > 0)
    requires |DayWindow(recommended, day)| > 0
    ensures var items := SpecificItinerary(optimized, recommended, templates, destination, day);
      && |items| <= DayCapacity
      && forall i :: 0 <= i < |items| ==>
           && items[i].time == GenerateTimeSlot(i)
           && !items[i].isOptimized
           && exists j :: day * DayCapacity <= j < (day + 1) * DayCapacity && j < |recommended|
                          && items[i] == PlaceItem(recommended[j], i, false)
  {
    var window := DayWindow(recommended, day);
    var arranged := ArrangeDay(window);
    ArrangeDayBounded(window);
    var items := SpecificItinerary(optimized, recommended, templates, destination, day);
    forall i | 0 <= i < |items|
      ensures exists j :: day * DayCapacity <= j < (day + 1) * DayCapacity && j < |recommended|
                          && items[i] == PlaceItem(recommended[j], i, false)
    {
      assert arranged[i] in window;
      var w :| 0 <= w < |window| && window[w] == arranged[i];
      assert items[i] == PlaceItem(recommended[day * DayCapacity + w], i, false);
    }
  }

  /** The window of day `day` is empty exactly when the flat list ends before it. */
  lemma DayWindowEmpty(recommended: seq<Place>, day: nat)
    ensures |DayWindow(recommended, day)| == 0 <==> |recommended| <= day * DayCapacity
    ensures |DayWindow(recommended, day)| <= DayCapacity
  {
  }

  // ---------------------------------------------------------------- icons

  const PinIcon: string := "📍"

  /**
   * `getActivityIcon`: the icon of an entry's type tag. Five of the seven
   * place types have their own icon; culture and nightlife fall through to
   * the pin, as does every tag that names no type.
   */
  function ActivityIcon(kind: string): (icon: string)
    ensures icon == PinIcon <==> LabelToType(kind) in {None, Some(Culture), Some(Nightlife)}
  {
    if kind == "food" then "🍽️"
    else if kind == "attraction" then "🏛️"
    else if kind == "shopping" then "🛍️"
    else if kind == "transport" then "🚗"
    else if kind == "accommodation" then "🏨"
    else PinIcon
  }

  /** Distinct types with their own icons get distinct icons. */
  lemma ActivityIconsDistinct(s: PlaceType, t: PlaceType)
    requires s != t && ActivityIcon(Label(s)) != PinIcon
    ensures ActivityIcon(Label(s)) != ActivityIcon(Label(t))
  {
  }
}
