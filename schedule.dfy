/**
 * The module-level helpers of the result step that shape one day: the
 * day-part arrangement of places (`sortPlacesByTimeAndType`) and the clock
 * time of each position in a day (`generateTimeSlot`).
 */
module Schedule {
  import opened Prelude
  import opened Text
  import opened Places

  /** `places.filter(p => types.includes(categorizePlace(p.category)))`. */
  function OfTypes(places: seq<Place>, types: set<PlaceType>): seq<Place>
  {
    if places == [] then []
    else
      var last := places[|places| - 1];
      OfTypes(places[..|places| - 1], types) + (if CategorizePlace(last.category) in types then [last] else [])
  }

  /** `places.filter(p => !used.has(p.id))`. */
  function WithoutIds(places: seq<Place>, used: set<string>): seq<Place>
  {
    if places == [] then []
    else
      var last := places[|places| - 1];
      WithoutIds(places[..|places| - 1], used) + (if last.id !in used then [last] else [])
  }

  /** `new Set(places.map(p => p.id))`. */
  function IdsOf(places: seq<Place>): (ids: set<string>)
    ensures forall p :: p in places ==> p.id in ids
  {
    if places == [] then {}
    else IdsOf(places[..|places| - 1]) + {places[|places| - 1].id}
  }

  const MorningTypes: set<PlaceType> := {Attraction, Culture}
  const LunchTypes: set<PlaceType> := {Food}
  const AfternoonTypes: set<PlaceType> := {Shopping, Attraction, Culture}
  const DinnerTypes: set<PlaceType> := {Food}
  const EveningTypes: set<PlaceType> := {Attraction, Nightlife}

  /** The most places a day holds. */
  const DayCapacity: nat := 8

  /** The places each day part takes before the day is topped up. */
  datatype DayParts = DayParts(
    morning: seq<Place>,
    lunch: seq<Place>,
    afternoon: seq<Place>,
    dinner: seq<Place>,
    evening: seq<Place>)

  /**
   * Two morning sights, the first eatery for lunch, three afternoon places,
   * the second eatery for dinner and one evening place.
   */
  function Buckets(places: seq<Place>): DayParts
  {
    DayParts(
      Slice(OfTypes(places, MorningTypes), 0, 2),
      Slice(OfTypes(places, LunchTypes), 0, 1),
      Slice(OfTypes(places, AfternoonTypes), 0, 3),
      Slice(OfTypes(places, DinnerTypes), 1, 2),
      Slice(OfTypes(places, EveningTypes), 0, 1))
  }

  /** The bucket picks in day order. */
  function Picks(b: DayParts): seq<Place>
  {
    b.morning + b.lunch + b.afternoon + b.dinner + b.evening
  }

  /** The day `sortPlacesByTimeAndType` arranges from `places`. */
  function ArrangeDay(places: seq<Place>): seq<Place>
  {
    var picks := Picks(Buckets(places));
    var remaining := WithoutIds(places, IdsOf(picks));
    TopUp(picks, remaining, DayCapacity)
  }

  /**
   * `sortPlacesByTimeAndType`: pushes the bucket picks, collects their ids,
   * then pushes the first places whose id is unused until the day is full.
   */
  method SortPlacesByTimeAndType(places: seq<Place>) returns (result: seq<Place>)
    ensures result == ArrangeDay(places)
  {
    result := PushPicks(places);
    ghost var picks := result;
    var used := CollectIds(result);
    var remaining := FilterUnused(places, used);
    result := result + Slice(remaining, 0, DayCapacity - Min(|result|, DayCapacity));
    result := Slice(result, 0, DayCapacity);
    assert result == TopUp(picks, WithoutIds(places, IdsOf(picks)), DayCapacity);
  }

  /** The five day-part filters and the pushes of their slices, in order. */
  method PushPicks(places: seq<Place>) returns (result: seq<Place>)
    ensures result == Picks(Buckets(places))
  {
    var morning := OfTypes(places, MorningTypes);
    var lunch := OfTypes(places, LunchTypes);
    var afternoon := OfTypes(places, AfternoonTypes);
    var dinner := OfTypes(places, DinnerTypes);
    var evening := OfTypes(places, EveningTypes);

    result := [];
    result := result + Slice(morning, 0, 2);
    result := result + Slice(lunch, 0, 1);
    result := result + Slice(afternoon, 0, 3);
    result := result + Slice(dinner, 1, 2);
    result := result + Slice(evening, 0, 1);
  }

  /** `new Set(result.map(p => p.id))`, built one id at a time. */
  method CollectIds(places: seq<Place>) returns (used: set<string>)
    ensures used == IdsOf(places)
  {
    used := {};
    for i := 0 to |places|
      invariant used == IdsOf(places[..i])
    {
      assert places[..i + 1][..i] == places[..i];
      used := used + {places[i].id};
    }
    assert places[..|places|] == places;
  }

  /** `places.filter(p => !used.has(p.id))`, pushing the kept places in order. */
  method FilterUnused(places: seq<Place>, used: set<string>) returns (remaining: seq<Place>)
    ensures remaining == WithoutIds(places, used)
  {
    remaining := [];
    for i := 0 to |places|
      invariant remaining == WithoutIds(places[..i], used)
    {
      assert places[..i + 1][..i] == places[..i];
      if places[i].id !in used {
        remaining := remaining + [places[i]];
      }
    }
    assert places[..|places|] == places;
  }

  lemma {:induction false} OfTypesMembers(places: seq<Place>, types: set<PlaceType>)
    ensures forall p :: p in OfTypes(places, types) ==> p in places && CategorizePlace(p.category) in types
    decreases |places|
  {
    if places != [] {
      OfTypesMembers(places[..|places| - 1], types);
    }
  }

  lemma {:induction false} WithoutIdsMembers(places: seq<Place>, used: set<string>)
    ensures forall p :: p in WithoutIds(places, used) ==> p in places && p.id !in used
    decreases |places|
  {
    if places != [] {
      WithoutIdsMembers(places[..|places| - 1], used);
    }
  }

  /** None of `places` qualifies exactly when the filter is empty. */
  lemma {:induction false} OfTypesEmpty(places: seq<Place>, types: set<PlaceType>)
    ensures OfTypes(places, types) == [] <==> forall i :: 0 <= i < |places| ==> CategorizePlace(places[i].category) !in types
    decreases |places|
  {
    if places != [] {
      var init := places[..|places| - 1];
      OfTypesEmpty(init, types);
      assert forall i :: 0 <= i < |init| ==> init[i] == places[i];
    }
  }

  /**
   * The filter keeps the order of `places`: its first element is the first
   * place of a wanted type.
   */
  lemma {:induction false} OfTypesHead(places: seq<Place>, types: set<PlaceType>, i: nat)
    requires i < |places| && CategorizePlace(places[i].category) in types
    requires forall j :: 0 <= j < i ==> CategorizePlace(places[j].category) !in types
    ensures |OfTypes(places, types)| > 0 && OfTypes(places, types)[0] == places[i]
    decreases |places|
  {
    var init := places[..|places| - 1];
    if i < |init| {
      OfTypesHead(init, types, i);
    } else {
      OfTypesEmpty(init, types);
    }
  }

  /** A sequence without repeated elements. */
  predicate Distinct(s: seq<Place>)
  {
    forall i, j :: 0 <= i < j < |s| ==> s[i] != s[j]
  }

  lemma {:induction false} OfTypesDistinct(places: seq<Place>, types: set<PlaceType>)
    requires Distinct(places)
    ensures Distinct(OfTypes(places, types))
    decreases |places|
  {
    if places != [] {
      var init := places[..|places| - 1];
      var last := places[|places| - 1];
      assert Distinct(init);
      OfTypesDistinct(init, types);
      OfTypesMembers(init, types);
      assert last !in init;
    }
  }

  /** At most 2 + 1 + 3 + 1 + 1 places come from the buckets. */
  lemma PicksBounded(places: seq<Place>)
    ensures |Picks(Buckets(places))| <= DayCapacity
  {
  }

  /** Every bucket pick is a place of the input. */
  lemma PicksMembers(places: seq<Place>)
    ensures forall p :: p in Picks(Buckets(places)) ==> p in places
  {
    OfTypesMembers(places, MorningTypes);
    OfTypesMembers(places, LunchTypes);
    OfTypesMembers(places, AfternoonTypes);
    OfTypesMembers(places, DinnerTypes);
    OfTypesMembers(places, EveningTypes);
    SliceMembers(OfTypes(places, MorningTypes), 0, 2);
    SliceMembers(OfTypes(places, LunchTypes), 0, 1);
    SliceMembers(OfTypes(places, AfternoonTypes), 0, 3);
    SliceMembers(OfTypes(places, DinnerTypes), 1, 2);
    SliceMembers(OfTypes(places, EveningTypes), 0, 1);
  }

  /** An arranged day holds at most eight places, each a place of the input. */
  lemma ArrangeDayBounded(places: seq<Place>)
    ensures |ArrangeDay(places)| <= DayCapacity
    ensures forall p :: p in ArrangeDay(places) ==> p in places
  {
    var picks := Picks(Buckets(places));
    var remaining := WithoutIds(places, IdsOf(picks));
    var top := Slice(remaining, 0, DayCapacity - Min(|picks|, DayCapacity));
    PicksMembers(places);
    WithoutIdsMembers(places, IdsOf(picks));
    SliceMembers(remaining, 0, DayCapacity - Min(|picks|, DayCapacity));
    SliceMembers(picks + top, 0, DayCapacity);
  }

  /**
   * Lunch is the first eatery of the input and dinner the second one; with
   * fewer than two eateries there is no dinner, and when no place repeats,
   * lunch and dinner are different places.
   */
  lemma LunchAndDinner(places: seq<Place>)
    ensures var food := OfTypes(places, {Food});
      var b := Buckets(places);
      && |b.lunch| == Min(|food|, 1)
      && (|food| >= 1 ==> b.lunch == [food[0]])
      && (|food| < 2 <==> b.dinner == [])
      && (|food| >= 2 ==> b.dinner == [food[1]])
      && (Distinct(places) && |food| >= 2 ==> b.lunch[0] != b.dinner[0])
  {
    var food := OfTypes(places, {Food});
    if Distinct(places) {
      OfTypesDistinct(places, {Food});
    }
  }

  /** The lunch pick is the first place of the input that is an eatery. */
  lemma LunchIsFirstEatery(places: seq<Place>, i: nat)
    requires i < |places| && CategorizePlace(places[i].category) == Food
    requires forall j :: 0 <= j < i ==> CategorizePlace(places[j].category) != Food
    ensures Buckets(places).lunch == [places[i]]
  {
    OfTypesHead(places, {Food}, i);
  }

  /**
   * The fill step: the bucket picks stay at the front, and what follows them
   * is the first unused places of the input, in input order, just enough to
   * reach eight or all there are.
   */
  lemma ArrangeDayFill(places: seq<Place>)
    ensures var picks := Picks(Buckets(places));
      var r := ArrangeDay(places);
      var unused := WithoutIds(places, IdsOf(picks));
      && |picks| <= |r|
      && r[..|picks|] == picks
      && |r| == Min(DayCapacity, |picks| + |unused|)
      && r[|picks|..] == unused[..|r| - |picks|]
      && (forall p :: p in r[|picks|..] ==> p.id !in IdsOf(picks) && p in places)
  {
    PicksBounded(places);
    TopUpUnused(Picks(Buckets(places)), places);
  }

  /** The fill step for any picks that fit in a day. */
  lemma TopUpUnused(picks: seq<Place>, places: seq<Place>)
    requires |picks| <= DayCapacity
    ensures var unused := WithoutIds(places, IdsOf(picks));
      var r := TopUp(picks, unused, DayCapacity);
      && |picks| <= |r|
      && r[..|picks|] == picks
      && |r| == Min(DayCapacity, |picks| + |unused|)
      && r[|picks|..] == unused[..|r| - |picks|]
      && (forall p :: p in r[|picks|..] ==> p.id !in IdsOf(picks) && p in places)
  {
    var unused := WithoutIds(places, IdsOf(picks));
    var r := TopUp(picks, unused, DayCapacity);
    assert r[..|picks|] == picks && |r| == Min(DayCapacity, |picks| + |unused|)
      && r[|picks|..] == unused[..|r| - |picks|] by {
      SliceTopUp(picks, unused, DayCapacity);
    }
    assert forall p :: p in r[|picks|..] ==> p.id !in IdsOf(picks) && p in places by {
      WithoutIdsMembers(places, IdsOf(picks));
      assert forall p :: p in unused[..|r| - |picks|] ==> p in unused;
    }
  }

  /**
   * The buckets overlap: a lone sight fills the morning, the afternoon and
   * the evening, so an arranged day may repeat a place.
   */
  lemma LoneSightRepeats(a: Place)
    requires CategorizePlace(a.category) == Attraction
    ensures ArrangeDay([a]) == [a, a, a]
  {
    assert OfTypes([a], MorningTypes) == [a] by { assert [a][..0] == []; }
    assert OfTypes([a], AfternoonTypes) == [a] by { assert [a][..0] == []; }
    assert OfTypes([a], EveningTypes) == [a] by { assert [a][..0] == []; }
    assert OfTypes([a], LunchTypes) == [] by { assert [a][..0] == []; }
    assert Picks(Buckets([a])) == [a, a, a];
    assert WithoutIds([a], IdsOf([a, a, a])) == [] by {
      assert [a][..0] == [];
      assert a.id in IdsOf([a, a, a]);
    }
  }

  /** The fixed clock times of the first eight positions of a day. */
  const TimeSlots: seq<string> := ["09:00", "10:30", "12:00", "14:00", "15:30", "17:00", "18:30", "20:00"]

  /**
   * `generateTimeSlot`: the table time for the first eight positions, and the
   * hour `9 + index` on the hour for every other index. Every non-negative
   * position reads as a clock time; an index below -9 gives a negative hour,
   * which reads as none.
   */
  function GenerateTimeSlot(index: int): (r: string)
    ensures ClockMinutes(r) == SlotMinutes(index)
    ensures index >= 0 ==> ClockMinutes(r).Some?
  {
    if 0 <= index < |TimeSlots| then
      TableTimes(index);
      TimeSlots[index]
    else if index >= -9 then
      HourClock(9 + index);
      IntToString(9 + index) + ":00"
    else
      NegativeHourClock(9 + index);
      IntToString(9 + index) + ":00"
  }

  /** Minutes after midnight of an "H:MM" or "HH:MM" clock string, if it is one. */
  function ClockMinutes(s: string): Option<nat>
  {
    if |s| >= 4 && s[|s| - 3] == ':' && AllDigits(s[..|s| - 3]) && AllDigits(s[|s| - 2..])
    then Some(ParseNat(s[..|s| - 3]) * 60 + ParseNat(s[|s| - 2..]))
    else None
  }

  /**
   * The time a position is meant to show, in minutes after midnight: the
   * table's for the first eight positions, the hour `9 + index` on the hour
   * otherwise, and none when that hour is negative.
   */
  function SlotMinutes(index: int): Option<nat>
  {
    if 0 <= index < |TimeSlots| then Some(TableMinutes[index])
    else if index >= -9 then Some((9 + index) * 60)
    else None
  }

  /** The eight table times, read back as minutes after midnight. */
  const TableMinutes: seq<nat> := [540, 630, 720, 840, 930, 1020, 1110, 1200]

  lemma TwoDigits(s: string)
    requires |s| == 2 && AllDigits(s)
    ensures ParseNat(s) == DigitValue(s[0]) * 10 + DigitValue(s[1])
  {
    assert s[..1][..0] == [];
    assert ParseNat(s[..1]) == DigitValue(s[0]);
    assert s[..|s| - 1] == s[..1];
  }

  /** A five-character "HH:MM" string reads as HH * 60 + MM. */
  lemma ClockOfFive(s: string)
    requires |s| == 5 && s[2] == ':' && AllDigits(s[..2]) && AllDigits(s[3..])
    ensures ClockMinutes(s) == Some((DigitValue(s[0]) * 10 + DigitValue(s[1])) * 60 + DigitValue(s[3]) * 10 + DigitValue(s[4]))
  {
    TwoDigits(s[..2]);
    TwoDigits(s[3..]);
  }

  /** The eight table times read as `TableMinutes`. */
  lemma TableTimes(index: nat)
    requires index < |TimeSlots|
    ensures ClockMinutes(TimeSlots[index]) == Some(TableMinutes[index])
  {
    var s := TimeSlots[index];
    assert |s| == 5 && s[2] == ':' && AllDigits(s[..2]) && AllDigits(s[3..]);
    ClockOfFive(s);
  }

  /** The hour `h` on the hour reads as `h * 60` minutes. */
  lemma HourClock(h: nat)
    ensures ClockMinutes(IntToString(h) + ":00") == Some(h * 60)
  {
    var s := NatToString(h) + ":00";
    NatToStringRoundTrip(h);
    assert s[..|s| - 3] == NatToString(h);
    assert s[|s| - 2..] == "00";
    TwoDigits("00");
  }

  /** A negative hour is not a clock time. */
  lemma NegativeHourClock(h: int)
    requires h < 0
    ensures ClockMinutes(IntToString(h) + ":00") == None
  {
    var s := "-" + NatToString(-h) + ":00";
    assert s[..|s| - 3][0] == '-';
  }

  /**
   * Past fifteen positions the fallback runs beyond the end of the day:
   * position 15 reads 24:00, and every later position is later still.
   */
  lemma LateSlotsPastMidnight(index: int)
    requires index >= 15
    ensures ClockMinutes(GenerateTimeSlot(index)).Some?
    ensures ClockMinutes(GenerateTimeSlot(index)).value >= 24 * 60
    ensures index == 15 ==> GenerateTimeSlot(index) == "24:00"
  {
    if index == 15 {
      assert NatToString(24) == "24";
    }
  }

  /** Within the table the times go forward. */
  lemma TableTimesAscend(i: nat, j: nat)
    requires i < j < |TimeSlots|
    ensures ClockMinutes(GenerateTimeSlot(i)).Some? && ClockMinutes(GenerateTimeSlot(j)).Some?
    ensures ClockMinutes(GenerateTimeSlot(i)).value < ClockMinutes(GenerateTimeSlot(j)).value
  {
  }

  /** Past the table the times go forward an hour per position. */
  lemma FallbackTimesAscend(i: int, j: int)
    requires |TimeSlots| <= i < j
    ensures ClockMinutes(GenerateTimeSlot(i)).Some? && ClockMinutes(GenerateTimeSlot(j)).Some?
    ensures ClockMinutes(GenerateTimeSlot(j)).value - ClockMinutes(GenerateTimeSlot(i)).value == (j - i) * 60
  {
  }

  /**
   * Across the end of the table the times go back: position 8 reads 17:00,
   * the time of position 5, and earlier than position 7's 20:00.
   */
  lemma FallbackRepeatsTable()
    ensures GenerateTimeSlot(8) == "17:00" == GenerateTimeSlot(5)
    ensures ClockMinutes(GenerateTimeSlot(8)).Some? && ClockMinutes(GenerateTimeSlot(7)).Some?
    ensures ClockMinutes(GenerateTimeSlot(8)).value < ClockMinutes(GenerateTimeSlot(7)).value
  {
    assert NatToString(17) == "17";
  }
}
