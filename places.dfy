/**
 * A recommended place and the keyword classification of its free-text
 * category into one of seven place types (`categorizePlace`).
 */
module Places {
  import opened Prelude
  import opened Text

  /** A map position as an opaque fixed-point value; the model only copies it. */
  datatype Coord = Coord(lat: int, lng: int)

  /** A rating or a match score as the recommender reports it; the model only copies it. */
  datatype Measure = Measure(raw: int)

  /**
   * A place returned by the recommender. An absent road address is the empty
   * string; the other optional fields are `Option`s.
   */
  datatype Place = Place(
    id: string,
    name: string,
    category: string,
    address: string,
    roadAddress: string,
    position: Coord,
    rating: Option<Measure>,
    reviewCount: Option<nat>,
    matchScore: Option<Measure>,
    phone: Option<string>)

  datatype PlaceType = Food | Attraction | Shopping | Culture | Accommodation | Transport | Nightlife

  /** The type tag the component stores and compares: the inverse of `LabelToType`. */
  function Label(t: PlaceType): (s: string)
    ensures LabelToType(s) == Some(t)
  {
    match t
    case Food => "food"
    case Attraction => "attraction"
    case Shopping => "shopping"
    case Culture => "culture"
    case Accommodation => "accommodation"
    case Transport => "transport"
    case Nightlife => "nightlife"
  }

  function LabelToType(s: string): Option<PlaceType>
  {
    if s == "food" then Some(Food)
    else if s == "attraction" then Some(Attraction)
    else if s == "shopping" then Some(Shopping)
    else if s == "culture" then Some(Culture)
    else if s == "accommodation" then Some(Accommodation)
    else if s == "transport" then Some(Transport)
    else if s == "nightlife" then Some(Nightlife)
    else None
  }

  /** Every string that names a type is that type's label. */
  lemma LabelToTypeSound(s: string, t: PlaceType)
    requires LabelToType(s) == Some(t)
    ensures Label(t) == s
  {
  }

  /** One keyword group of the classification and the type it selects. */
  datatype Rule = Rule(keywords: seq<string>, kind: PlaceType)

  /** The keyword groups in the order the classification tries them. */
  const Rules: seq<Rule> := [
    Rule(["음식점", "카페", "디저트"], Food),
    Rule(["관광", "명소", "공원"], Attraction),
    Rule(["쇼핑", "시장", "백화점"], Shopping),
    Rule(["박물관", "미술관", "문화"], Culture),
    Rule(["숙박", "호텔"], Accommodation),
    Rule(["교통", "역", "터미널"], Transport),
    Rule(["야경", "클럽", "바"], Nightlife)
  ]

  /** Some keyword of the group occurs in the category. */
  predicate Mentions(category: string, keywords: seq<string>)
  {
    exists i :: 0 <= i < |keywords| && Includes(category, keywords[i])
  }

  /** The category mentions the keyword group at position `k` of `Rules`. */
  predicate RuleMatches(category: string, k: nat)
  {
    k < |Rules| && Mentions(category, Rules[k].keywords)
  }

  /**
   * `categorizePlace`: tests the keyword groups one after another, so a
   * category that mentions some group gets the type of the first group of
   * `Rules` it mentions.
   */
  function CategorizePlace(category: string): (t: PlaceType)
    ensures forall k :: 0 <= k < |Rules| && RuleMatches(category, k) && (forall j :: 0 <= j < k ==> !RuleMatches(category, j))
              ==> t == Rules[k].kind
  {
    ChainIsRules(category);
    if Includes(category, "음식점") || Includes(category, "카페") || Includes(category, "디저트") then Food
    else if Includes(category, "관광") || Includes(category, "명소") || Includes(category, "공원") then Attraction
    else if Includes(category, "쇼핑") || Includes(category, "시장") || Includes(category, "백화점") then Shopping
    else if Includes(category, "박물관") || Includes(category, "미술관") || Includes(category, "문화") then Culture
    else if Includes(category, "숙박") || Includes(category, "호텔") then Accommodation
    else if Includes(category, "교통") || Includes(category, "역") || Includes(category, "터미널") then Transport
    else if Includes(category, "야경") || Includes(category, "클럽") || Includes(category, "바") then Nightlife
    else Attraction
  }

  /** The position of a type's keyword group in `Rules`. */
  function Rank(t: PlaceType): (k: nat)
    ensures k < |Rules| && Rules[k].kind == t
  {
    match t
    case Food => 0
    case Attraction => 1
    case Shopping => 2
    case Culture => 3
    case Accommodation => 4
    case Transport => 5
    case Nightlife => 6
  }

  /** The first group of `Rules` from position `from` on that the category mentions, or |Rules|. */
  function FirstMatchFrom(category: string, from: nat): (k: nat)
    requires from <= |Rules|
    ensures from <= k <= |Rules|
    ensures k < |Rules| ==> RuleMatches(category, k)
    ensures forall j :: from <= j < k ==> !RuleMatches(category, j)
    decreases |Rules| - from
  {
    if from == |Rules| then from
    else if Mentions(category, Rules[from].keywords) then from
    else FirstMatchFrom(category, from + 1)
  }

  lemma MentionsTwo(category: string, a: string, b: string)
    ensures Mentions(category, [a, b]) <==> Includes(category, a) || Includes(category, b)
  {
    var g := [a, b];
    if Includes(category, a) { assert Includes(category, g[0]); }
    if Includes(category, b) { assert Includes(category, g[1]); }
  }

  lemma MentionsThree(category: string, a: string, b: string, c: string)
    ensures Mentions(category, [a, b, c]) <==> Includes(category, a) || Includes(category, b) || Includes(category, c)
  {
    var g := [a, b, c];
    if Includes(category, a) { assert Includes(category, g[0]); }
    if Includes(category, b) { assert Includes(category, g[1]); }
    if Includes(category, c) { assert Includes(category, g[2]); }
  }

  /** Each test of the chain in `CategorizePlace` is a group of `Rules`, in order. */
  lemma ChainIsRules(category: string)
    ensures RuleMatches(category, 0) <==> Includes(category, "음식점") || Includes(category, "카페") || Includes(category, "디저트")
    ensures RuleMatches(category, 1) <==> Includes(category, "관광") || Includes(category, "명소") || Includes(category, "공원")
    ensures RuleMatches(category, 2) <==> Includes(category, "쇼핑") || Includes(category, "시장") || Includes(category, "백화점")
    ensures RuleMatches(category, 3) <==> Includes(category, "박물관") || Includes(category, "미술관") || Includes(category, "문화")
    ensures RuleMatches(category, 4) <==> Includes(category, "숙박") || Includes(category, "호텔")
    ensures RuleMatches(category, 5) <==> Includes(category, "교통") || Includes(category, "역") || Includes(category, "터미널")
    ensures RuleMatches(category, 6) <==> Includes(category, "야경") || Includes(category, "클럽") || Includes(category, "바")
  {
    MentionsThree(category, "음식점", "카페", "디저트");
    MentionsThree(category, "관광", "명소", "공원");
    MentionsThree(category, "쇼핑", "시장", "백화점");
    MentionsThree(category, "박물관", "미술관", "문화");
    MentionsTwo(category, "숙박", "호텔");
    MentionsThree(category, "교통", "역", "터미널");
    MentionsThree(category, "야경", "클럽", "바");
  }

  /** A category that mentions no keyword group is an attraction. */
  lemma CategorizeNoMatch(category: string)
    requires forall j :: 0 <= j < |Rules| ==> !RuleMatches(category, j)
    ensures CategorizePlace(category) == Attraction
  {
    ChainIsRules(category);
  }

  /**
   * Conversely, the type a category gets is that of the first group it
   * mentions, or attraction when it mentions none.
   */
  lemma CategorizeOrigin(category: string)
    ensures var t := CategorizePlace(category);
      (exists k: nat :: RuleMatches(category, k) && (forall j: nat :: j < k ==> !RuleMatches(category, j)) && Rules[k].kind == t)
      || ((forall j :: 0 <= j < |Rules| ==> !RuleMatches(category, j)) && t == Attraction)
  {
    var k := FirstMatchFrom(category, 0);
    if k >= |Rules| {
      CategorizeNoMatch(category);
    }
  }

  /**
   * Precedence: a group the category mentions can only be beaten by an
   * earlier group, so the type's group is at or before every mentioned one.
   */
  lemma CategorizePrecedence(category: string, j: nat)
    requires RuleMatches(category, j)
    ensures Rank(CategorizePlace(category)) <= j
  {
    var k := FirstMatchFrom(category, 0);
    assert k <= j;
    assert Rank(Rules[k].kind) == k by {
      assert forall a, b :: 0 <= a < b < |Rules| ==> Rules[a].kind != Rules[b].kind;
    }
  }

  /** "카페 관광" mentions both a food and a sightseeing keyword and is food. */
  lemma CafeSightseeingIsFood()
    ensures CategorizePlace("카페 관광") == Food
  {
    IncludesAt("카페 관광", "카페", 0);
  }
}
