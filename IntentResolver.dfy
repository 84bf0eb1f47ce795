/**
 * The local answer generator (`generateLocalResponse`): a first-match-wins
 * dispatch over an image request, the static crop dictionary, weather
 * keywords with city extraction, a greeting and a fallback. It is pure once
 * the image validation and the two weather requests are given.
 */
module IntentResolver {
  import opened Wrappers
  import opened Text
  import CropValidator
  import Weather

  // ----- The crop dictionary -----

  /** An entry of `CROP_DB`, keyed by its crop name. */
  datatype CropEntry = CropEntry(name: string, price: string, trend: string, pest: string, advice: string)

  /** `CROP_DB` in declaration order, the order `Object.entries` visits it. */
  const CropDb: seq<CropEntry> := [
    CropEntry("corn", "RM 1.50/kg", "decreasing", "Fall Armyworm", "Ensure soil moisture is consistent."),
    CropEntry("chili", "RM 12.50/kg", "increasing", "Aphids", "Check under leaves for pests."),
    CropEntry("paddy", "RM 2.40/kg", "stable", "Stem Borer", "Monitor water levels closely."),
    CropEntry("tomato", "RM 3.20/kg", "stable", "Late Blight", "Avoid overhead watering to prevent fungus."),
    CropEntry("spinach", "RM 4.00/kg", "increasing", "Leaf Miners", "Harvest early morning for best crispness.")
  ]

  /** The index of the first entry whose name the query contains, or `|db|` when there is none. */
  function FindCrop(q: string, db: seq<CropEntry>): (k: nat)
    ensures k <= |db|
    ensures forall j :: 0 <= j < k ==> !Contains(q, db[j].name)
    ensures k < |db| ==> Contains(q, db[k].name)
  {
    if db == [] then 0
    else if Contains(q, db[0].name) then 0
    else 1 + FindCrop(q, db[1..])
  }

  predicate AsksPrice(q: string)
  {
    Contains(q, "price") || Contains(q, "market") || Contains(q, "cost")
  }

  predicate AsksPest(q: string)
  {
    Contains(q, "pest") || Contains(q, "bug") || Contains(q, "disease")
  }

  predicate AsksWeather(q: string)
  {
    Contains(q, "weather") || Contains(q, "rain") || Contains(q, "temperature") || Contains(q, "forecast")
  }

  predicate Greets(q: string)
  {
    Contains(q, "hello") || Contains(q, "hi")
  }

  /** `s.charAt(0).toUpperCase() + s.slice(1)`. */
  function Capitalize(s: string): (r: string)
    ensures |r| == |s|
    ensures s != [] ==> r[0] == UpperChar(s[0]) && r[1..] == s[1..]
  {
    if s == [] then [] else [UpperChar(s[0])] + s[1..]
  }

  function PriceSentence(e: CropEntry): string
  {
    "Current market price for " + e.name + " is " + e.price + ". The trend is " + e.trend + "."
  }

  function PestSentence(e: CropEntry): string
  {
    "For " + e.name + ", watch out for " + e.pest + ". " + e.advice
  }

  function TradingSentence(e: CropEntry): string
  {
    Capitalize(e.name) + " is trading at " + e.price + ". " + e.advice
  }

  /** The answer for a query that names crop `e`: price words first, then pest words. */
  function CropAnswer(q: string, e: CropEntry): (r: string)
    // Price words: the crop, its price and its trend are quoted.
    ensures AsksPrice(q) ==> Contains(r, e.name) && Contains(r, e.price) && Contains(r, e.trend)
    // Pest words without price words: the crop and its pest are quoted, and the advice closes the answer.
    ensures !AsksPrice(q) && AsksPest(q) ==> Contains(r, e.name) && Contains(r, e.pest) && EndsIn(r, e.advice)
    // Neither: the capitalised crop name opens the answer, its price is quoted, and the advice closes it.
    ensures !AsksPrice(q) && !AsksPest(q) ==>
              OccursAt(r, Capitalize(e.name), 0) && Contains(r, e.price) && EndsIn(r, e.advice)
  {
    if AsksPrice(q) then PriceSentenceQuotes(e); PriceSentence(e)
    else if AsksPest(q) then PestSentenceQuotes(e); PestSentence(e)
    else TradingSentenceQuotes(e); TradingSentence(e)
  }

  /** A price answer quotes the entry's name, price and trend word. */
  lemma PriceSentenceQuotes(e: CropEntry)
    ensures Contains(PriceSentence(e), e.name)
    ensures Contains(PriceSentence(e), e.price) && Contains(PriceSentence(e), e.trend)
  {
    var s := PriceSentence(e);
    assert OccursAt(s, e.name, |"Current market price for "|);
    var i := |"Current market price for " + e.name + " is "|;
    assert OccursAt(s, e.price, i);
    var j := |"Current market price for " + e.name + " is " + e.price + ". The trend is "|;
    assert OccursAt(s, e.trend, j);
  }

  /** A pest answer quotes the entry's name and pest, and ends with its advice. */
  lemma PestSentenceQuotes(e: CropEntry)
    ensures Contains(PestSentence(e), e.name) && Contains(PestSentence(e), e.pest)
    ensures EndsIn(PestSentence(e), e.advice)
  {
    var s := PestSentence(e);
    assert OccursAt(s, e.name, |"For "|);
    assert OccursAt(s, e.pest, |"For " + e.name + ", watch out for "|);
    EndsWith("For " + e.name + ", watch out for " + e.pest + ". ", e.advice);
  }

  /** The generic answer opens with the capitalised name, quotes the price and ends with the advice. */
  lemma TradingSentenceQuotes(e: CropEntry)
    ensures OccursAt(TradingSentence(e), Capitalize(e.name), 0)
    ensures Contains(TradingSentence(e), e.price) && EndsIn(TradingSentence(e), e.advice)
  {
    var s := TradingSentence(e);
    assert OccursAt(s, Capitalize(e.name), 0);
    assert OccursAt(s, e.price, |Capitalize(e.name) + " is trading at "|);
    EndsWith(Capitalize(e.name) + " is trading at " + e.price + ". ", e.advice);
  }

  // ----- City extraction -----

  /**
   * One city regex, `<prefix>([a-z\s]+?)(?:\?|$)` with the `i` flag, given by
   * the literal alternatives of its prefix in the order the regex tries them.
   */
  type CityPattern = seq<string>

  /** The five patterns, in the order the loop tries them. */
  const CityPatterns: seq<CityPattern> := [
    [WeatherIn, "weather for ", "weather at "],
    // `(?:how|what)(?:'s| is) (?:the )?weather in `, in the order the regex tries its options
    ["how's the " + WeatherIn, "how's " + WeatherIn, "how is the " + WeatherIn, "how is " + WeatherIn,
     "what's the " + WeatherIn, "what's " + WeatherIn, "what is the " + WeatherIn, "what is " + WeatherIn],
    ["forecast in ", "forecast for "],
    ["temperature in "],
    ["rain in "]
  ]

  const WeatherIn: string := "weather in "

  /** The class `[a-z\s]` under the `i` flag. */
  predicate IsCityChar(c: char)
  {
    IsLower(c) || IsUpper(c) || IsSpace(c)
  }

  /** The end of the run of city characters that starts at `j`. */
  function RunEnd(s: string, j: nat): (e: nat)
    requires j <= |s|
    ensures j <= e <= |s|
    ensures forall m :: j <= m < e ==> IsCityChar(s[m])
    ensures e < |s| ==> !IsCityChar(s[e])
    decreases |s| - j
  {
    if j < |s| && IsCityChar(s[j]) then RunEnd(s, j + 1) else j
  }

  /** The group `([a-z\s]+?)(?:\?|$)` tried at index `j`: the text it captures, if it matches. */
  function CaptureAt(s: string, j: nat): Option<string>
    requires j <= |s|
  {
    var e := RunEnd(s, j);
    if e > j && (e == |s| || s[e] == '?') then Some(s[j..e]) else None
  }

  /** The lazy group may stop after `k` characters: all are city characters and `?` or the end follows. */
  predicate GroupEndsAt(s: string, j: nat, k: nat)
  {
    1 <= k && j + k <= |s| && (forall m :: j <= m < j + k ==> IsCityChar(s[m])) &&
    (j + k == |s| || s[j + k] == '?')
  }

  /** `CaptureAt` is the regex's lazy group: it succeeds when some stop exists, and takes the shortest. */
  lemma CaptureIsShortestGroup(s: string, j: nat)
    requires j <= |s|
    ensures CaptureAt(s, j).Some? <==> exists k :: GroupEndsAt(s, j, k)
    ensures CaptureAt(s, j).Some? ==>
              var k := |CaptureAt(s, j).value|;
              GroupEndsAt(s, j, k) && CaptureAt(s, j).value == s[j..j + k] &&
              forall k' :: 1 <= k' < k ==> !GroupEndsAt(s, j, k')
  {
    var e := RunEnd(s, j);
    forall k | GroupEndsAt(s, j, k)
      ensures j + k == e
    {
    }
    if CaptureAt(s, j).Some? {
      assert GroupEndsAt(s, j, e - j);
    }
  }

  /** The prefix alternative `alts[n]` stands at index `i` and the group matches after it. */
  predicate AlternativeMatches(s: string, alts: CityPattern, n: nat, i: nat)
    requires n < |alts| && i <= |s|
  {
    OccursAt(s, alts[n], i) && CaptureAt(s, i + |alts[n]|).Some?
  }

  /** The first prefix alternative from `alts[k]` on that matches at index `i`, or `|alts|` when none does. */
  function FirstAlternative(s: string, alts: CityPattern, i: nat, k: nat): (n: nat)
    requires i <= |s| && k <= |alts|
    ensures k <= n <= |alts|
    ensures n < |alts| ==> AlternativeMatches(s, alts, n, i)
    ensures forall m :: k <= m < n ==> !AlternativeMatches(s, alts, m, i)
    decreases |alts| - k
  {
    if k == |alts| then k
    else if AlternativeMatches(s, alts, k, i) then k
    else FirstAlternative(s, alts, i, k + 1)
  }

  /** The pattern tried at start index `i`: the capture after the first alternative that matches there. */
  function MatchAt(s: string, alts: CityPattern, i: nat): Option<string>
    requires i <= |s|
  {
    var n := FirstAlternative(s, alts, i, 0);
    if n < |alts| then CaptureAt(s, i + |alts[n]|) else None
  }

  /** The first start index from `i` on at which the pattern matches, or `|s| + 1` when there is none. */
  function LeftmostStart(s: string, alts: CityPattern, i: nat): (p: nat)
    requires i <= |s|
    ensures i <= p <= |s| + 1
    ensures p <= |s| ==> MatchAt(s, alts, p).Some?
    ensures forall p' :: i <= p' < p && p' <= |s| ==> MatchAt(s, alts, p').None?
    decreases |s| - i
  {
    if MatchAt(s, alts, i).Some? then i
    else if i == |s| then |s| + 1
    else LeftmostStart(s, alts, i + 1)
  }

  /** `q.match(pattern)` without the `g` flag, reduced to its capture group: the match at the leftmost start. */
  function Search(q: string, alts: CityPattern): (m: Option<string>)
    // No match exactly when the pattern matches at no start index.
    ensures m.None? <==> forall p :: 0 <= p <= |q| ==> MatchAt(q, alts, p).None?
  {
    var p := LeftmostStart(q, alts, 0);
    if p <= |q| then MatchAt(q, alts, p) else None
  }

  /** A match is the one at the leftmost start index where the pattern matches. */
  lemma SearchIsLeftmostMatch(q: string, alts: CityPattern, p: nat)
    requires p <= |q| && MatchAt(q, alts, p).Some?
    requires forall p' :: 0 <= p' < p ==> MatchAt(q, alts, p').None?
    ensures Search(q, alts) == MatchAt(q, alts, p)
  {
    assert LeftmostStart(q, alts, 0) == p;
  }

  /** The index of the first pattern that matches, or `|ps|` when none does. */
  function FirstMatching(q: string, ps: seq<CityPattern>): (k: nat)
    ensures k <= |ps|
    ensures forall j :: 0 <= j < k ==> Search(q, ps[j]).None?
    ensures k < |ps| ==> Search(q, ps[k]).Some?
  {
    if ps == [] then 0
    else if Search(q, ps[0]).Some? then 0
    else 1 + FirstMatching(q, ps[1..])
  }

  /** The city-name loop: the trimmed capture of the first pattern that matches; later ones are not tried. */
  function ExtractCity(q: string, ps: seq<CityPattern>): (city: Option<string>)
    ensures city.Some? <==> exists k :: 0 <= k < |ps| && Search(q, ps[k]).Some?
    ensures city.Some? ==> exists k :: 0 <= k < |ps| && Search(q, ps[k]).Some? &&
                                       city.value == Trim(Search(q, ps[k]).value) &&
                                       forall j :: 0 <= j < k ==> Search(q, ps[j]).None?
  {
    var k := FirstMatching(q, ps);
    if k < |ps| then Some(Trim(Search(q, ps[k]).value)) else None
  }

  // ----- The fixed answers -----

  const NoCropWarning: string :=
    "\U{26A0}\U{FE0F} I couldn't detect any crop in this image. Please make sure your photo includes " +
    "plants with visible green leaves or yellow/golden crops. Try capturing the image in good lighting " +
    "with the crop filling most of the frame."

  const Diagnosis: string :=
    "I've analyzed the photo. It looks like Early Blight on a Tomato leaf. You should remove the infected " +
    "leaves immediately and apply a copper-based fungicide."

  const Greeting: string :=
    "Hello farmer! I am ready to help. You can ask me about Corn prices, Tomato pests, or the weather."

  const Fallback: string :=
    "I'm not sure about that. Try asking: 'What is the price of Chili?' or 'How is the weather?'"

  /**
   * The weather sentence, or the error record's message. A report without the
   * error flag is read out for its own location, then its condition in lower
   * case, its temperature in degrees Celsius, its humidity in percent, and
   * closes with its outlook.
   */
  function WeatherAnswer(w: Weather.WeatherReport): (r: string)
    ensures w.error ==> r == w.rainInfo
    ensures !w.error ==>
              var head := "The forecast for " + w.location + " is ";
              var cond := ToLower(w.condition);
              var temp := IntToString(w.temp);
              var hum := IntToString(w.humidity);
              var atTemp := |head| + |cond| + |" with a temperature of "|;
              var atHum := atTemp + |temp| + |"\U{00B0}C. Humidity is "|;
              OccursAt(r, head, 0) &&
              OccursAt(r, cond, |head|) &&
              OccursAt(r, temp, atTemp) &&
              OccursAt(r, "\U{00B0}C", atTemp + |temp|) &&
              OccursAt(r, hum, atHum) &&
              OccursAt(r, "%", atHum + |hum|) &&
              EndsIn(r, w.rainInfo + ".")
  {
    if w.error then w.rainInfo
    else
      var head := "The forecast for " + w.location + " is ";
      SentencePieces(head, ToLower(w.condition), " with a temperature of ", IntToString(w.temp), "\U{00B0}C",
                     ". Humidity is ", IntToString(w.humidity), "%", ". " + w.rainInfo + ".");
      head + ToLower(w.condition) + " with a temperature of " + IntToString(w.temp) + "\U{00B0}C" +
      ". Humidity is " + IntToString(w.humidity) + "%" + (". " + w.rainInfo + ".")
  }

  /** The image branch turns down the photo only when a validation is there and it failed. */
  predicate RejectsImage(imageValidation: Option<CropValidator.Validation>)
  {
    imageValidation.Some? && !imageValidation.value.hasCropColors
  }

  /** `generateLocalResponse(query, hasImage, imageValidation)`, the weather requests given as oracles. */
  function GenerateLocalResponse(query: string, hasImage: bool, imageValidation: Option<CropValidator.Validation>,
                                 geocode: Weather.Geocoder, forecast: Weather.ForecastService): (r: string)
    ensures r != []
    ensures hasImage ==> (r == NoCropWarning <==> RejectsImage(imageValidation))
    ensures hasImage ==> (r == Diagnosis <==> !RejectsImage(imageValidation))
  {
    if hasImage then
      (if RejectsImage(imageValidation) then NoCropWarning else Diagnosis)
    else
      var q := ToLower(query);
      var k := FindCrop(q, CropDb);
      if k < |CropDb| then CropAnswer(q, CropDb[k])
      else if AsksWeather(q) then WeatherAnswer(Weather.FetchWeatherData(ExtractCity(q, CityPatterns), geocode, forecast))
      else if Greets(q) then Greeting
      else Fallback
  }

  // ----- Properties -----

  /** Every alternative of the second pattern ends with the first pattern's `"weather in "`. */
  lemma SecondPatternEndsInFirst(n: nat)
    requires n < |CityPatterns[1]|
    ensures |CityPatterns[1][n]| >= |WeatherIn|
    ensures CityPatterns[1][n][|CityPatterns[1][n]| - |WeatherIn|..] == CityPatterns[0][0]
  {
    var head :=
      if n == 0 then "how's the " else if n == 1 then "how's " else if n == 2 then "how is the " else if n == 3 then "how is "
      else if n == 4 then "what's the " else if n == 5 then "what's " else if n == 6 then "what is the " else "what is ";
    assert CityPatterns[1][n] == head + WeatherIn;
    EndsWith(head, WeatherIn);
  }

  /** Where each piece of a nine-piece sentence lies in it. */
  lemma SentencePieces(head: string, cond: string, mid1: string, temp: string, deg: string,
                       mid2: string, hum: string, pct: string, tail: string)
    ensures var s := head + cond + mid1 + temp + deg + mid2 + hum + pct + tail;
            var atTemp := |head| + |cond| + |mid1|;
            var atHum := atTemp + |temp| + |deg| + |mid2|;
            OccursAt(s, head, 0) && OccursAt(s, cond, |head|) && OccursAt(s, temp, atTemp) &&
            OccursAt(s, deg, atTemp + |temp|) && OccursAt(s, hum, atHum) &&
            OccursAt(s, pct, atHum + |hum|) && EndsIn(s, tail)
  {
  }

  lemma EndsWith(head: string, tail: string)
    ensures EndsIn(head + tail, tail)
  {
  }

  /**
   * A pattern each of whose alternatives ends with the first alternative of
   * another matches only where the other matches too, at a later start.
   */
  lemma SuffixPatternImplies(q: string, first: CityPattern, second: CityPattern)
    requires |first| > 0
    requires forall n :: 0 <= n < |second| ==> EndsIn(second[n], first[0])
    ensures Search(q, second).Some? ==> Search(q, first).Some?
  {
    if Search(q, second).Some? {
      var p, n := SearchWitness(q, second);
      SuffixAlternativeMatches(q, first, second[n], p);
    }
  }

  /** A successful search comes from an alternative that stands at a start index and is followed by a capture. */
  lemma SearchWitness(q: string, alts: CityPattern) returns (p: nat, n: nat)
    requires Search(q, alts).Some?
    ensures p <= |q| && n < |alts|
    ensures p + |alts[n]| <= |q| && OccursAt(q, alts[n], p) && CaptureAt(q, p + |alts[n]|).Some?
  {
    p := LeftmostStart(q, alts, 0);
    n := FirstAlternative(q, alts, p, 0);
  }

  /** A match at any start index makes the search succeed. */
  lemma SearchFindsMatch(q: string, alts: CityPattern, p: nat)
    requires p <= |q| && MatchAt(q, alts, p).Some?
    ensures Search(q, alts).Some?
  {
  }

  /** Where an alternative ending with `first[0]` matches, `first[0]` matches at its tail, so `first` matches. */
  lemma SuffixAlternativeMatches(q: string, first: CityPattern, alt: string, p: nat)
    requires |first| > 0 && EndsIn(alt, first[0])
    requires p + |alt| <= |q| && OccursAt(q, alt, p) && CaptureAt(q, p + |alt|).Some?
    ensures Search(q, first).Some?
  {
    var k := |alt| - |first[0]|;
    OccursAtSuffix(q, alt, p, k);
    assert AlternativeMatches(q, first, 0, p + k);
    SearchFindsMatch(q, first, p + k);
  }

  /**
   * The second pattern (`how's the weather in ...`) never decides the city:
   * whenever it matches, `weather in` followed by the same group matches too,
   * so the first pattern has already matched.
   */
  lemma SecondPatternNeverWins(q: string)
    ensures Search(q, CityPatterns[1]).Some? ==> Search(q, CityPatterns[0]).Some?
    ensures FirstMatching(q, CityPatterns) != 1
  {
    forall n | 0 <= n < |CityPatterns[1]|
      ensures EndsIn(CityPatterns[1][n], CityPatterns[0][0])
    {
      SecondPatternEndsInFirst(n);
    }
    SuffixPatternImplies(q, CityPatterns[0], CityPatterns[1]);
  }

  /** A pattern that only matches where the one before it matches can be left out of the loop. */
  lemma SkipShadowedPattern(q: string, ps: seq<CityPattern>)
    requires |ps| >= 2
    requires Search(q, ps[1]).Some? ==> Search(q, ps[0]).Some?
    ensures ExtractCity(q, ps) == ExtractCity(q, [ps[0]] + ps[2..])
  {
    var qs := [ps[0]] + ps[2..];
    assert qs[0] == ps[0];
    if Search(q, ps[0]).None? {
      assert qs[1..] == ps[1..][1..] == ps[2..];
      var k := FirstMatching(q, ps[2..]);
      assert FirstMatching(q, ps) == k + 2;
      assert FirstMatching(q, qs) == k + 1;
      if k < |ps[2..]| {
        assert qs[k + 1] == ps[k + 2];
      }
    }
  }

  /** So the city is the same with the second pattern left out. */
  lemma CityWithoutSecondPattern(q: string)
    ensures ExtractCity(q, CityPatterns) ==
            ExtractCity(q, [CityPatterns[0], CityPatterns[2], CityPatterns[3], CityPatterns[4]])
  {
    SecondPatternNeverWins(q);
    SkipShadowedPattern(q, CityPatterns);
    DropSecond(CityPatterns);
  }

  lemma DropSecond<T>(ps: seq<T>)
    requires |ps| == 5
    ensures [ps[0]] + ps[2..] == [ps[0], ps[2], ps[3], ps[4]]
  {
  }

  /**
   * For a text query, the first dictionary name (in declaration order) that the
   * lower-cased query contains decides the answer; price words take priority
   * over pest words, which take priority over the generic sentence.
   */
  lemma FirstNamedCropDecides(query: string, k: nat, geocode: Weather.Geocoder, forecast: Weather.ForecastService)
    requires k < |CropDb| && Contains(ToLower(query), CropDb[k].name)
    requires forall j :: 0 <= j < k ==> !Contains(ToLower(query), CropDb[j].name)
    ensures var r := GenerateLocalResponse(query, false, None, geocode, forecast);
            var q, e := ToLower(query), CropDb[k];
            (AsksPrice(q) ==> r == PriceSentence(e)) &&
            (!AsksPrice(q) && AsksPest(q) ==> r == PestSentence(e)) &&
            (!AsksPrice(q) && !AsksPest(q) ==> r == TradingSentence(e))
  {
    var q := ToLower(query);
    assert FindCrop(q, CropDb) == k;
  }

  /** After the dictionary, without a crop name: weather words, then a greeting, then the fallback. */
  lemma NoCropDispatch(query: string, geocode: Weather.Geocoder, forecast: Weather.ForecastService)
    requires forall j :: 0 <= j < |CropDb| ==> !Contains(ToLower(query), CropDb[j].name)
    ensures var r := GenerateLocalResponse(query, false, None, geocode, forecast);
            var q := ToLower(query);
            (AsksWeather(q) ==> r == WeatherAnswer(Weather.FetchWeatherData(ExtractCity(q, CityPatterns), geocode, forecast))) &&
            (!AsksWeather(q) && Greets(q) ==> r == Greeting) &&
            (!AsksWeather(q) && !Greets(q) ==> r == Fallback)
  {
    assert FindCrop(ToLower(query), CropDb) == |CropDb|;
  }

  /** A weather query naming a city the geocoder does not know gets the verbatim not-found message. */
  lemma UnknownCityAnswer(query: string, city: string, geocode: Weather.Geocoder, forecast: Weather.ForecastService)
    requires forall j :: 0 <= j < |CropDb| ==> !Contains(ToLower(query), CropDb[j].name)
    requires AsksWeather(ToLower(query))
    requires ExtractCity(ToLower(query), CityPatterns) == Some(city) && city != ""
    requires geocode(city).None?
    ensures GenerateLocalResponse(query, false, None, geocode, forecast) ==
            "Could not find weather data for \"" + city + "\". Please try another city name."
  {
    NoCropDispatch(query, geocode, forecast);
  }

  /** A weather query without a (non-empty) city is answered for the default location. */
  lemma DefaultLocationAnswer(query: string, geocode: Weather.Geocoder, forecast: Weather.ForecastService)
    requires forall j :: 0 <= j < |CropDb| ==> !Contains(ToLower(query), CropDb[j].name)
    requires AsksWeather(ToLower(query))
    requires !Weather.HasCity(ExtractCity(ToLower(query), CityPatterns))
    ensures OccursAt(GenerateLocalResponse(query, false, None, geocode, forecast),
                     "The forecast for " + Weather.DefaultLocation + " is ", 0)
  {
    NoCropDispatch(query, geocode, forecast);
  }

  // ----- Scenarios -----

  /** Any query that lower-cases to "what is the price of chili?" gets chili's price and trend. */
  lemma ChiliPriceAnswer(query: string, geocode: Weather.Geocoder, forecast: Weather.ForecastService)
    requires ToLower(query) == "what is the price of chili?"
    ensures GenerateLocalResponse(query, false, None, geocode, forecast) ==
            "Current market price for " + "chili" + " is " + "RM 12.50/kg" + ". The trend is " + "increasing" + "."
  {
    var q := ToLower(query);
    MissingCharNotContained(q, "corn", 3);
    assert OccursAt(q, "chili", 21);
    assert OccursAt(q, "price", 12);
    FirstNamedCropDecides(query, 1, geocode, forecast);
  }

  /** The voice fallback's question, "What is the price of Chili?". */
  lemma ChiliPriceScenario(geocode: Weather.Geocoder, forecast: Weather.ForecastService)
    ensures GenerateLocalResponse("What is the price of Chili?", false, None, geocode, forecast) ==
            "Current market price for " + "chili" + " is " + "RM 12.50/kg" + ". The trend is " + "increasing" + "."
  {
    assert ToLower("What is the price of Chili?") == "what is the price of chili?";
    ChiliPriceAnswer("What is the price of Chili?", geocode, forecast);
  }

  /** "weather in ipoh" names no crop and asks about the weather. */
  lemma IpohQueryIsWeather(q: string)
    requires q == "weather in ipoh"
    ensures forall j :: 0 <= j < |CropDb| ==> !Contains(q, CropDb[j].name)
    ensures AsksWeather(q)
  {
    MissingCharNotContained(q, "corn", 0);
    MissingCharNotContained(q, "chili", 0);
    MissingCharNotContained(q, "paddy", 2);
    MissingCharNotContained(q, "tomato", 2);
    MissingCharNotContained(q, "spinach", 5);
    assert OccursAt(q, "weather", 0);
  }

  /** When the first pattern matches, its trimmed capture is the city. */
  lemma FirstPatternDecides(q: string, ps: seq<CityPattern>)
    requires |ps| > 0 && Search(q, ps[0]).Some?
    ensures ExtractCity(q, ps) == Some(Trim(Search(q, ps[0]).value))
  {
  }

  /** "weather in ipoh" names the city "ipoh" through the first pattern. */
  lemma IpohQueryCity(q: string)
    requires q == "weather in ipoh"
    ensures ExtractCity(q, CityPatterns) == Some("ipoh")
  {
    var p0 := CityPatterns[0];
    assert OccursAt(q, p0[0], 0);
    assert RunEnd(q, 11) == 15;
    assert q[11..15] == "ipoh";
    assert CaptureAt(q, 11) == Some("ipoh");
    assert AlternativeMatches(q, p0, 0, 0);
    assert MatchAt(q, p0, 0) == Some("ipoh");
    assert LeftmostStart(q, p0, 0) == 0;
    assert Trim("ipoh") == "ipoh";
    FirstPatternDecides(q, CityPatterns);
  }

  /** A query that lower-cases to "weather in ipoh", with the geocoder not knowing the city. */
  lemma UnknownIpohAnswer(query: string, geocode: Weather.Geocoder, forecast: Weather.ForecastService)
    requires ToLower(query) == "weather in ipoh"
    requires geocode("ipoh").None?
    ensures GenerateLocalResponse(query, false, None, geocode, forecast) ==
            "Could not find weather data for \"" + "ipoh" + "\". Please try another city name."
  {
    IpohQueryIsWeather(ToLower(query));
    IpohQueryCity(ToLower(query));
    UnknownCityAnswer(query, "ipoh", geocode, forecast);
  }

  /** "weather in Ipoh": the not-found message names the city lower-cased. */
  lemma UnknownIpohScenario(geocode: Weather.Geocoder, forecast: Weather.ForecastService)
    requires geocode("ipoh").None?
    ensures GenerateLocalResponse("weather in Ipoh", false, None, geocode, forecast) ==
            "Could not find weather data for \"" + "ipoh" + "\". Please try another city name."
  {
    assert ToLower("weather in Ipoh") == "weather in ipoh";
    UnknownIpohAnswer("weather in Ipoh", geocode, forecast);
  }

  /** "hi" is looked for anywhere, so a query lower-casing to "is this right?" is taken for a greeting. */
  lemma GreetingInsideWordAnswer(query: string, geocode: Weather.Geocoder, forecast: Weather.ForecastService)
    requires ToLower(query) == "is this right?"
    ensures GenerateLocalResponse(query, false, None, geocode, forecast) == Greeting
  {
    var q := ToLower(query);
    MissingCharNotContained(q, "corn", 0);
    MissingCharNotContained(q, "chili", 0);
    MissingCharNotContained(q, "paddy", 0);
    MissingCharNotContained(q, "tomato", 2);
    MissingCharNotContained(q, "spinach", 1);
    MissingCharNotContained(q, "weather", 0);
    MissingCharNotContained(q, "rain", 1);
    MissingCharNotContained(q, "temperature", 2);
    MissingCharNotContained(q, "forecast", 0);
    IsThisRightGreets(q);
    NoCropDispatch(query, geocode, forecast);
  }

  /** "is this right?" greets through its word "this". */
  lemma IsThisRightGreets(q: string)
    requires q == "is this right?"
    ensures Greets(q)
  {
    assert q[3..7] == "this";
    assert OccursAt(q, "this", 3);
    WordWithHiGreets(q, "this", 1);
  }

  /** A query with a word containing "hi" ("this", "which", "think") is a greeting. */
  lemma WordWithHiGreets(q: string, word: string, a: nat)
    requires Contains(q, word) && a + 2 <= |word| && word[a..a + 2] == "hi"
    ensures Greets(q)
  {
    ContainsPiece(q, word, a, a + 2);
  }

  /** "Is this right?" gets the greeting. */
  lemma GreetingInsideWordScenario(geocode: Weather.Geocoder, forecast: Weather.ForecastService)
    ensures GenerateLocalResponse("Is this right?", false, None, geocode, forecast) == Greeting
  {
    assert ToLower("Is this right?") == "is this right?";
    GreetingInsideWordAnswer("Is this right?", geocode, forecast);
  }
}
