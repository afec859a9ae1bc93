/** The weather skill's replies: the sentence templates of `getWeather`,
    the two keyword handlers and the fixed apology. City extraction and the
    weather request are external; their outcomes are inputs here. */
module Weather {
  import opened Text

  /** A city as the extraction service returns it; only its name is read. */
  datatype City = City(name: string)

  /** What `language.ExtractCities` gave for the message: a hard error, or
      zero or more candidate cities in the service's order. */
  datatype Extraction = ExtractionFailed | Extracted(cities: seq<City>)

  /** The decoded weather payload. `temp` is the temperature as `%.0f`
      prints it and `value` as `%v` prints it; `Humidity` is never read. */
  datatype Reading = Reading(descriptions: seq<string>, temp: string, value: string)

  /** The outcome of the HTTP request, the JSON decode and the body close:
      any failure of the three, or the decoded payload. */
  datatype Fetch = FetchFailed | Fetched(reading: Reading)

  /** The three sentence templates of `getWeather`. */
  datatype Template = RightNow | With | And

  /** The words of the fixed sentence `e` returns for every error. */
  const ApologyWords: seq<string> :=
    ["Something", "went", "wrong,", "but", "I'll", "try", "to", "get", "that", "fixed", "right", "away."]

  /** The sentence itself: its words joined by single blanks. */
  const Apology: string := JoinWords(ApologyWords)

  /** What `%.0f` can print: digits with an optional sign, or NaN and the
      infinities. */
  predicate FormattedNumber(t: string)
  {
    t != [] && forall i :: 0 <= i < |t| ==> t[i] in "+-0123456789NaInf"
  }

  /** The template `getWeather` picks for a payload's descriptions. */
  function TemplateFor(descriptions: seq<string>): Template
  {
    if descriptions == [] then RightNow
    else if |Fields(descriptions[0])| > 1 then With
    else And
  }

  /** The sentence for `city` and a decoded payload, with the arguments in
      the order the templates name them. */
  function Render(city: City, r: Reading): string
  {
    match TemplateFor(r.descriptions)
    case RightNow => RightNowSentence(r.temp, city.name)
    case With => DescribedSentence(r.temp, "with", r.descriptions[0], city.name)
    case And => DescribedSentence(r.temp, "and", r.descriptions[0], city.name)
  }

  /** "It's %.0f in %s right now." with its operands in order. */
  function RightNowSentence(temp: string, name: string): string
  {
    "It's " + temp + " in " + name + " right now."
  }

  /** "It's %.0f with %s in %s." and "It's %.0f and %s in %s.", which differ
      only in the word joining temperature and description. */
  function DescribedSentence(temp: string, joiner: string, description: string, name: string): string
  {
    "It's " + temp + " " + joiner + " " + description + " in " + name + "."
  }

  /** What Go's `fmt` prints for an operand of the wrong type for a verb. */
  function BadVerb(verb: char, typeName: string, operand: string): string
  {
    "%!" + [verb] + "(" + typeName + "=" + operand + ")"
  }

  /** What `%v` can print for a float64: digits, a point, an exponent, a
      sign, or NaN and the infinities. */
  predicate FormattedValue(v: string)
  {
    v != [] && forall i :: 0 <= i < |v| ==> v[i] in "+-.0123456789eNaInf"
  }

  /** A string operand printed under a precision keeps at most that many
      runes. */
  function Truncated(s: string, prec: nat): (t: string)
    ensures |t| <= prec && t <= s
    ensures |s| <= prec ==> t == s
  {
    if |s| <= prec then s else s[..prec]
  }

  /** `getWeather`'s sentence as written: in the no-description template
      the city name goes to `%.0f` and the temperature to `%s`. The marker
      for the first prints its operand under the `.0` precision already
      parsed for the verb, so no rune of the city name remains. */
  function RenderAsWritten(city: City, r: Reading): (s: string)
    ensures r.descriptions != [] ==> s == Render(city, r)
    ensures r.descriptions == [] ==> |s| > 5 && s[5] == '%'
  {
    if r.descriptions == [] then
      var marker := BadVerb('f', "string", Truncated(city.name, 0));
      RightNowSentenceOperand(marker, city.name);
      RightNowSentence(marker, BadVerb('s', "float64", r.value))
    else Render(city, r)
  }

  /** `getWeather`: the apology for a failed fetch, otherwise the intended
      sentence. For a reading without descriptions the program prints
      `RenderAsWritten` instead. */
  function GetWeather(city: City, fetch: Fetch): (s: string)
    ensures s == Apology <==> fetch.FetchFailed?
    ensures s != ""
    ensures fetch.Fetched? ==> |s| >= 5 && s[..5] == "It's "
  {
    ApologyStart();
    match fetch
    case FetchFailed => Apology
    case Fetched(r) =>
      RenderStart(city, r);
      Render(city, r)
  }

  /** `kwGetTemp`: the weather sentence for the first extracted city. */
  function KwGetTemp(x: Extraction, fetch: Fetch): (s: string)
    ensures s == "" <==> x.Extracted? && x.cities == []
    ensures x.ExtractionFailed? ==> s == Apology
  {
    match x
    case ExtractionFailed => Apology
    case Extracted(cities) => if cities == [] then "" else GetWeather(cities[0], fetch)
  }

  function RainingSentence(city: City): string
  {
    "It's raining in " + city.name + " right now."
  }

  /** The negative reply; the source writes it without a closing period. */
  function NotRainingSentence(city: City): string
  {
    "It's not raining in " + city.name + " right now"
  }

  /** The answer for `city` given the weather sentence: affirmative when
      "rain" is one of the sentence's fields. */
  function RainAnswer(city: City, sentence: string): string
  {
    if "rain" in Fields(sentence) then RainingSentence(city) else NotRainingSentence(city)
  }

  /** What `kwGetRaining` answers: whether "rain" is a field of the weather
      sentence for the first extracted city. */
  function RainingReply(x: Extraction, fetch: Fetch): (s: string)
    ensures s == "" <==> x.Extracted? && x.cities == []
    ensures x.ExtractionFailed? ==> s == Apology
  {
    ApologyStart();
    match x
    case ExtractionFailed => Apology
    case Extracted(cities) =>
      if cities == [] then "" else RainAnswer(cities[0], GetWeather(cities[0], fetch))
  }

  /** The loop of `kwGetRaining`: look through the fields for one equal to
      "rain", stopping at the first. */
  method HasRainField(words: seq<string>) returns (found: bool)
    ensures found <==> "rain" in words
  {
    var i := 0;
    while i < |words|
      invariant 0 <= i <= |words|
      invariant "rain" !in words[..i]
    {
      if words[i] == "rain" {
        return true;
      }
      i := i + 1;
    }
    assert words[..i] == words;
    return false;
  }

  /** `kwGetRaining`: render the weather sentence for the first city and
      answer from its fields. */
  method KwGetRaining(x: Extraction, fetch: Fetch) returns (resp: string)
    ensures resp == RainingReply(x, fetch)
  {
    if x.ExtractionFailed? {
      return Apology;
    }
    if |x.cities| == 0 {
      return "";
    }
    var city := x.cities[0];
    resp := GetWeather(city, fetch);
    var raining := HasRainField(Fields(resp));
    if raining {
      return RainingSentence(city);
    }
    return NotRainingSentence(city);
  }

  /** The template is a total three-way split: no description; a first
      description with a space between two non-space runes; otherwise,
      including a blank first description. */
  lemma TemplateChoice(ds: seq<string>)
    ensures TemplateFor(ds) == RightNow <==> ds == []
    ensures TemplateFor(ds) == With <==>
      ds != [] && exists i, k, j :: Gap(ds[0], i, k, j)
    ensures TemplateFor(ds) == And <==>
      ds != [] && !exists i, k, j :: Gap(ds[0], i, k, j)
    ensures ds != [] && AllSpace(ds[0]) ==> TemplateFor(ds) == And
    ensures ds != [] && IsWord(ds[0]) ==> TemplateFor(ds) == And
  {
    if ds != [] {
      ManyFieldsIff(ds[0]);
      FieldsEmptyIff(ds[0]);
      if IsWord(ds[0]) { FieldsOfWord(ds[0]); }
    }
  }

  /** Only the first description matters. */
  lemma RenderUsesFirstDescription(city: City, r: Reading, rest: seq<string>)
    requires r.descriptions != []
    ensures Render(city, r) == Render(city, r.(descriptions := [r.descriptions[0]] + rest))
  {
    var r' := r.(descriptions := [r.descriptions[0]] + rest);
    assert r'.descriptions[0] == r.descriptions[0];
  }

  /** The fields of the no-description template around its two variable
      parts, for any fixed words `w1` … `w4` that hold no space. */
  lemma RightNowShape(w1: string, t: string, w2: string, n: string, w3: string, w4: string)
    requires IsWord(w1) && IsWord(w2) && IsWord(w3) && IsWord(w4)
    ensures Fields(w1 + [' '] + (t + [' '] + (w2 + [' '] + (n + [' '] + (w3 + [' '] + w4))))) ==
      [w1] + (Fields(t) + ([w2] + (Fields(n) + [w3, w4])))
  {
    FieldsOfFive(w1, t, w2, n, w3 + [' '] + w4);
    FieldsOfWord(w1);
    FieldsOfWord(w2);
    FieldsOfTwoWords(w3, w4);
  }

  /** The fields of a description template around its three variable parts,
      for fixed words `w1`, `w2`, `w3` that hold no space. */
  lemma FramedShape(w1: string, t: string, w2: string, d: string, w3: string, tail: string)
    requires IsWord(w1) && IsWord(w2) && IsWord(w3)
    ensures Fields(w1 + [' '] + (t + [' '] + (w2 + [' '] + (d + [' '] + (w3 + [' '] + tail))))) ==
      [w1] + (Fields(t) + ([w2] + (Fields(d) + ([w3] + Fields(tail)))))
  {
    FieldsOfFive(w1, t, w2, d, w3 + [' '] + tail);
    FieldsOfWord(w1);
    FieldsOfWord(w2);
    FieldsAroundSpace(w3, ' ', tail);
    FieldsOfWord(w3);
  }

  /** The no-description sentence, regrouped blank by blank. */
  lemma RightNowText(t: string, n: string)
    ensures RightNowSentence(t, n) ==
      "It's" + [' '] + (t + [' '] + ("in" + [' '] + (n + [' '] + ("right" + [' '] + "now."))))
  {
  }

  /** A description sentence, regrouped blank by blank. */
  lemma FramedText(t: string, joiner: string, d: string, n: string)
    ensures DescribedSentence(t, joiner, d, n) ==
      "It's" + [' '] + (t + [' '] + (joiner + [' '] + (d + [' '] + ("in" + [' '] + (n + ".")))))
  {
  }

  lemma RightNowFields(t: string, n: string)
    ensures Fields(RightNowSentence(t, n)) ==
      ["It's"] + (Fields(t) + (["in"] + (Fields(n) + ["right", "now."])))
  {
    RightNowShape("It's", t, "in", n, "right", "now.");
    RightNowText(t, n);
  }

  lemma FramedFields(t: string, joiner: string, d: string, n: string)
    requires joiner == "with" || joiner == "and"
    ensures Fields(DescribedSentence(t, joiner, d, n)) ==
      ["It's"] + (Fields(t) + ([joiner] + (Fields(d) + (["in"] + Fields(n + ".")))))
  {
    FramedShape("It's", t, joiner, d, "in", n + ".");
    FramedText(t, joiner, d, n);
  }

  /** The fields of each sentence: the temperature, the first description
      and the city name, between the template's fixed words. */
  lemma RenderFields(city: City, r: Reading)
    ensures TemplateFor(r.descriptions) == RightNow ==>
      Fields(Render(city, r)) ==
        ["It's"] + (Fields(r.temp) + (["in"] + (Fields(city.name) + ["right", "now."])))
    ensures TemplateFor(r.descriptions) == With ==>
      Fields(Render(city, r)) ==
        ["It's"] + (Fields(r.temp) + (["with"] + (Fields(r.descriptions[0]) + (["in"] + Fields(city.name + ".")))))
    ensures TemplateFor(r.descriptions) == And ==>
      Fields(Render(city, r)) ==
        ["It's"] + (Fields(r.temp) + (["and"] + (Fields(r.descriptions[0]) + (["in"] + Fields(city.name + ".")))))
  {
    match TemplateFor(r.descriptions)
    case RightNow =>
      RightNowFields(r.temp, city.name);
    case With =>
      FramedFields(r.temp, "with", r.descriptions[0], city.name);
    case And =>
      FramedFields(r.temp, "and", r.descriptions[0], city.name);
  }

  lemma ApologyWordsAreWords()
    ensures forall i :: 0 <= i < |ApologyWords| ==> IsWord(ApologyWords[i])
  {
  }

  /** The apology's fields are its words. */
  lemma ApologyFields()
    ensures Fields(Apology) == ApologyWords
  {
    ApologyWordsAreWords();
    FieldsJoinWords(ApologyWords);
  }

  /** None of the apology's words is "rain". */
  lemma NoRainInApology()
    ensures "rain" !in ApologyWords
  {
  }

  lemma ApologyStart()
    ensures Apology != "" && Apology[0] == 'S'
  {
  }

  /** Every weather sentence opens with "It's ". */
  lemma RenderStart(city: City, r: Reading)
    ensures |Render(city, r)| >= 5 && Render(city, r)[..5] == "It's "
  {
  }

  /** The outcomes the two keyword handlers share: the apology for an
      extraction error, nothing for no city, otherwise an answer about the
      first city alone. */
  lemma KeywordHandlerOutcomes(x: Extraction, fetch: Fetch, later: seq<City>)
    ensures x.ExtractionFailed? ==> KwGetTemp(x, fetch) == Apology && RainingReply(x, fetch) == Apology
    ensures KwGetTemp(x, fetch) == "" <==> x.Extracted? && x.cities == []
    ensures RainingReply(x, fetch) == "" <==> x.Extracted? && x.cities == []
    ensures x.Extracted? && x.cities != [] ==>
      KwGetTemp(x, fetch) == KwGetTemp(Extracted([x.cities[0]] + later), fetch) &&
      RainingReply(x, fetch) == RainingReply(Extracted([x.cities[0]] + later), fetch)
  {
    if x.Extracted? && x.cities != [] {
      var x' := Extracted([x.cities[0]] + later);
      assert x'.cities[0] == x.cities[0];
    }
  }

  /** The rain answer is affirmative exactly when "rain" stands as a whole
      token in the weather sentence: "drain", "rain." or "Rain" do not count;
      otherwise the answer is the negative one. */
  lemma RainAnswerIffToken(city: City, sentence: string)
    ensures RainAnswer(city, sentence) == RainingSentence(city) <==>
      exists i :: TokenAt(sentence, "rain", i)
    ensures RainAnswer(city, sentence) != RainingSentence(city) ==>
      RainAnswer(city, sentence) == NotRainingSentence(city)
  {
    assert IsWord("rain");
    TokenIff(sentence, "rain");
    assert RainingSentence(city)[5] == 'r' && NotRainingSentence(city)[5] == 'n';
  }

  /** A printed temperature is a single field, and never "rain". */
  lemma FormattedNumberField(t: string)
    requires FormattedNumber(t)
    ensures Fields(t) == [t] && t != "rain"
  {
    assert IsWord(t) by {
      forall i | 0 <= i < |t| ensures !IsSpace(t[i]) {
        assert t[i] in "+-0123456789NaInf";
      }
    }
    FieldsOfWord(t);
    assert "rain"[0] !in "+-0123456789NaInf";
  }

  lemma InFive<T>(x: T, a: seq<T>, b: seq<T>, c: seq<T>, d: seq<T>, e: seq<T>)
    ensures x in a + (b + (c + (d + e))) <==> x in a || x in b || x in c || x in d || x in e
  {
  }

  /** With a well-formed temperature, the sentence has a "rain" field
      exactly when the first description or the city name supplies one. */
  lemma RainingFromDescriptionOrCity(city: City, r: Reading)
    requires FormattedNumber(r.temp)
    ensures TemplateFor(r.descriptions) == RightNow ==>
      ("rain" in Fields(Render(city, r)) <==> "rain" in Fields(city.name))
    ensures TemplateFor(r.descriptions) != RightNow ==>
      ("rain" in Fields(Render(city, r)) <==>
        "rain" in Fields(r.descriptions[0]) || "rain" in Fields(city.name + "."))
  {
    RenderFields(city, r);
    FormattedNumberField(r.temp);
    match TemplateFor(r.descriptions)
    case RightNow =>
      InFive("rain", ["It's"], [r.temp], ["in"], Fields(city.name), ["right", "now."]);
    case With =>
      InFive("rain", ["It's"], [r.temp], ["with"], Fields(r.descriptions[0]), ["in"] + Fields(city.name + "."));
    case And =>
      InFive("rain", ["It's"], [r.temp], ["and"], Fields(r.descriptions[0]), ["in"] + Fields(city.name + "."));
  }

  /** A failed fetch makes `kwGetRaining` answer that it is not raining:
      the apology holds no "rain" field, so the failure is not reported. */
  lemma FailedFetchSaysNotRaining(x: Extraction)
    requires x.Extracted? && x.cities != []
    ensures RainingReply(x, FetchFailed) == NotRainingSentence(x.cities[0])
  {
    ApologyFields();
    NoRainInApology();
  }

  /** The negative reply ends in "now" without the period the affirmative
      reply has. */
  lemma NotRainingHasNoPeriod(city: City)
    ensures RainingSentence(city)[|RainingSentence(city)| - 1] == '.'
    ensures NotRainingSentence(city)[|NotRainingSentence(city)| - 1] == 'w'
  {
  }

  /** As written, the no-description sentence never reads as intended: the
      misplaced operands make `fmt` print its bad-verb marker where the
      temperature belongs. */
  lemma SwappedArgumentsDiffer(city: City, r: Reading)
    requires r.descriptions == [] && FormattedNumber(r.temp)
    ensures RenderAsWritten(city, r) != Render(city, r)
  {
    var marker := BadVerb('f', "string", city.name);
    RightNowSentenceOperand(marker, city.name);
    RightNowSentenceOperand(r.temp, city.name);
    assert marker[0] == '%';
  }

  /** The temperature operand starts right after "It's ". */
  lemma RightNowSentenceOperand(t: string, n: string)
    requires t != ""
    ensures RightNowSentence(t, n)[5] == t[0]
  {
  }

  /** A `badVerb` marker is a single field starting with '%' when its type
      name and operand hold no white space. */
  lemma BadVerbIsWord(verb: char, typeName: string, operand: string)
    requires !IsSpace(verb)
    requires forall i :: 0 <= i < |typeName| ==> !IsSpace(typeName[i])
    requires forall i :: 0 <= i < |operand| ==> !IsSpace(operand[i])
    ensures IsWord(BadVerb(verb, typeName, operand))
    ensures BadVerb(verb, typeName, operand)[0] == '%'
  {
    var m := BadVerb(verb, typeName, operand);
    var p := "%!" + [verb] + "(" + typeName + "=";
    assert m == p + operand + ")";
    forall i | 0 <= i < |m| ensures !IsSpace(m[i]) {
      if i < |p| {
        assert m[i] == p[i];
      } else if i < |p| + |operand| {
        assert m[i] == operand[i - |p|];
      }
    }
  }

  /** The no-description template filled with two single fields. */
  lemma RightNowOfWords(a: string, b: string)
    requires IsWord(a) && IsWord(b)
    ensures Fields(RightNowSentence(a, b)) == ["It's", a, "in", b, "right", "now."]
  {
    RightNowFields(a, b);
    FieldsOfWord(a);
    FieldsOfWord(b);
  }

  /** As written, the no-description sentence is the same for every city:
      the city name never reaches the output. */
  lemma AsWrittenIgnoresCity(c1: City, c2: City, r: Reading)
    requires r.descriptions == []
    ensures RenderAsWritten(c1, r) == RenderAsWritten(c2, r)
  {
  }

  /** What `%v` prints for a float64 holds no white space. */
  lemma FormattedValueHasNoSpace(v: string)
    requires FormattedValue(v)
    ensures forall i :: 0 <= i < |v| ==> !IsSpace(v[i])
  {
    forall i | 0 <= i < |v| ensures !IsSpace(v[i]) {
      assert v[i] in "+-.0123456789eNaInf";
    }
  }

  /** The two markers of the as-written no-description sentence are single
      fields, neither of them "rain". */
  lemma AsWrittenMarkers(city: City, r: Reading)
    requires r.descriptions == [] && FormattedValue(r.value)
    ensures var m1 := BadVerb('f', "string", Truncated(city.name, 0));
      var m2 := BadVerb('s', "float64", r.value);
      RenderAsWritten(city, r) == RightNowSentence(m1, m2) &&
      IsWord(m1) && IsWord(m2) && m1 != "rain" && m2 != "rain"
  {
    FormattedValueHasNoSpace(r.value);
    BadVerbIsWord('f', "string", Truncated(city.name, 0));
    BadVerbIsWord('s', "float64", r.value);
  }

  /** As written, the no-description sentence never has a "rain" field, so
      `kwGetRaining` answers "not raining" for every such reading, whatever
      the city is called. */
  lemma AsWrittenNeverRaining(city: City, r: Reading)
    requires r.descriptions == [] && FormattedValue(r.value)
    ensures "rain" !in Fields(RenderAsWritten(city, r))
    ensures RainAnswer(city, RenderAsWritten(city, r)) == NotRainingSentence(city)
  {
    var m1 := BadVerb('f', "string", Truncated(city.name, 0));
    var m2 := BadVerb('s', "float64", r.value);
    AsWrittenMarkers(city, r);
    RightNowOfWords(m1, m2);
  }
}
