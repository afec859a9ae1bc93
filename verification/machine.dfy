/** The two-state conversation `buildStateMachine` sets up when no keyword
    handler answered: first ask for a city and remember it, then report the
    weather. How the state machine moves between the states is not part of
    this model; each state's three callbacks and the reset callback are. */
module Machine {
  import opened Weather

  /** The memory key under which the city is remembered. */
  const CityKey := "city"

  /** The question asked on entering the first state. */
  const Prompt := "I'll find out for you. What city are you in right now?"

  /** The states, in the order `SetStates` lists them. */
  datatype State = AskCity | ReportWeather

  /** The per-user memory the state machine keeps for this plugin, a map
      from keys to the cities stored under them. */
  class Memory {
    var entries: map<string, City>

    constructor()
      ensures entries == map[]
    {
      entries := map[];
    }
  }

  /** `OnEntry`: the prompt in the first state; in the second, the reply
      `kwGetTemp` gives for the current message. */
  function OnEntry(state: State, x: Extraction, fetch: Fetch): (s: string)
    ensures s == "" <==> state == ReportWeather && x.Extracted? && x.cities == []
    ensures state == AskCity ==> s == Prompt
  {
    match state
    case AskCity => Prompt
    case ReportWeather => KwGetTemp(x, fetch)
  }

  /** `Complete`: the first state is done once a city is remembered, the
      second at once; neither adds a message. */
  function Complete(state: State, memory: map<string, City>): (c: (bool, string))
    ensures c.1 == ""
    ensures !c.0 <==> state == AskCity && CityKey !in memory
  {
    match state
    case AskCity => (CityKey in memory, "")
    case ReportWeather => (true, "")
  }

  /** The memory after `OnInput`: the first state remembers the first city
      extracted from the message, if any; everything else leaves it as is. */
  function AfterInput(state: State, x: Extraction, memory: map<string, City>): map<string, City>
  {
    match state
    case AskCity =>
      if x.Extracted? && x.cities != [] then memory[CityKey := x.cities[0]] else memory
    case ReportWeather => memory
  }

  /** The memory after `OnReset`: the city is forgotten. */
  function AfterReset(memory: map<string, City>): map<string, City>
  {
    memory - {CityKey}
  }

  /** `OnInput` of either state, applied to the plugin's memory. */
  method OnInput(state: State, x: Extraction, mem: Memory)
    modifies mem
    ensures mem.entries == AfterInput(state, x, old(mem.entries))
  {
    if state == ReportWeather {
      return;
    }
    if x.ExtractionFailed? {
      return;
    }
    if |x.cities| == 0 {
      return;
    }
    mem.entries := mem.entries[CityKey := x.cities[0]];
  }

  /** `OnReset`: clear the remembered city. */
  method OnReset(mem: Memory)
    modifies mem
    ensures mem.entries == AfterReset(old(mem.entries))
  {
    mem.entries := mem.entries - {CityKey};
  }

  /** After input in the first state, the state is complete exactly when a
      city was already remembered or the message named one; the completion
      message is always empty. */
  lemma AskCityCompletion(x: Extraction, memory: map<string, City>)
    ensures Complete(AskCity, AfterInput(AskCity, x, memory)).0 <==>
      CityKey in memory || (x.Extracted? && x.cities != [])
    ensures Complete(AskCity, AfterInput(AskCity, x, memory)).1 == ""
    ensures x.Extracted? && x.cities != [] ==>
      AfterInput(AskCity, x, memory)[CityKey] == x.cities[0]
  {
  }

  /** Input touches no key but the city, in either state. */
  lemma InputOnlyTouchesCity(state: State, x: Extraction, memory: map<string, City>, key: string)
    requires key != CityKey
    ensures key in AfterInput(state, x, memory) <==> key in memory
    ensures key in memory ==> AfterInput(state, x, memory)[key] == memory[key]
  {
  }

  /** Handing the same message to a state twice stores nothing new. */
  lemma InputIdempotent(state: State, x: Extraction, memory: map<string, City>)
    ensures AfterInput(state, x, AfterInput(state, x, memory)) == AfterInput(state, x, memory)
  {
  }

  /** A reset reopens the first state, touches no other key, and a second
      reset changes nothing. */
  lemma ResetReopensAskCity(memory: map<string, City>, key: string)
    ensures !Complete(AskCity, AfterReset(memory)).0
    ensures key != CityKey ==>
      (key in AfterReset(memory) <==> key in memory) &&
      (key in memory ==> AfterReset(memory)[key] == memory[key])
    ensures AfterReset(AfterReset(memory)) == AfterReset(memory)
  {
  }

  /** The second state's report ignores the remembered city: it is the
      apology when extraction fails, empty when the current message names
      no city, and otherwise about the first city of the current message. */
  lemma ReportIgnoresMemory(x: Extraction, fetch: Fetch)
    ensures x.ExtractionFailed? ==> OnEntry(ReportWeather, x, fetch) == Apology
    ensures OnEntry(ReportWeather, x, fetch) == "" <==> x.Extracted? && x.cities == []
    ensures x.Extracted? && x.cities != [] ==>
      OnEntry(ReportWeather, x, fetch) == GetWeather(x.cities[0], fetch)
  {
    KeywordHandlerOutcomes(x, fetch, []);
  }
}
