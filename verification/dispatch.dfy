/** The plugin's entry points: `Run` and `FollowUp` try the keyword handlers
    first and fall back to the state machine. Which handler the vocabulary
    matcher picks for a message, and how the state machine steps, belong to
    the host library; both are inputs here. */
module Dispatch {
  import opened Weather
  import opened Machine

  datatype Option<T> = None | Some(value: T)

  /** The two keyword handlers, in the order the vocabulary lists them. */
  datatype Handler = GetTemp | GetRaining

  /** A structured trigger: command words and object words. */
  datatype Trigger = Trigger(commands: seq<string>, objects: seq<string>)

  /** The words that route a message to this plugin at all. */
  const PluginTrigger := Trigger(["what", "show", "tell", "is"],
    ["weather", "temperature", "temp", "outside", "raining"])

  /** The words of each handler's vocabulary entry. */
  function HandlerTrigger(h: Handler): Trigger
  {
    match h
    case GetTemp => Trigger(["what", "show", "tell"], ["weather", "temperature", "temp", "outside"])
    case GetRaining => Trigger(["tell", "is"], ["rain"])
  }

  /** The reply text the host writes into a response. */
  class ReplySlot {
    var text: string

    constructor()
      ensures text == ""
    {
      text := "";
    }
  }

  /** What `HandleKeywords` returns once the matcher has chosen: the chosen
      handler's reply, or nothing when no handler matched. */
  function KeywordReply(selected: Option<Handler>, x: Extraction, fetch: Fetch): (s: string)
    ensures s == "" <==> selected.None? || (x.Extracted? && x.cities == [])
    ensures selected.Some? && x.ExtractionFailed? ==> s == Apology
  {
    match selected
    case None => ""
    case Some(GetTemp) => KwGetTemp(x, fetch)
    case Some(GetRaining) => RainingReply(x, fetch)
  }

  /** Run the handler the matcher chose. */
  method HandleKeywords(selected: Option<Handler>, x: Extraction, fetch: Fetch) returns (reply: string)
    ensures reply == KeywordReply(selected, x, fetch)
  {
    match selected
    case None =>
      reply := "";
    case Some(GetTemp) =>
      reply := KwGetTemp(x, fetch);
    case Some(GetRaining) =>
      reply := KwGetRaining(x, fetch);
  }

  /** `FollowUp`: write the keyword reply; when it is empty, step the state
      machine instead and write its reply over it. `next` is the step, from
      the memory before to the reply and the memory after. The Go method's
      error result is always nil. */
  method FollowUp(selected: Option<Handler>, x: Extraction, fetch: Fetch,
                  next: map<string, City> -> (string, map<string, City>),
                  mem: Memory, resp: ReplySlot)
    modifies mem, resp
    ensures KeywordReply(selected, x, fetch) != "" ==>
      resp.text == KeywordReply(selected, x, fetch) && mem.entries == old(mem.entries)
    ensures KeywordReply(selected, x, fetch) == "" ==>
      (resp.text, mem.entries) == next(old(mem.entries))
  {
    resp.text := HandleKeywords(selected, x, fetch);
    if |resp.text| == 0 {
      var step := next(mem.entries);
      mem.entries := step.1;
      resp.text := step.0;
    }
  }

  /** `Run` does exactly what `FollowUp` does. */
  method Run(selected: Option<Handler>, x: Extraction, fetch: Fetch,
             next: map<string, City> -> (string, map<string, City>),
             mem: Memory, resp: ReplySlot)
    modifies mem, resp
    ensures KeywordReply(selected, x, fetch) != "" ==>
      resp.text == KeywordReply(selected, x, fetch) && mem.entries == old(mem.entries)
    ensures KeywordReply(selected, x, fetch) == "" ==>
      (resp.text, mem.entries) == next(old(mem.entries))
  {
    FollowUp(selected, x, fetch, next, mem, resp);
  }

  /** Every command and object of the temperature handler also routes a
      message to the plugin, and so do the rain handler's commands; its one
      object "rain" is not among the plugin's objects, which list "raining". */
  lemma TriggerCoverage()
    ensures forall w :: w in HandlerTrigger(GetTemp).commands ==> w in PluginTrigger.commands
    ensures forall w :: w in HandlerTrigger(GetTemp).objects ==> w in PluginTrigger.objects
    ensures forall w :: w in HandlerTrigger(GetRaining).commands ==> w in PluginTrigger.commands
    ensures "rain" in HandlerTrigger(GetRaining).objects && "rain" !in PluginTrigger.objects
  {
  }
}
