# Weather plugin: reply selection and conversation turns

A Dafny model of the Abot weather plugin (`weather.go`). The plugin answers
questions such as "what's the weather in Boston?" or "is it raining in
Seattle?". This model covers:

- the sentence templates `getWeather` fills in from a weather reading;
- the two keyword handlers `kwGetTemp` and `kwGetRaining`;
- the fixed apology that `e` returns for every error;
- the callbacks of the two-state conversation `buildStateMachine` sets up;
- the order in which `FollowUp` and `Run` try the keyword handlers and then
  the state machine.

Modules:

- `Text`: Go's `strings.Fields`, which splits at Unicode white space as
  `unicode.IsSpace` defines it and drops empty pieces. Also the lemmas the
  plugin relies on: a description has more than one field exactly when a
  space separates two non-space runes, and a word is a field exactly when it
  stands as a whole token.
- `Weather`: the reading, the three templates, the apology, the handlers
  (`kwGetRaining` as a method with its loop), and the lemmas about them.
- `Machine`: the per-user memory as a class whose `entries` map the callbacks
  update in place. `OnInput` and `OnReset` change the memory: each is a
  method that updates the memory object, specified by a function that gives
  the new memory (`AfterInput`, `AfterReset`). `OnEntry` and `Complete`
  change nothing: they are functions of the state, the message and the
  memory that give the text or the completion flag.
- `Dispatch`: `HandleKeywords` once a handler is chosen, and `FollowUp`/`Run`
  writing into a reply slot. `FollowUp` may write the slot twice.

External inputs:

- City extraction is an input value: `Extraction`, either an error or the
  list of cities.
- The weather request is an input value too: `Fetch`, either a failure of
  the HTTP call, the decode or the body close, or the decoded reading.
- The reading's temperature is the text `%.0f` prints (`temp`), plus the text
  `%v` prints (`value`). The second is used only by the as-written template.
- The vocabulary matcher's choice is an `Option<Handler>`.
- The state machine's step is a function from the memory before to the reply
  and the memory after.

Notes on what the code does:

- The second conversation state answers with `kwGetTemp` on the current
  message (weather.go:178-180), so it reports on the first city that
  message names and never reads the remembered city
  (`Machine.ReportIgnoresMemory`).
- The plugin's trigger commands are exactly what, show, tell and is, and its
  objects exactly weather, temperature, temp, outside and raining
  (weather.go:41-43).
- The first conversation state always asks the same question
  (weather.go:159).
- The negative rain reply has no closing period (weather.go:116). It is
  modelled as written (`Weather.NotRainingHasNoPeriod`).
- When the weather request fails, `kwGetRaining` splits the apology into
  fields. The apology contains no "rain" field, so the reply is "It's not
  raining in … right now" rather than the apology
  (`Weather.FailedFetchSaysNotRaining`).
- The rain handler's trigger object is "rain", but the plugin's trigger
  lists "raining" (`Dispatch.TriggerCoverage`).
- The no-description template receives its operands in the wrong order
  (weather.go:133-134; see "## Findings"). `fmt` prints a bad-verb marker for
  each misplaced operand. The marker for `%.0f` prints the city name under
  the `.0` precision, so no rune of it remains: `%!f(string=)`.
  `Weather.RenderAsWritten` is the sentence as printed. `Weather.Render`, the intended sentence, is the one
  `getWeather` and everything built on it use in this model.

## Model

| member | source | states |
|---|---|---|
| `Text.Fields` | weather.go:110 | every field `strings.Fields` gives is non-empty and holds no white space |
| `Text.ManyFieldsIff` | weather.go:136 | a string splits into more than one field exactly when some space lies between two non-space runes |
| `Text.FieldsEmptyIff` | weather.go:136 | a string has no fields exactly when it is all white space |
| `Text.TokenIff` | weather.go:110-111 | a word is among the fields of a sentence exactly when it occurs there bounded by white space or the ends |
| `Text.FieldsJoinWords` | weather.go:110 | splitting words joined by single blanks gives the words back |
| `Text.FieldsAroundSpace` | weather.go:110 | the fields of two strings joined by a white-space rune are the fields of each, in order |
| `Weather.TemplateChoice` | weather.go:132-145 | no description picks the "right now" template; a first description with a space between two non-space runes picks "with"; any other first description, blank or one word, picks "and" |
| `Weather.RenderUsesFirstDescription` | weather.go:136-143 | descriptions after the first never change the sentence |
| `Weather.RenderFields` | weather.go:131-146 | the fields of each intended sentence are the template's fixed words, with the temperature, the first description and the city name in template order |
| `Weather.GetWeather` | weather.go:119-147 | the reply is the apology exactly when the request, decode or close failed; otherwise it is a sentence beginning "It's "; it is never empty |
| `Weather.RenderAsWritten` | weather.go:131-146 | with descriptions the printed sentence is the intended one; without, a bad-verb marker stands where the temperature belongs |
| `Weather.AsWrittenIgnoresCity` | weather.go:133-134 | as written, the no-description sentence is the same whatever the city is called |
| `Weather.AsWrittenNeverRaining` | weather.go:109-116 | as written, for any value `%v` can print, the no-description sentence has no "rain" field, so the rain handler answers "not raining" for every such reading |
| `Weather.KwGetTemp` | weather.go:90-99 | the reply is empty exactly when the message names no city, and the apology when extraction fails |
| `Weather.RainingReply` | weather.go:101-109 | the rain reply is empty exactly when the message names no city, and the apology when extraction fails |
| `Weather.ApologyFields` | weather.go:191-194 | the text `e` returns, the constant `Weather.Apology`, splits into exactly its twelve words |
| `Weather.NoRainInApology` | weather.go:193 | none of the apology's words is "rain" |
| `Weather.KeywordHandlerOutcomes` | weather.go:90-109 | both handlers give the apology on an extraction error and an empty reply exactly when no city was found; otherwise the reply depends only on the first city |
| `Weather.HasRainField` | weather.go:110-115 | the loop finds a field equal to "rain" exactly when one is there |
| `Weather.KwGetRaining` | weather.go:101-117 | the handler's reply is the rain answer for the first city's weather sentence, the apology, or empty |
| `Weather.RainAnswerIffToken` | weather.go:109-116 | the answer is affirmative exactly when "rain" stands as a whole token in the sentence; otherwise it is the negative sentence |
| `Weather.RainingFromDescriptionOrCity` | weather.go:109-145 | with a well-formed temperature, a "rain" field can only come from the first description or the city name |
| `Weather.FailedFetchSaysNotRaining` | weather.go:109-130 | a failed weather request makes the rain handler answer that it is not raining |
| `Weather.NotRainingHasNoPeriod` | weather.go:112-116 | the affirmative reply ends in a period and the negative reply ends in "w" |
| `Weather.SwappedArgumentsDiffer` | weather.go:133-134 | as written, the no-description sentence is never the intended one for any well-formed temperature |
| `Weather.RightNowSentenceOperand` | weather.go:133 | the intended no-description sentence puts the temperature right after "It's " |
| `Machine.OnEntry` | weather.go:158-180 | the first state always asks the fixed question; the entry text is empty exactly in the second state when the message names no city |
| `Machine.Complete` | weather.go:173-185 | a state is incomplete exactly when it is the first and no city is remembered; the completion message is always empty |
| `Machine.OnInput` | weather.go:161-172 | the first state stores the first extracted city under "city" and otherwise leaves memory alone; the second state changes nothing |
| `Machine.OnReset` | weather.go:153-155 | the reset forgets the city |
| `Machine.AskCityCompletion` | weather.go:161-175 | after input, the first state is complete exactly when a city was already remembered or the message named one, and the stored city is the message's first; its message is empty |
| `Machine.InputOnlyTouchesCity` | weather.go:161-182 | input in either state changes no key but "city" |
| `Machine.InputIdempotent` | weather.go:161-182 | the same message handled twice stores nothing new |
| `Machine.ResetReopensAskCity` | weather.go:153-175 | after a reset the first state is incomplete, other keys are untouched, and a second reset changes nothing |
| `Machine.ReportIgnoresMemory` | weather.go:177-180 | the second state's report is the apology on an extraction error, empty exactly when the current message names no city, and otherwise the weather for that message's first city |
| `Dispatch.KeywordReply` | weather.go:82 | the keyword reply is empty exactly when no handler matched or the matched handler found no city; a matched handler answers an extraction error with the apology |
| `Dispatch.HandleKeywords` | weather.go:54-70 | the reply is the chosen handler's reply, or empty when no handler matched |
| `Dispatch.FollowUp` | weather.go:81-88 | a non-empty keyword reply is the response and memory is untouched; otherwise the response and the new memory are the state machine's step |
| `Dispatch.Run` | weather.go:77-79 | `Run` behaves as `FollowUp` |
| `Dispatch.TriggerCoverage` | weather.go:40-68 | the temperature handler's words and the rain handler's commands are plugin trigger words; "rain" is not a plugin trigger object |

## Left out

- HTTP, JSON decoding and closing the body: one input value stands for their outcome. The request URL, whose `city=` parameter is empty, is not modelled.
- Formatting of floating-point numbers: the temperature is the text `%.0f` and `%v` would print, supplied with the reading. `Weather.FormattedNumber` and `Weather.FormattedValue` state only their character sets.
- `language.ExtractCities` and its database: its outcome is an input value.
- `log.Debug` calls: logging has no effect on replies.
- The vocabulary matcher inside `HandleKeywords`: the handler it chooses is an input.
- The step algorithm of `StateMachine.Next`: it is a function parameter of `FollowUp`.
- `SetMemory(in, "city", nil)`: modelled as removing the key, so "city" is no longer remembered. How the host library stores a nil value is not part of this model.
- `Humidity` in the weather reading: it is never read.
- `main`: flag parsing, random seeding, database connection and plugin registration. Its trigger words are kept as data.
- Weather.GetWeather: builds the intended sentence (`Weather.Render`), not the one weather.go:133-134 prints for a reading without descriptions. The printed sentence (`Weather.RenderAsWritten`) carries Go's bad-verb markers in place of the temperature and the city, and no rune of the city name.
- Weather.KwGetTemp: for a reading without descriptions it answers with the intended sentence, not the printed one with bad-verb markers.
- Weather.KwGetRaining: for a reading without descriptions it looks for "rain" in the intended sentence. The program looks in the printed one, which has no "rain" field (`Weather.AsWrittenNeverRaining`). So the program answers "not raining" for every such reading, while the model answers "raining" for a city named "rain".
- Machine.OnEntry and Dispatch.KeywordReply inherit the same corrected sentence through `kwGetTemp` and `kwGetRaining`.
- `Text.Fields`: strings are sequences of runes, so invalid UTF-8 handling is not modelled.

## Findings

| source | as written | input that shows it | evidently intended | confidence | as-written member | corrected member |
|---|---|---|---|---|---|---|
| weather.go:133-134 | the no-description template gets the city name for `%.0f` and the temperature for `%s` | a reading with no description, temperature 72.4, city Boston: `It's %!f(string=) in %!s(float64=72.4) right now.` | the temperature, then the city: `It's 72 in Boston right now.` | not executed | `Weather.SwappedArgumentsDiffer` | `Weather.RenderFields` |
