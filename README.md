# omnibot, modelled in Dafny

omnibot is a personal assistant. A FastAPI front door (`main.py`) takes a
chat message and prefixes a fixed preamble. It hands the prompt to an agent
wrapper (`app/client/client.py`), which keeps the chat history and runs a
LangGraph agent. The agent's tools live in three tool servers:

- "assistant" (`app/servers/server.py`): meetings and Slack;
- "doctor" (`app/servers/server2.py`): PubMed search;
- "geo_assistant" (`app/servers/server3.py`): geocoding, Overpass and OSRM.

This project models the logic around those calls. The network, the agent
and the parsers are parameters of type `A -> B`: total functions that stand
for what the outside world answers. The modelled logic is:

- the wrapper's state machine: initialisation, `invoke` and the interactive loop;
- the chat handler's reply selection;
- attendee reading and meeting-event assembly;
- Slack answer classification;
- the Overpass query and its place list;
- the OSRM request;
- the PubMed summary.

Modules, one per file:

| file | module | models |
|---|---|---|
| `wrappers.dfy` | `Wrappers` | `Option` and `Result` |
| `text.dfy` | `Text` | the Python `str` operations the source uses: `strip`, `split`, `join`, `replace`, `lower`, `int()` and `str()` on integers |
| `py_values.dfy` | `PyValues` | loosely typed tool arguments, `int()` on them, and what a tool returns or raises |
| `messages.dfy` | `Messages` | chat messages and the "keep the matching messages, take the last" selection |
| `client.dfy` | `AgentClient` | `read_config_json`'s path, the tool aggregation, `invoke`, `run_agent`, and the `AgentWrapper` class |
| `front_door.dfy` | `FrontDoor` | the `/chat` handler |
| `assistant.dfy` | `Assistant` | `parse_emails`, `schedule_meeting_input_parser`, `schedule_meeting`, `send_message_on_slack` |
| `geo.dfy` | `Geo` | `get_coordinates`, `find_nearby_places`, `get_travel_info` |
| `pubmed.dfy` | `PubMed` | `disease_diagnoser` |

`MCPAgentWrapper` updates its fields in place, so it is a class:
`AgentClient.AgentWrapper`.

- Its methods are proved against functions of the old state. `Invoke` is
  proved against `InvokeStep`, and `QueryLoop` and `RunAgent` against
  `Session`.
- The loops that build lists in place are methods with loop invariants, each
  proved equal to a recursive specification function:
  - `CollectTools` builds the tool list;
  - `CollectNodes`, `AppendNamed` and `AssemblePlaces` build the Overpass place list;
  - `CollectAbstracts` builds the PubMed entries.

Some observations come out of the model:

- The handler's selection of the last message with non-blank content ignores
  the message kind. The user's own prompt is never blank, so it can come back
  as the reply (`FrontDoor.ChatEchoesPrompt`).
- The handler's "invalid response format" reply cannot be reached. `invoke`
  already calls `.get` on the response and raises first
  (`FrontDoor.InvalidFormatUnreachable`).
- `parse_emails` and `schedule_meeting` read an attendee string differently.
  `schedule_meeting` splits "a and b" into one address, while `parse_emails`
  splits it into two (`Assistant.SplitAttendeesKeepsAnd`,
  `Assistant.ParseEmailsSplitsAnd`). Through `schedule_meeting_input_parser`,
  the `parse_emails` reading is the one that reaches the calendar.
- A message whose content is a list of content blocks makes `.strip()` raise.
  `invoke` tests only AI messages, while the handler tests every message. So a
  tool result with list content lets `invoke` record its answer, but the
  handler still replies with the `AttributeError` text
  (`FrontDoor.ListContentAnsweredButNotReplied`).

## Model

| member | source | states |
|---|---|---|
| `AgentClient.ConfigPath` | main/app/client/client.py:61-66 | a non-empty `config` variable is the path. When it is unset or empty, the path starts with the script directory and ends with `config.json`, with at most one character between them; that character is the '/' the join puts after a non-empty directory, and there is none when the directory already ends in '/' |
| `AgentClient.AggregateAppend` | main/app/client/client.py:99-117 | the tools of a concatenation of server lists are the tools of each part, in order |
| `AgentClient.FailingServerAddsNothing` | main/app/client/client.py:101-117 | a server with a missing `command` or `args`, or whose connection fails, contributes no tool and does not stop the others |
| `AgentClient.LoadedServerAddsAllItsTools` | main/app/client/client.py:108-115 | a server that loads contributes all of its tools, in its own order, between the tools of the servers before and after it |
| `AgentClient.AggregateMembership` | main/app/client/client.py:99-115 | a tool is in the aggregate exactly when some configured server loaded it |
| `AgentClient.AggregateEmptyIff` | main/app/client/client.py:99-120 | the aggregate is empty exactly when no server contributes a tool |
| `AgentClient.CollectTools` | main/app/client/client.py:99-117 | the aggregation loop computes the in-order concatenation of every loaded server's tools |
| `AgentClient.LoadTools` | main/app/client/client.py:61-122 | an unreadable file is reported with the path that was tried; on success the tool list is non-empty and every tool came from a configured server |
| `AgentClient.NoServersRefusedBeforeConnecting` | main/app/client/client.py:93-96 | a configuration with a missing or empty `mcpServers` is refused with the no-servers error, whatever connecting would do |
| `AgentClient.LoadToolsSucceedsIff` | main/app/client/client.py:92-122 | initialisation succeeds exactly when the configuration is read and some server contributes a tool; the tool list it builds is then non-empty |
| `AgentClient.InvokeRefusedWithoutAgent` | main/app/client/client.py:130-131 | without an agent, `invoke` fails with the not-initialised text and leaves the history unchanged |
| `AgentClient.InvokeStep` | main/app/client/client.py:125-147 | the old history is always kept as a prefix, and it grows by at most 2. A failure records at most the user turn. With an agent, `invoke` succeeds exactly when the agent replied with a mapping none of whose AI messages has list content, and it then returns the agent's response |
| `AgentClient.InvokeExtendsHistory` | main/app/client/client.py:134-145 | with an agent, the old history is a prefix of the new one, which grows by 1 or 2. The first new entry is the user turn. A second entry comes only on success, when `invoke` returns the agent's own response, and it is the last non-blank AI message of that response |
| `AgentClient.InvokeAddsAnswerIff` | main/app/client/client.py:140-145 | on success the agent replied with a mapping, and an answer is appended exactly when the agent's response holds an AI message with non-blank content |
| `AgentClient.WellFormedAppend` | main/app/client/client.py:134-145 | appending a user turn, or an answer right after a user turn, keeps every assistant entry directly after a user turn |
| `AgentClient.InvokeKeepsHistoryWellFormed` | main/app/client/client.py:125-147 | `invoke` preserves that shape of the history, on every path |
| `AgentClient.WellFormedHasNoListContent` | main/app/client/client.py:134-145 | a history built by `invoke` holds text messages only |
| `AgentClient.IsQuit` | main/app/client/client.py:158-159 | a line that strips to `quit` ends the loop, and every line that ends it strips to four characters |
| `AgentClient.FirstQuit` | main/app/client/client.py:157-160 | the loop stops at the first line that is `quit` after stripping and lower-casing; no earlier line is one |
| `AgentClient.SessionQueries` | main/app/client/client.py:157-160 | the loop sends one query per line before the first quitting line |
| `AgentClient.Display` | main/app/client/client.py:161-169 | a caught exception is printed after " Error: "; a non-mapping response prints the "object is not subscriptable" error for its type name; a response without `messages` prints the `'messages'` key error; the line starts with a line break exactly when the response holds `messages` and none of its AI messages has list content |
| `AgentClient.DisplayShowsLastAnswer` | main/app/client/client.py:163-167 | the warning is printed when no AI message has non-blank content, and otherwise the content of the last one that has |
| `AgentClient.SessionAnswersEveryQuery` | main/app/client/client.py:157-169 | every query prints exactly one line; the history keeps its old prefix and grows by 1 or 2 per query |
| `AgentClient.SessionExtends` | main/app/client/client.py:157-169 | one more line runs one more `invoke` on the history so far and prints its display |
| `AgentClient.AgentWrapper.constructor` | main/app/client/client.py:87-90 | a new wrapper has no agent and an empty history |
| `AgentClient.AgentWrapper.Initialize` | main/app/client/client.py:92-123 | on success, the agent is built over the aggregated tools; on failure, it reports why and the agent is left as it was; the history is untouched |
| `AgentClient.AgentWrapper.Invoke` | main/app/client/client.py:125-147 | the new history and the outcome are those of `InvokeStep`; without an agent, it fails and nothing changes; the agent is unchanged |
| `AgentClient.AgentWrapper.QueryLoop` | main/app/client/client.py:157-169 | the loop's history and printed answers are those of `Session` over the queries before the first `quit` |
| `AgentClient.AgentWrapper.RunAgent` | main/app/client/client.py:149-169 | initialises only when there is no agent; a failed initialisation prints none of `run_agent`'s own lines, leaves the agent unset and the history unchanged, and ends the run; otherwise it prints the banner then the session's answers, ending on `quit` or at the end of input |
| `Messages.Filter` | main/app/client/client.py:140-143 | the comprehension keeps only matching messages, each taken from the response |
| `Messages.LastKeptIndex` | main/main.py:39-54 | the index of the last matching message: that message matches, and none after it does |
| `Messages.LastKeptIsLastMatch` | main/main.py:39-54 | the selection is empty exactly when nothing matches, and is otherwise the matching message with the greatest index |
| `Messages.NoListContentAppend` | main/main.py:39-42 | messages without list content make neither comprehension raise, and appending such messages keeps it so |
| `FrontDoor.RequestMessage` | main/main.py:32-33 | reading the body fails unless it is a JSON object; a present `message` is read as it is, and a missing one as the empty string |
| `FrontDoor.Prompt` | main/main.py:34 | the prompt is the fixed omnibot preamble followed by the message |
| `FrontDoor.PromptInjective` | main/main.py:34 | different messages give different prompts |
| `FrontDoor.PromptNotBlank` | main/main.py:34 | a prompt is never blank |
| `FrontDoor.ChatReply` | main/main.py:38-60 | an exception becomes `{"error": str(e)}`; a message with list content, of any kind, gives the `AttributeError` body; a response without `.get` gives the invalid-format reply; any other response gives a `response` body |
| `FrontDoor.ChatReplySelection` | main/main.py:39-54 | without list content, the reply is the fallback text when no message has non-blank content, and otherwise the content of the last message that has, of any kind |
| `FrontDoor.ChatStep` | main/main.py:30-60 | only a body that is not a JSON object escapes the handler, and then the history is untouched; otherwise the history keeps its old prefix and grows by at most 2. With an agent, an agent error is answered with the error body, and a mapping response without AI list content is answered with `ChatReply` of the agent's own response |
| `FrontDoor.OnlyBodyParsingEscapes` | main/main.py:32-36 | a body that is not a JSON object fails the handler with the error from reading the message; the result is the same whatever the agent and however it would answer |
| `FrontDoor.ChatBeforeInitialize` | main/main.py:35-60 | before initialisation, every well-formed request gets the not-initialised error body and the history is unchanged |
| `FrontDoor.InvalidFormatUnreachable` | main/main.py:38-45 | a successful `invoke` always returns a mapping; a response without `.get` yields the `AttributeError` body from `invoke` instead |
| `FrontDoor.ChatEchoesPrompt` | main/main.py:39-54 | on a history built by `invoke`, when the response ends with a blank AI message after the prompt, the reply is the user's own prompt |
| `FrontDoor.ChatAgreesWithTranscript` | main/main.py:36-54 | when no message has list content and the last message with text is an AI message, the reply is exactly the answer `invoke` appended to the history |
| `FrontDoor.ListContentAnsweredButNotReplied` | main/main.py:36-60 | when only messages of other kinds have list content, `invoke` records its answer but the reply is the `AttributeError` body |
| `FrontDoor.Chat` | main/main.py:30-60 | the handler on the shared wrapper: the new history and the outcome are those of `ChatStep`, and the agent is unchanged |
| `Assistant.ParseEmails` | main/app/servers/server.py:81-84 | a list of addresses is returned unchanged |
| `Assistant.ParseEmailsFields` | main/app/servers/server.py:83 | a string gives one entry per comma-separated field after " and " is replaced, empty fields kept, each entry its field stripped |
| `Assistant.ParsedEmailsAreClean` | main/app/servers/server.py:83 | every address read from a string has no comma, no surrounding whitespace and no " and " |
| `Assistant.ParseEmailsSplitsAnd` | main/app/servers/server.py:83 | `parse_emails` reads "a and b" as two addresses |
| `Assistant.SplitAttendees` | main/app/servers/server.py:150-151 | `schedule_meeting`'s own split gives one entry per comma, plus one |
| `Assistant.SplitAttendeesFields` | main/app/servers/server.py:150-151 | each entry is its comma-separated field stripped, empty fields kept, and the fields joined with commas are the string |
| `Assistant.AttendeeReadingsAgree` | main/app/servers/server.py:150-151 | on a string without " and ", the two readings of the attendees agree |
| `Assistant.SplitAttendeesKeepsAnd` | main/app/servers/server.py:150-151 | `schedule_meeting` reads "a and b" as one address |
| `Assistant.InvalidFields` | main/app/servers/server.py:72-77 | only declared field names are reported |
| `Assistant.ValidateMeetingInput` | main/app/servers/server.py:72-92 | validation succeeds exactly when every field has its declared type, and then copies the fields. The duration is `int()` of the field. A string of attendees is read by `parse_emails`, and a list is kept. A failure names at least one field |
| `Assistant.MeetingEvent` | main/app/servers/server.py:169-190 | the event carries the given summary and description. It starts at the parsed start and ends that many minutes later, both in Asia/Karachi. There is one attendee per address, in order. The Meet request has id "meet-" + stamp |
| `Assistant.ScheduleMeeting` | main/app/servers/server.py:148-201 | it raises exactly when authentication fails; every text it returns starts with "Failed to schedule meeting: " |
| `Assistant.BadDurationInsertsNothing` | main/app/servers/server.py:167-201 | a duration `int()` rejects returns the failure text with `int()`'s message, and the insert is never consulted |
| `Assistant.ScheduleMeetingSucceedsIff` | main/app/servers/server.py:148-201 | success (`None`) happens exactly when authentication, start parsing and duration conversion succeed and the calendar returns a Meet link for the event built from them |
| `Assistant.ScheduleMeetingInputParser` | main/app/servers/server.py:86-101 | invalid input returns "❌ Input validation failed: " followed by the rendered errors |
| `Assistant.InputParserInvitesParsedAttendees` | main/app/servers/server.py:91-99 | valid input schedules the event whose attendees are `parse_emails` of the field (" and " handled) |
| `Assistant.InvalidInputReachesNoCalendar` | main/app/servers/server.py:100-101 | invalid input returns without raising, whatever the calendar or the credentials would do |
| `Assistant.SendMessageOnSlack` | main/app/servers/server.py:247-264 | a missing or empty token returns the token error; every returned value is a text |
| `Assistant.SlackNoTokenMakesNoRequest` | main/app/servers/server.py:247-249 | without a token, the outcome does not depend on the HTTP client |
| `Assistant.SlackSendsOneRequest` | main/app/servers/server.py:251-255 | with a token, only the POST to `chat.postMessage` with the bearer token, channel and text matters |
| `Assistant.SlackSentIff` | main/app/servers/server.py:257-264 | the sent confirmation is returned exactly when Slack answers 200 with `ok`; every other returned text starts with ❌ |
| `Assistant.SlackOtherOutcomes` | main/app/servers/server.py:255-262 | a failed request raises, and so does an unreadable 200 body; a 200 without `ok` returns "❌ Failed: " and Slack's error, or "None" |
| `Assistant.SlackRejectionCarriesStatus` | main/app/servers/server.py:263-264 | a status other than 200 returns exactly "❌ Slack API error ", the status code, ": " and the body's text; the code reads back as that integer |
| `PyValues.IntOf` | main/app/servers/server3.py:36 | an integer converts to itself and a bool to 1 or 0. A float converts to its value truncated toward zero. A string converts exactly when it is a decimal literal. A list or other value fails |
| `PyValues.IntOfWholeFloat` | main/app/servers/server3.py:36 | a float without a fractional part converts to the integer it equals |
| `PyValues.TowardZeroUnique` | main/app/servers/server3.py:36 | at most one integer is a float truncated toward zero, so the float case of `IntOf` has one answer |
| `PyValues.IntOfDecimalText` | main/app/servers/server.py:168 | an integer sent as its decimal text converts back to it |
| `Geo.GetCoordinates` | main/app/servers/server3.py:24-29 | it fails with the not-found text exactly when the geocoder has no hit, and otherwise returns that hit |
| `Geo.OverpassQuery` | main/app/servers/server3.py:39-46 | the query opens the union's parenthesis and ends by closing it and asking for centres |
| `Geo.QueryFiltersEveryKind` | main/app/servers/server3.py:39-46 | the query asks for nodes, ways and relations, each under the same filter |
| `Geo.FilterCarriesRadius` | main/app/servers/server3.py:41-43 | the radius written into the filter reads back as the converted integer |
| `Geo.NodePlace` | main/app/servers/server3.py:50-51 | a node gives its `name` tag, or "Unnamed", at its own point |
| `Geo.NodePlacesOnePerNode` | main/app/servers/server3.py:50-51 | every node gives exactly one entry: the i-th node gives the i-th entry |
| `Geo.NamedPlacesAppend` | main/app/servers/server3.py:52-57 | the named entries of a concatenation are those of its parts, in order |
| `Geo.NamedPlacesCount` | main/app/servers/server3.py:52-57 | ways and relations give one entry per element with a `name` tag |
| `Geo.NamedPlacesComeFromNamedElements` | main/app/servers/server3.py:52-57 | every such entry is an element's name at that element's centre |
| `Geo.PlacesLayout` | main/app/servers/server3.py:49-59 | all nodes come first, in order, then named ways, then named relations; the length is nodes plus named ways plus named relations |
| `Geo.AppendNamed` | main/app/servers/server3.py:52-57 | the `for` loop over ways or relations appends the named entries |
| `Geo.CollectNodes` | main/app/servers/server3.py:50-51 | the `for` loop over nodes computes `NodePlaces`: one entry per node, "Unnamed" when it has no name |
| `Geo.AssemblePlaces` | main/app/servers/server3.py:49-59 | the three loops compute `Places` of the result |
| `Geo.FindNearbyPlaces` | main/app/servers/server3.py:32-59 | a bad radius fails before geocoding; an unknown address fails with the not-found text; otherwise it returns the places of the Overpass answer to the query |
| `Geo.OsrmUrlReadsBack` | main/app/servers/server3.py:71-72 | the URL's waypoints read back as origin then destination, each longitude before latitude |
| `Geo.OsrmUrl` | main/app/servers/server3.py:72 | the URL starts with the OSRM driving service and ends with `?overview=false` |
| `Geo.GetTravelInfo` | main/app/servers/server3.py:68-82 | a failure to geocode either address raises the not-found error. With both points, a failed request fails with its error. A status other than 200 raises the OSRM error text. An unreadable body fails with its error. A missing `routes` fails with "'routes'", and an empty list with "list index out of range" |
| `Geo.TravelInfoAsksOneRoute` | main/app/servers/server3.py:72-74 | only the GET of the route URL for the two geocoded points matters |
| `Geo.TravelInfoSucceedsIff` | main/app/servers/server3.py:74-80 | a route comes back exactly when OSRM answers 200 with at least one route, and it is the first one |
| `Geo.OsrmErrorCarriesStatus` | main/app/servers/server3.py:81-82 | the error text carries the status code, which reads back as that integer |
| `PubMed.SearchRequest` | main/app/servers/server2.py:22-31 | the search GET carries the query as `term`, asks for at most 5 ids as JSON, and names no parameter twice |
| `PubMed.FetchRequest` | main/app/servers/server2.py:37-43 | the fetch GET carries the ids joined with commas, asks for XML, and names no parameter twice |
| `PubMed.FetchIdsReadBack` | main/app/servers/server2.py:39-43 | the fetch `id` parameter splits back into the searched ids, in order |
| `PubMed.Entry` | main/app/servers/server2.py:55 | an entry starts with "📝 " and ends with a line break; its length counts the stripped title and abstract |
| `PubMed.EntryReadsBack` | main/app/servers/server2.py:55 | an entry's lines read back as the stripped title and the stripped abstract |
| `PubMed.EntriesAppend` | main/app/servers/server2.py:51-55 | the entries of a concatenation of articles are those of each part, in order |
| `PubMed.Entries` | main/app/servers/server2.py:50-55 | there are at most as many entries as articles, and each starts with "📝 " |
| `PubMed.EntriesOfCompleteArticles` | main/app/servers/server2.py:51-55 | there is one entry per article with both a title and an abstract; each entry is such an article's entry |
| `PubMed.CollectAbstracts` | main/app/servers/server2.py:50-55 | the `for article` loop computes the entries of the complete articles, in order |
| `PubMed.DiseaseDiagnoser` | main/app/servers/server2.py:20-60 | a failed search or fetch gives the error text. No ids (keys missing included) gives the no-articles text and no fetch. Otherwise it gives the summary of the fetched articles |
| `PubMed.EntriesEmptyIff` | main/app/servers/server2.py:51-57 | there are no entries exactly when no article is complete |
| `PubMed.SummaryFallbackIff` | main/app/servers/server2.py:57 | the summary is "No abstracts found." exactly when no article is complete |
| `PubMed.Summary` | main/app/servers/server2.py:57 | no entries give "No abstracts found."; otherwise every entry appears in order at its place in the text, a line break follows every entry but the last, and nothing follows the last entry |
| `Text.StripShape` | main/app/servers/server2.py:55 | `strip()` returns a slice of its input with whitespace only around it and non-whitespace at both of its ends |
| `Text.StripIdempotent` | main/app/servers/server.py:83 | stripping twice is stripping once |
| `Text.BlankIffAllSpace` | main/main.py:41 | a text is blank after stripping exactly when every character is whitespace |
| `Text.Split` | main/app/servers/server.py:151 | `split(",")` gives at least one part, and no part contains the separator |
| `Text.SplitCount` | main/app/servers/server.py:151 | `split(",")` gives one more part than there are separators |
| `Text.JoinSplit` | main/app/servers/server.py:151 | joining the parts of a split with the separator gives back the text |
| `Text.SplitJoin` | main/app/servers/server2.py:41 | splitting a join of separator-free parts gives back the parts |
| `Text.ReplaceRemovesPattern` | main/app/servers/server.py:83 | after `replace(" and ", ",")` no " and " is left |
| `Text.JoinLayout` | main/app/servers/server2.py:57 | in a join on one character, every field sits at its offset, the character follows every field but the last, and the text ends with the last field |
| `Text.ParseDecimalString` | main/app/servers/server3.py:36 | `int(str(n)) == n` |

## Left out

- Network and foreign code are parameters or left out, with what they answer as arbitrary values:
  - the MCP stdio transport, `AsyncExitStack`, the session handshake and `load_mcp_tools`: `Env.connect`;
  - the LangGraph agent and Gemini: `Env.run`;
  - the Google Calendar API and OAuth: `CalendarEnv`;
  - the Slack, OSRM and PubMed HTTP calls;
  - BeautifulSoup parsing;
  - Nominatim and Overpass.
- `send_email` and `send_message_via_whatsapp` are pure I/O with no logic around them.
- `authenticate_google`'s token cache and browser flow are I/O; only its success or exception is modelled.
- The connection and debug prints (client.py:103, 113, 115, 117, 123 and 132), the config fallback notice (client.py:67), the config read error printed before `sys.exit(1)` (client.py:75), the `input` prompt "\nQuery: " (client.py:158), logging and tracebacks are left out. The lines `run_agent` prints (the ready banner, each answer, each caught error) are modelled as its `printed` result. The terminal input of `run_agent` is a sequence of lines.
- Concurrency is not modelled: concurrent `invoke` calls on the shared history would be, and the model is sequential.
- FastAPI routing, CORS, static files, the startup hook and uvicorn are left out.
- `dateutil` parsing and the pytz zone conversion are the `CalendarEnv.parseTime` parameter. The start is an abstract instant in microseconds.
- The clock that stamps the Meet request id is the `requestStamp` parameter.
- Float arithmetic is not modelled:
  - coordinates are the text Python renders them to;
  - `get_travel_info` returns the first route's distance and duration as given, without dividing by 1000 and 60;
  - a route is always a distance and a duration, so the `KeyError` that `route['distance']` or `route['duration']` raises on a route missing either (server3.py:78-79) is not represented.
- `timedelta` overflow for huge durations is not modelled.
- pydantic coercion is approximated:
  - a string field must be a string;
  - `duration_minutes` must be an integer, a bool, a float without a fractional part, or an integer literal string;
  - `attendees_emails` must be a string or a list of strings.
- pydantic's error text is the `renderValidation` parameter.
- A `message` field in the request body that is not a string is not modelled.
- A direct `schedule_meeting` call with attendees that are neither a string nor a list, or a start that is not a string, is not modelled.
- Geocoder exceptions (a timeout, say) are not modelled; only "no hit" is. The Overpass call's failure is modelled and propagates.
- `PyValues.IntOf`: Python's `int()` also accepts `_` between digits and non-ASCII decimal digits, and these are not modelled. Floats are exact reals, so `inf` and `nan` (which make `int()` raise) are not modelled.
- `PyValues.Repr`: assumes the rejected text needs no escaping.
- `AgentClient.IsQuit`: lower-cases ASCII letters only.
- `Assistant.SendMessageOnSlack`: its own ensures covers only the missing token. The other answers are stated by `Assistant.SlackSentIff`, `Assistant.SlackOtherOutcomes` and `Assistant.SlackRejectionCarriesStatus`.
