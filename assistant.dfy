/**
 * The "assistant" tool server: reading the attendee list of a meeting in
 * its two variants, validating the meeting input, assembling the calendar
 * event, and classifying the Slack API's answer. The calendar, the OAuth
 * flow, the date parser and the HTTP client are parameters.
 */
module Assistant {
  import opened Wrappers
  import opened Text
  import opened PyValues

  /** The attendees as the agent sends them: one string, or a list of addresses. */
  datatype Attendees = AttendeeText(text: string) | AttendeeList(emails: seq<string>)

  const AndWord := " and "

  /**
   * `ScheduleMeetingInput.parse_emails`: a string has every " and " turned
   * into a comma, is split on commas and each piece is stripped; a list is
   * kept as it is.
   */
  function ParseEmails(v: Attendees): (r: seq<string>)
    ensures v.AttendeeList? ==> r == v.emails
  {
    match v
    case AttendeeText(s) => StripAll(Split(Replace(s, AndWord, ","), ','))
    case AttendeeList(es) => es
  }

  /**
   * Reading a string gives one entry per comma-separated field of the text
   * after " and " is replaced, empty fields included: the fields joined back
   * with commas are that text, and each entry is its field stripped.
   */
  lemma ParseEmailsFields(s: string)
    ensures var t := Replace(s, AndWord, ",");
            var fields := Split(t, ',');
            var r := ParseEmails(AttendeeText(s));
            |r| == |fields| && Join(fields, ",") == t
            && forall i :: 0 <= i < |r| ==> r[i] == Strip(fields[i])
  {
    JoinSplit(Replace(s, AndWord, ","), ',');
  }

  /** A character absent from a string is absent from every slice of it. */
  lemma SliceKeepsCharAbsent(x: string, c: char, lo: nat, hi: nat)
    requires lo <= hi <= |x| && c !in x
    ensures c !in x[lo..hi]
  {
    forall i | 0 <= i < hi - lo ensures x[lo..hi][i] != c {
      assert x[lo..hi][i] == x[lo + i];
    }
  }

  /**
   * A field cut out of a text without " and ", and without commas itself,
   * strips to an entry without commas, surrounding whitespace or " and ".
   */
  lemma StrippedFieldIsClean(t: string, f: string, off: nat)
    requires off + |f| <= |t| && t[off..off + |f|] == f
    requires forall j :: !OccursAt(t, AndWord, j)
    requires ',' !in f
    ensures ',' !in Strip(f) && Strip(Strip(f)) == Strip(f)
    ensures forall j :: !OccursAt(Strip(f), AndWord, j)
  {
    SliceKeepsAbsence(t, AndWord, off, off + |f|);
    StripShape(f);
    var lead := LeadingSpace(f);
    var e := Strip(f);
    assert e == f[lead..lead + |e|];
    SliceKeepsAbsence(f, AndWord, lead, lead + |e|);
    SliceKeepsCharAbsent(f, ',', lead, lead + |e|);
    StripIdempotent(f);
  }

  /** Every comma-separated field of a text without " and " strips to a clean entry. */
  lemma StrippedFieldsAreClean(t: string)
    requires forall j :: !OccursAt(t, AndWord, j)
    ensures var fields := Split(t, ',');
            forall i :: 0 <= i < |fields| ==>
              var e := Strip(fields[i]);
              ',' !in e && Strip(e) == e && forall j :: !OccursAt(e, AndWord, j)
  {
    var fields := Split(t, ',');
    JoinSplit(t, ',');
    forall i | 0 <= i < |fields|
      ensures var e := Strip(fields[i]);
              ',' !in e && Strip(e) == e && forall j :: !OccursAt(e, AndWord, j)
    {
      FieldIsSliceOfJoin(fields, ",", i);
      StrippedFieldIsClean(t, fields[i], FieldOffset(fields, ",", i));
    }
  }

  /**
   * Every address read from a string is clean: no comma, no surrounding
   * whitespace, and no " and " left inside it.
   */
  lemma ParsedEmailsAreClean(s: string)
    ensures var r := ParseEmails(AttendeeText(s));
            forall i :: 0 <= i < |r| ==>
              ',' !in r[i] && Strip(r[i]) == r[i] && forall j :: !OccursAt(r[i], AndWord, j)
  {
    var t := Replace(s, AndWord, ",");
    assert forall j :: 0 <= j < |AndWord| ==> AndWord[j] !in "," by {
      assert "," == [','];
    }
    ReplaceRemovesPattern(s, AndWord, ",");
    StrippedFieldsAreClean(t);
    ParseEmailsFields(s);
  }

  /** `schedule_meeting`'s own reading of a string: split on commas only, each piece stripped. */
  function SplitAttendees(s: string): (r: seq<string>)
    ensures |r| == multiset(s)[','] + 1
  {
    SplitCount(s, ',');
    StripAll(Split(s, ','))
  }

  /**
   * `schedule_meeting`'s reading gives one entry per comma-separated field,
   * empty fields included: the fields joined back with commas are the
   * string, and each entry is its field stripped.
   */
  lemma SplitAttendeesFields(s: string)
    ensures var fields := Split(s, ',');
            var r := SplitAttendees(s);
            |r| == |fields| && Join(fields, ",") == s
            && forall i :: 0 <= i < |r| ==> r[i] == Strip(fields[i])
  {
    JoinSplit(s, ',');
  }

  /** On a string without " and " the two readings agree. */
  lemma AttendeeReadingsAgree(s: string)
    requires forall i :: !OccursAt(s, AndWord, i)
    ensures ParseEmails(AttendeeText(s)) == SplitAttendees(s)
  {
    ReplaceWithoutOccurrence(s, AndWord, ",");
  }

  /** Replacing " and " in "a and b" gives "a,b". */
  lemma ReplaceAndInExample()
    ensures Replace("a and b", AndWord, ",") == "a,b"
  {
    var s := "a and b";
    var rest := s[1..];
    assert rest == " and b" && rest[5..] == "b";
    assert rest[..5] == AndWord;
    assert Replace(rest, AndWord, ",") == ",b";
    assert s[..5][0] == 'a' && AndWord[0] == ' ';
  }

  /** Splitting "a,b" gives "a" and "b". */
  lemma SplitCommaInExample()
    ensures Split("a,b", ',') == ["a", "b"]
  {
    SplitAtFirstSeparator("a", ',', "b");
    SplitWithoutSeparator("b", ',');
    assert "a" + [','] + "b" == "a,b";
  }

  /** "a" and "b" are their own `strip()`. */
  lemma StripInExample()
    ensures StripAll(["a", "b"]) == ["a", "b"]
  {
    var parts := ["a", "b"];
    StripWithoutEdgeSpace(parts[0]);
    StripWithoutEdgeSpace(parts[1]);
    StripAllOfStripped(parts);
  }

  /** The validator reads "a and b" as two addresses. */
  lemma ParseEmailsSplitsAnd()
    ensures ParseEmails(AttendeeText("a and b")) == ["a", "b"]
  {
    ReplaceAndInExample();
    SplitCommaInExample();
    StripInExample();
  }

  /** A string without commas or surrounding whitespace is read by `schedule_meeting` as one address. */
  lemma SplitAttendeesSingle(s: string)
    requires ',' !in s && s != [] && !IsSpace(s[0]) && !IsSpace(s[|s| - 1])
    ensures SplitAttendees(s) == [s]
  {
    SplitWithoutSeparator(s, ',');
    StripWithoutEdgeSpace(s);
  }

  /** `schedule_meeting` reads "a and b" as one address. */
  lemma SplitAttendeesKeepsAnd()
    ensures SplitAttendees("a and b") == ["a and b"]
  {
    SplitAttendeesSingle("a and b");
  }

  /** The fields of a validated `ScheduleMeetingInput`, attendees already read. */
  datatype MeetingInput = MeetingInput(summary: string, description: string, startTime: string,
                                       durationMinutes: int, attendees: seq<string>)

  /** A field that must be a string. */
  predicate IsStrField(input: map<string, PyValue>, name: string) {
    name in input && input[name].PyStr?
  }

  /**
   * `duration_minutes: int` in pydantic's lax mode: an integer, a bool, a
   * float without a fractional part, or a string holding an integer.
   */
  predicate IsIntField(input: map<string, PyValue>, name: string) {
    name in input && IntOf(input[name]).Success?
    && (input[name].PyFloat? ==> input[name].x == input[name].x.Floor as real)
  }

  /** `attendees_emails: Union[str, List[str]]`. */
  predicate IsAttendeesField(input: map<string, PyValue>, name: string) {
    name in input && (input[name].PyStr? || input[name].PyStrList?)
  }

  /** The names of the fields that fail validation, in declaration order. */
  function InvalidFields(input: map<string, PyValue>): (fields: seq<string>)
    ensures forall i :: 0 <= i < |fields| ==>
              fields[i] in {"summary", "description", "start_time", "duration_minutes", "attendees_emails"}
  {
    (if IsStrField(input, "summary") then [] else ["summary"])
    + (if IsStrField(input, "description") then [] else ["description"])
    + (if IsStrField(input, "start_time") then [] else ["start_time"])
    + (if IsIntField(input, "duration_minutes") then [] else ["duration_minutes"])
    + (if IsAttendeesField(input, "attendees_emails") then [] else ["attendees_emails"])
  }

  /** The attendees field as `parse_emails` receives it: a string or a list of strings. */
  function AttendeesOf(v: PyValue): (a: Attendees)
    requires v.PyStr? || v.PyStrList?
    ensures a.AttendeeText? <==> v.PyStr?
  {
    if v.PyStr? then AttendeeText(v.s) else AttendeeList(v.items)
  }

  /**
   * `ScheduleMeetingInput(**input)`: the validated fields, with the attendees
   * read by `parse_emails`, or the names of the fields that fail.
   */
  function ValidateMeetingInput(input: map<string, PyValue>): (r: Result<MeetingInput, seq<string>>)
    ensures r.Success? <==>
              IsStrField(input, "summary") && IsStrField(input, "description") && IsStrField(input, "start_time")
              && IsIntField(input, "duration_minutes") && IsAttendeesField(input, "attendees_emails")
    ensures r.Failure? ==> r.error != []
    ensures r.Success? ==>
              r.value.summary == input["summary"].s && r.value.description == input["description"].s
              && r.value.startTime == input["start_time"].s
              && Success(r.value.durationMinutes) == IntOf(input["duration_minutes"])
    ensures r.Success? && input["attendees_emails"].PyStr? ==>
              r.value.attendees == ParseEmails(AttendeeText(input["attendees_emails"].s))
    ensures r.Success? && input["attendees_emails"].PyStrList? ==>
              r.value.attendees == input["attendees_emails"].items
  {
    var fields := InvalidFields(input);
    if fields != [] then Failure(fields)
    else
      Success(MeetingInput(input["summary"].s, input["description"].s, input["start_time"].s,
                           IntOf(input["duration_minutes"]).value,
                           ParseEmails(AttendeesOf(input["attendees_emails"]))))
  }

  /** A point in time, in microseconds (the resolution of Python's `datetime`). */
  datatype Instant = Instant(micros: int)

  const MicrosPerMinute := 60_000_000
  const Zone := "Asia/Karachi"

  /** `t + timedelta(minutes=m)`. */
  function AddMinutes(t: Instant, minutes: int): Instant {
    Instant(t.micros + minutes * MicrosPerMinute)
  }

  datatype EventTime = EventTime(dateTime: Instant, timeZone: string)
  datatype Attendee = Attendee(email: string)
  datatype ConferenceRequest = ConferenceRequest(requestId: string, solutionType: string)

  /** The event `schedule_meeting` asks the calendar to insert. */
  datatype Event = Event(summary: string, description: string, start: EventTime, end: EventTime,
                         attendees: seq<Attendee>, conference: ConferenceRequest)

  /**
   * The event dictionary: the given title and description, the start as
   * parsed, both ends in the Karachi zone, the end `minutes` after the
   * start, one attendee entry per address in order, and a Meet
   * conference request keyed by the request stamp.
   */
  function MeetingEvent(summary: string, description: string, start: Instant, minutes: int,
                        emails: seq<string>, stamp: string): (e: Event)
    ensures e.summary == summary && e.description == description
    ensures e.start.dateTime == start && e.end.dateTime == AddMinutes(start, minutes)
    ensures e.start.timeZone == Zone && e.end.timeZone == Zone
    ensures e.end.dateTime.micros - e.start.dateTime.micros == minutes * MicrosPerMinute
    ensures |e.attendees| == |emails| && forall i :: 0 <= i < |emails| ==> e.attendees[i].email == emails[i]
    ensures |e.conference.requestId| == 5 + |stamp|
    ensures e.conference.requestId[..5] == "meet-" && e.conference.requestId[5..] == stamp
    ensures e.conference.solutionType == "hangoutsMeet"
  {
    Event(summary, description, EventTime(start, Zone), EventTime(AddMinutes(start, minutes), Zone),
          seq(|emails|, i requires 0 <= i < |emails| => Attendee(emails[i])),
          ConferenceRequest("meet-" + stamp, "hangoutsMeet"))
  }

  /**
   * What `schedule_meeting` reaches outside: the OAuth credentials (or the
   * exception getting them raises), the date parser with its zone handling,
   * the calendar's insert (the created event's Meet link, if it has one, or
   * the API's error), the clock's stamp, and pydantic's rendering of
   * validation errors.
   */
  datatype CalendarEnv = CalendarEnv(
    authenticate: Result<(), string>,
    parseTime: string -> Result<Instant, string>,
    insert: Event -> Result<Option<string>, string>,
    requestStamp: string,
    renderValidation: seq<string> -> string)

  const ScheduleFailurePrefix := "Failed to schedule meeting: "
  /** The marks the tools put in front of what they report: a cross for failures, a tick for success. */
  const FailureMark := "\U{274C}"
  const SuccessMark := "\U{2705}"
  const ValidationFailurePrefix := FailureMark + " Input validation failed: "

  /**
   * `schedule_meeting`: failing to authenticate raises; failing to parse the
   * start, convert the duration or insert the event, or an event without a
   * Meet link, returns the failure text; success returns `None`.
   */
  function ScheduleMeeting(summary: string, description: string, startTime: string, duration: PyValue,
                           attendees: Attendees, env: CalendarEnv): (r: ToolOutcome)
    ensures r.Raised? <==> env.authenticate.Failure?
    ensures r.Returned? && r.value.Some? ==>
              |r.value.value| >= |ScheduleFailurePrefix|
              && r.value.value[..|ScheduleFailurePrefix|] == ScheduleFailurePrefix
  {
    if env.authenticate.Failure? then Raised(env.authenticate.error)
    else
      var emails := match attendees
        case AttendeeText(s) => SplitAttendees(s)
        case AttendeeList(es) => es;
      match env.parseTime(startTime)
      case Failure(e) => Returned(Some(ScheduleFailurePrefix + e))
      case Success(start) =>
        match IntOf(duration)
        case Failure(e) => Returned(Some(ScheduleFailurePrefix + e))
        case Success(minutes) =>
          match env.insert(MeetingEvent(summary, description, start, minutes, emails, env.requestStamp))
          case Failure(e) => Returned(Some(ScheduleFailurePrefix + e))
          case Success(None) => Returned(Some(ScheduleFailurePrefix + "'hangoutLink'"))
          case Success(Some(_)) => Returned(None)
  }

  /**
   * A duration `int()` rejects returns the failure text with `int()`'s
   * message, and the calendar is never written: the result is the same
   * whatever the insert would do.
   */
  lemma BadDurationInsertsNothing(summary: string, description: string, startTime: string, duration: PyValue,
                                  attendees: Attendees, env: CalendarEnv,
                                  insert: Event -> Result<Option<string>, string>)
    requires env.authenticate.Success? && env.parseTime(startTime).Success? && IntOf(duration).Failure?
    ensures ScheduleMeeting(summary, description, startTime, duration, attendees, env)
            == Returned(Some(ScheduleFailurePrefix + IntOf(duration).error))
    ensures ScheduleMeeting(summary, description, startTime, duration, attendees, env.(insert := insert))
            == ScheduleMeeting(summary, description, startTime, duration, attendees, env)
  {
  }

  /**
   * `schedule_meeting` succeeds exactly when it can authenticate, parse the
   * start and convert the duration, and the calendar accepts the event built
   * from them, with the attendee string split on commas, and gives it a Meet link.
   */
  lemma ScheduleMeetingSucceedsIff(summary: string, description: string, startTime: string, duration: PyValue,
                                   attendees: Attendees, env: CalendarEnv)
    ensures ScheduleMeeting(summary, description, startTime, duration, attendees, env) == Returned(None)
            <==> env.authenticate.Success? && env.parseTime(startTime).Success? && IntOf(duration).Success?
                 && var emails := if attendees.AttendeeText? then SplitAttendees(attendees.text) else attendees.emails;
                 var event := MeetingEvent(summary, description, env.parseTime(startTime).value,
                                           IntOf(duration).value, emails, env.requestStamp);
                 env.insert(event).Success? && env.insert(event).value.Some?
  {
  }

  /**
   * `schedule_meeting_input_parser`: invalid input returns the validation
   * message; valid input goes to `schedule_meeting` with the attendees
   * already read as a list.
   */
  function ScheduleMeetingInputParser(input: map<string, PyValue>, env: CalendarEnv): (r: ToolOutcome)
    ensures ValidateMeetingInput(input).Failure? ==>
              r == Returned(Some(ValidationFailurePrefix + env.renderValidation(ValidateMeetingInput(input).error)))
  {
    match ValidateMeetingInput(input)
    case Failure(fields) => Returned(Some(ValidationFailurePrefix + env.renderValidation(fields)))
    case Success(m) =>
      ScheduleMeeting(m.summary, m.description, m.startTime, PyInt(m.durationMinutes), AttendeeList(m.attendees), env)
  }

  /**
   * Through the input parser the duration conversion cannot fail, and the
   * event invites exactly the addresses `parse_emails` read (" and " handled),
   * since `schedule_meeting` receives them as a list and keeps it.
   */
  lemma InputParserInvitesParsedAttendees(input: map<string, PyValue>, env: CalendarEnv, link: string)
    requires ValidateMeetingInput(input).Success?
    requires env.authenticate.Success?
    requires var m := ValidateMeetingInput(input).value;
             env.parseTime(m.startTime).Success?
             && env.insert(MeetingEvent(m.summary, m.description, env.parseTime(m.startTime).value,
                                        m.durationMinutes, ParseEmails(AttendeesOf(input["attendees_emails"])),
                                        env.requestStamp)) == Success(Some(link))
    ensures ScheduleMeetingInputParser(input, env) == Returned(None)
  {
  }

  /** Invalid input is answered without touching the calendar or its credentials. */
  lemma InvalidInputReachesNoCalendar(input: map<string, PyValue>, env: CalendarEnv, other: CalendarEnv)
    requires ValidateMeetingInput(input).Failure?
    requires other.renderValidation == env.renderValidation
    ensures ScheduleMeetingInputParser(input, other) == ScheduleMeetingInputParser(input, env)
    ensures ScheduleMeetingInputParser(input, env).Returned?
  {
  }

  const SlackUrl := "https://slack.com/api/chat.postMessage"
  const NoSlackTokenText := FailureMark + " SLACK_BOT_TOKEN not found in environment variables."

  /** The POST `send_message_on_slack` makes: URL, `Authorization` header and JSON payload. */
  datatype SlackRequest = SlackRequest(url: string, authorization: string, channel: string, text: string)

  /**
   * The body of Slack's answer: an object with its (truthy or not) `ok` field
   * and optional `error` string, or a body whose reading raises.
   */
  datatype SlackBody = SlackJson(ok: bool, error: Option<string>) | SlackUnreadable(reason: string)

  datatype HttpReply = HttpReply(status: int, body: SlackBody, text: string)

  /** The text returned for an answer other than 200: the status code, then the body's text. */
  function SlackErrorText(status: int, text: string): string {
    FailureMark + " Slack API error " + DecimalString(status) + ": " + text
  }

  /** The text returned once Slack has accepted the message. */
  function SentText(channel: string, message: string): string {
    SuccessMark + " Message sent to " + channel + ": " + message
  }

  /**
   * `send_message_on_slack`: no token, no request; otherwise the answer is
   * classified by status and `ok`. A transport failure, or a 200 whose body
   * cannot be read, raises.
   */
  function SendMessageOnSlack(token: Option<string>, channel: string, message: string,
                              post: SlackRequest -> Result<HttpReply, string>): (r: ToolOutcome)
    ensures r.Returned? ==> r.value.Some?
    ensures token.None? || token == Some("") ==> r == Returned(Some(NoSlackTokenText))
  {
    if token.None? || token.value == "" then Returned(Some(NoSlackTokenText))
    else
      match post(SlackRequest(SlackUrl, "Bearer " + token.value, channel, message))
      case Failure(e) => Raised(e)
      case Success(reply) =>
        if reply.status == 200 then
          match reply.body
          case SlackUnreadable(e) => Raised(e)
          case SlackJson(ok, error) =>
            if ok then Returned(Some(SentText(channel, message)))
            else Returned(Some(FailureMark + " Failed: " + error.GetOr("None")))
        else Returned(Some(SlackErrorText(reply.status, reply.text)))
  }

  /** Without a token the outcome is the same whatever the HTTP client would do: nothing is sent. */
  lemma SlackNoTokenMakesNoRequest(token: Option<string>, channel: string, message: string,
                                   post: SlackRequest -> Result<HttpReply, string>,
                                   other: SlackRequest -> Result<HttpReply, string>)
    requires token.None? || token == Some("")
    ensures SendMessageOnSlack(token, channel, message, post) == SendMessageOnSlack(token, channel, message, other)
  {
  }

  /**
   * With a token, exactly one request matters: the POST to `chat.postMessage`
   * carrying the bearer token, the channel and the message.
   */
  lemma SlackSendsOneRequest(token: string, channel: string, message: string,
                             post: SlackRequest -> Result<HttpReply, string>,
                             other: SlackRequest -> Result<HttpReply, string>)
    requires token != ""
    requires var req := SlackRequest(SlackUrl, "Bearer " + token, channel, message);
             other(req) == post(req)
    ensures SendMessageOnSlack(Some(token), channel, message, post)
            == SendMessageOnSlack(Some(token), channel, message, other)
  {
  }

  /**
   * The sent confirmation is returned exactly when Slack answered 200 with
   * `ok`; every other returned text starts with the failure mark instead.
   */
  lemma SlackSentIff(token: Option<string>, channel: string, message: string,
                     post: SlackRequest -> Result<HttpReply, string>)
    ensures var r := SendMessageOnSlack(token, channel, message, post);
            r == Returned(Some(SentText(channel, message)))
            <==> token.Some? && token.value != ""
                 && var a := post(SlackRequest(SlackUrl, "Bearer " + token.value, channel, message));
                 a.Success? && a.value.status == 200 && a.value.body.SlackJson? && a.value.body.ok
    ensures var r := SendMessageOnSlack(token, channel, message, post);
            r.Returned? && r != Returned(Some(SentText(channel, message))) ==> r.value.value[0] == '\U{274C}'
  {
    var sent := SentText(channel, message);
    assert sent[0] == '\U{2705}';
    if token.Some? && token.value != "" {
      var a := post(SlackRequest(SlackUrl, "Bearer " + token.value, channel, message));
      if a.Success? {
        var reply := a.value;
        if reply.status == 200 && reply.body.SlackJson? && !reply.body.ok {
          var t := FailureMark + " Failed: " + reply.body.error.GetOr("None");
          assert t[0] == '\U{274C}';
        } else if reply.status != 200 {
          var t := SlackErrorText(reply.status, reply.text);
          assert t == FailureMark + (" Slack API error " + DecimalString(reply.status) + ": " + reply.text);
          assert t[0] == '\U{274C}';
        }
      }
    } else {
      assert NoSlackTokenText[0] == '\U{274C}';
    }
  }

  /**
   * The other answers, once a token is set: a request that fails raises its
   * error, a 200 whose body cannot be read raises that error, and a 200
   * without `ok` returns the failure mark with Slack's `error`, or "None"
   * when Slack gave none.
   */
  lemma SlackOtherOutcomes(token: string, channel: string, message: string,
                           post: SlackRequest -> Result<HttpReply, string>)
    requires token != ""
    ensures var a := post(SlackRequest(SlackUrl, "Bearer " + token, channel, message));
            var r := SendMessageOnSlack(Some(token), channel, message, post);
            (a.Failure? ==> r == Raised(a.error))
            && (a.Success? && a.value.status == 200 && a.value.body.SlackUnreadable? ==>
                  r == Raised(a.value.body.reason))
            && (a.Success? && a.value.status == 200 && a.value.body.SlackJson? && !a.value.body.ok ==>
                  r == Returned(Some(FailureMark + " Failed: " + a.value.body.error.GetOr("None"))))
  {
  }

  /**
   * An answer other than 200 never raises. It returns the error text: the
   * fixed prefix, the status code (read back as the integer it was), then
   * ": " and the body's text, with nothing after it.
   */
  lemma SlackRejectionCarriesStatus(token: string, channel: string, message: string,
                                    post: SlackRequest -> Result<HttpReply, string>)
    requires token != ""
    requires var a := post(SlackRequest(SlackUrl, "Bearer " + token, channel, message));
             a.Success? && a.value.status != 200
    ensures var a := post(SlackRequest(SlackUrl, "Bearer " + token, channel, message));
            var r := SendMessageOnSlack(Some(token), channel, message, post);
            var prefix := FailureMark + " Slack API error ";
            var code := DecimalString(a.value.status);
            r == Returned(Some(SlackErrorText(a.value.status, a.value.text)))
            && r.value.value[..|prefix|] == prefix
            && ParseInt(r.value.value[|prefix|..|prefix| + |code|]) == Some(a.value.status)
            && r.value.value[|prefix| + |code|..] == ": " + a.value.text
  {
    var a := post(SlackRequest(SlackUrl, "Bearer " + token, channel, message));
    var prefix := FailureMark + " Slack API error ";
    var code := DecimalString(a.value.status);
    var t := prefix + code + ": " + a.value.text;
    assert t == SlackErrorText(a.value.status, a.value.text);
    assert t[|prefix|..|prefix| + |code|] == code;
    assert t[|prefix| + |code|..] == ": " + a.value.text;
    ParseDecimalString(a.value.status);
  }
}
