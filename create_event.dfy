/**
 * POST create-event: creates an event with its candidate dates, a public
 * share id and a secret admin key, of which only the SHA-256 hash is stored.
 */
module CreateEvent {
  import opened Wrappers
  import opened Types
  import opened Seqs
  import Text
  import opened SharedUtils
  import opened EventStore

  /** The JSON body `{title, memo?, dates}`; `dates` is kept as parsed. */
  datatype Request = Request(title: Option<string>, memo: Option<string>, dates: JsValue)

  const MaxTitleLength: int := 200
  const MaxDates: int := 7
  const ShareIdLength: int := 10
  const AdminKeyLength: int := 32
  const DefaultBaseUrl: string := "https://yourdomain.com"

  function Fields(body: Request): map<string, JsValue>
  {
    map["title" := OptionalString(body.title), "memo" := OptionalString(body.memo), "dates" := body.dates]
  }

  /** `dateRegex.test(date)`, which tests the element's string form. */
  predicate ValidDate(date: JsValue)
  {
    Text.IsDateFormat(JsToString(date))
  }

  function DateError(date: JsValue): string
  {
    "Invalid date format: " + JsToString(date) + ". Use YYYY-MM-DD"
  }

  /** The message for the first malformed date, if any. */
  function FirstDateError(dates: seq<JsValue>): (r: Option<string>)
    ensures r.None? <==> forall k :: 0 <= k < |dates| ==> ValidDate(dates[k])
    ensures r.Some? ==> exists k :: 0 <= k < |dates| && !ValidDate(dates[k]) && r.value == DateError(dates[k])
  {
    var i := FirstIndex(dates, (d: JsValue) => !ValidDate(d));
    if i < 0 then None else Some(DateError(dates[i]))
  }

  /** The date-checking loop: returns at the first date that does not match the pattern. */
  method CheckDates(dates: seq<JsValue>) returns (error: Option<string>)
    ensures error == FirstDateError(dates)
  {
    for i := 0 to |dates|
      invariant forall k :: 0 <= k < i ==> ValidDate(dates[k])
    {
      if !ValidDate(dates[i]) {
        return Some(DateError(dates[i]));
      }
    }
    return None;
  }

  /**
   * The checks on the body, in the handler's order: a JSON object, a
   * non-empty title of at most 200 characters, one to seven dates, each of
   * the form YYYY-MM-DD.
   */
  function Validate(body: Option<Request>): (r: Outcome<string>)
    ensures r.Pass? <==> && body.Some? && body.value.title.Some? && 1 <= |body.value.title.value| <= MaxTitleLength
                         && body.value.dates.Arr? && 1 <= |body.value.dates.items| <= MaxDates
                         && forall k :: 0 <= k < |body.value.dates.items| ==> ValidDate(body.value.dates.items[k])
  {
    if body.None? then Fail("Invalid JSON body")
    else
      var b := body.value;
      var required := ValidateRequired(Fields(b), ["title", "dates"]);
      if required.Fail? then
        assert b.title.None? || b.title.value == "" || Falsy(b.dates) by {
          var k :| 0 <= k < 2 && Falsy(Lookup(Fields(b), ["title", "dates"][k]));
          assert "dates" != "title" && "dates" != "memo" && "title" != "memo";
        }
        Fail(required.error)
      else
        assert !Falsy(Lookup(Fields(b), ["title", "dates"][0])) by {
          assert "title" != "memo" && "title" != "dates";
        }
        var title := b.title.value;
        if |title| > MaxTitleLength then Fail("Title must be 200 characters or less")
        else if !b.dates.Arr? || |b.dates.items| == 0 then Fail("At least one date is required")
        else if |b.dates.items| > MaxDates then Fail("Maximum 7 dates allowed")
        else match FirstDateError(b.dates.items)
          case Some(message) => Fail(message)
          case None => Pass
  }

  // ---------------------------------------------------------------------
  // What gets written

  /** `generateBase62Id(10)` for the given choices of `Math.random`. */
  function ShareIdOf(picks: seq<int>): (s: string)
    requires |picks| >= ShareIdLength && forall k :: 0 <= k < |picks| ==> 0 <= picks[k] < |Base62Alphabet|
    ensures |s| == ShareIdLength && forall k :: 0 <= k < |s| ==> s[k] in Base62Alphabet
  {
    seq(ShareIdLength, k requires 0 <= k < ShareIdLength => Base62Alphabet[picks[k]])
  }

  /** `memo || null`: an absent or empty memo is stored as null. */
  function StoredMemo(memo: Option<string>): Option<string>
  {
    if memo.Some? && memo.value != "" then memo else None
  }

  function NewEventRow(eventId: string, body: Request, shareId: string, adminKeyHash: string, now: int): EventRow
    requires body.title.Some?
  {
    EventRow(eventId, body.title.value, StoredMemo(body.memo), adminKeyHash, shareId, now, now)
  }

  /** `dates.map((date, index) => ({event_id, date, sort_index: index}))`; `optionId(i)` is the i-th row's id. */
  function OptionRows(eventId: string, dates: seq<JsValue>, optionId: int -> string): (rows: seq<OptionRow>)
    ensures |rows| == |dates|
  {
    seq(|dates|, i requires 0 <= i < |dates| => OptionRow(optionId(i), eventId, JsToString(dates[i]), i))
  }

  function LinkRows(eventId: string, shareId: string, adminKey: string, linkId: int -> string): seq<LinkRow>
  {
    [LinkRow(linkId(0), eventId, ShareLink, shareId), LinkRow(linkId(1), eventId, AdminLink, adminKey)]
  }

  /** `req.headers.get('origin') || 'https://yourdomain.com'`. */
  function BaseUrl(origin: Option<string>): string
  {
    if origin.Some? && origin.value != "" then origin.value else DefaultBaseUrl
  }

  function AdminUrl(base: string, eventId: string, adminKey: string): string
  {
    base + "/scheduler/e/" + eventId + "?k=" + adminKey
  }

  function ShareUrl(base: string, shareId: string): string
  {
    base + "/scheduler/s/" + shareId
  }

  predicate EventInsertOk(events: seq<EventRow>, row: EventRow, fault: bool)
  {
    !fault && row.id !in EventIds(events) && forall k :: 0 <= k < |events| ==> events[k].shareId != row.shareId
  }

  /** The tables the handler writes, with its response. */
  datatype Effect = Effect(response: Response, events: seq<EventRow>, options: seq<OptionRow>, links: seq<LinkRow>)

  /**
   * The randomness and the database's answers: `eventId` is
   * `crypto.randomUUID()`, `picks` the ten `Math.random` choices of the share
   * id, `adminBytes` the sixteen random bytes of the admin key, `sha256` the
   * digest of a string's UTF-8 bytes, `now` the insert time, `optionId` and
   * `linkId` the ids the database assigns, and the faults the database
   * reporting an error (`dbError` is its serialized error object).
   */
  datatype Environment = Environment(
    eventId: string, picks: seq<int>, adminBytes: seq<byte>, sha256: string -> seq<byte>, now: int,
    optionId: int -> string, linkId: int -> string,
    eventFault: bool, optionsFault: bool, rollbackFault: bool, linksFault: bool, dbError: string)

  predicate WellFormed(env: Environment)
  {
    && |env.picks| >= ShareIdLength && (forall k :: 0 <= k < |env.picks| ==> 0 <= env.picks[k] < |Base62Alphabet|)
    && |env.adminBytes| == AdminKeyLength / 2
  }

  /** The admin key handed out: 32 lowercase hex digits of the random bytes. */
  function AdminKeyOf(env: Environment): (key: string)
    requires WellFormed(env)
    ensures |key| == AdminKeyLength && forall k :: 0 <= k < |key| ==> key[k] in HexDigits
  {
    GenerateRandomHex(AdminKeyLength, env.adminBytes)
  }

  /** The writes once the body is valid: the event, then its options, then its links. */
  function Write(events: seq<EventRow>, options: seq<OptionRow>, links: seq<LinkRow>,
                 b: Request, origin: Option<string>, env: Environment): Effect
    requires WellFormed(env) && b.title.Some? && b.dates.Arr?
  {
    var shareId := ShareIdOf(env.picks);
    var adminKey := AdminKeyOf(env);
    var row := NewEventRow(env.eventId, b, shareId, HashString(env.sha256, adminKey), env.now);
    if !EventInsertOk(events, row, env.eventFault) then
      Effect(ErrorResponse("Failed to create event", 500, Some(env.dbError)), events, options, links)
    else AfterEvent(events, row, options, links, b.dates.items, shareId, adminKey, origin, env)
  }

  /** Once the event row is in: its options, rolled back on failure, then the rest. */
  function AfterEvent(events: seq<EventRow>, row: EventRow, options: seq<OptionRow>, links: seq<LinkRow>,
                      dates: seq<JsValue>, shareId: string, adminKey: string, origin: Option<string>, env: Environment): Effect
  {
    var optionRows := OptionRows(env.eventId, dates, env.optionId);
    if env.optionsFault || !UniqueBy(options + optionRows, OptionId) then
      Effect(ErrorResponse("Failed to create options", 500, Some(env.dbError)),
             if env.rollbackFault then events + [row] else events, options, links)
    else Publish(events + [row], options + optionRows, links, shareId, adminKey, origin, env)
  }

  /** The link rows, whose failure is only logged, and the 201 answer with both URLs. */
  function Publish(events: seq<EventRow>, options: seq<OptionRow>, links: seq<LinkRow>,
                   shareId: string, adminKey: string, origin: Option<string>, env: Environment): Effect
  {
    var linkRows := LinkRows(env.eventId, shareId, adminKey, env.linkId);
    var base := BaseUrl(origin);
    Effect(JsonResponse(CreatedEventBody(env.eventId, shareId, adminKey,
                                         AdminUrl(base, env.eventId, adminKey), ShareUrl(base, shareId)), 201),
           events, options,
           if env.linksFault || !UniqueBy(links + linkRows, LinkId) then links else links + linkRows)
  }

  /** The whole handler as a function of the tables before the call. */
  function Create(events: seq<EventRow>, options: seq<OptionRow>, links: seq<LinkRow>,
                  body: Option<Request>, origin: Option<string>, env: Environment): Effect
    requires WellFormed(env)
  {
    match Validate(body)
    case Fail(message) => Effect(ErrorResponse(message), events, options, links)
    case Pass => Write(events, options, links, body.value, origin, env)
  }

  // ---------------------------------------------------------------------
  // Properties

  /** A 201 answer means the body passed every check and the event row and its option rows went in. */
  lemma CreateSucceeded(events: seq<EventRow>, options: seq<OptionRow>, links: seq<LinkRow>,
                        body: Option<Request>, origin: Option<string>, env: Environment)
    requires WellFormed(env)
    requires Create(events, options, links, body, origin, env).response.status == 201
    ensures Validate(body).Pass? && body.Some? && body.value.title.Some? && body.value.dates.Arr?
    ensures var shareId := ShareIdOf(env.picks);
            var adminKey := AdminKeyOf(env);
            var row := NewEventRow(env.eventId, body.value, shareId, HashString(env.sha256, adminKey), env.now);
      && EventInsertOk(events, row, env.eventFault)
      && Create(events, options, links, body, origin, env)
         == Publish(events + [row], options + OptionRows(env.eventId, body.value.dates.items, env.optionId),
                    links, shareId, adminKey, origin, env)
  {
  }

  /**
   * A 201 answer means the event is stored with the hash of the returned
   * admin key, under the returned share id, after the rows already there.
   */
  lemma CreatedEventIsStored(events: seq<EventRow>, options: seq<OptionRow>, links: seq<LinkRow>,
                             body: Option<Request>, origin: Option<string>, env: Environment)
    requires WellFormed(env)
    requires Create(events, options, links, body, origin, env).response.status == 201
    ensures var eff := Create(events, options, links, body, origin, env);
            var created := eff.response.body;
      && created.CreatedEventBody? && created.eventId == env.eventId
      && |eff.events| == |events| + 1 && eff.events[..|events|] == events
      && var row := eff.events[|events|];
         && row.id == env.eventId && row.shareId == created.shareId
         && row.adminKeyHash == HashString(env.sha256, created.adminKey)
         && row.title == body.value.title.value && row.memo == StoredMemo(body.value.memo)
  {
    CreateSucceeded(events, options, links, body, origin, env);
    var row := NewEventRow(env.eventId, body.value, ShareIdOf(env.picks), HashString(env.sha256, AdminKeyOf(env)), env.now);
    assert (events + [row])[..|events|] == events;
  }

  /**
   * After a 201 answer the event's options are exactly the dates sent, in
   * order, with sort indices 0, 1, 2, ...
   */
  lemma CreatedOptionsAreTheDates(events: seq<EventRow>, options: seq<OptionRow>, links: seq<LinkRow>,
                                  body: Option<Request>, origin: Option<string>, env: Environment)
    requires WellFormed(env) && OptionsValid(options, events)
    requires Create(events, options, links, body, origin, env).response.status == 201
    ensures var mine := Filter(Create(events, options, links, body, origin, env).options, OptionOf(env.eventId));
      && |mine| == |body.value.dates.items|
      && forall i :: 0 <= i < |mine| ==>
           mine[i].sortIndex == i && mine[i].date == JsToString(body.value.dates.items[i])
  {
    CreateSucceeded(events, options, links, body, origin, env);
    var rows := OptionRows(env.eventId, body.value.dates.items, env.optionId);
    var p := OptionOf(env.eventId);
    assert env.eventId !in EventIds(events) by {
      var row := NewEventRow(env.eventId, body.value, ShareIdOf(env.picks), HashString(env.sha256, AdminKeyOf(env)), env.now);
      assert EventInsertOk(events, row, env.eventFault);
    }
    assert forall k :: 0 <= k < |options| ==> !p(options[k]);
    FilterNone(options, p);
    FilterAppend(options, rows, p);
    FilterAll(rows, p);
    assert Filter(Create(events, options, links, body, origin, env).options, p) == rows;
    OptionRowsFollowDates(env.eventId, body.value.dates.items, env.optionId);
  }

  lemma OptionRowsFollowDates(eventId: string, dates: seq<JsValue>, optionId: int -> string)
    ensures var rows := OptionRows(eventId, dates, optionId);
      forall i :: 0 <= i < |rows| ==> rows[i].sortIndex == i && rows[i].date == JsToString(dates[i])
  {
  }

  /** When the options cannot be written, a successful rollback leaves every table as it was. */
  lemma FailedOptionsRollBack(events: seq<EventRow>, options: seq<OptionRow>, links: seq<LinkRow>,
                              body: Option<Request>, origin: Option<string>, env: Environment)
    requires WellFormed(env) && !env.rollbackFault
    requires Create(events, options, links, body, origin, env).response == ErrorResponse("Failed to create options", 500, Some(env.dbError))
    ensures Create(events, options, links, body, origin, env) == Effect(ErrorResponse("Failed to create options", 500, Some(env.dbError)), events, options, links)
  {
  }

  /** The returned credentials have the promised shapes. */
  lemma CredentialShapes(events: seq<EventRow>, options: seq<OptionRow>, links: seq<LinkRow>,
                         body: Option<Request>, origin: Option<string>, env: Environment)
    requires WellFormed(env)
    requires Create(events, options, links, body, origin, env).response.status == 201
    ensures var created := Create(events, options, links, body, origin, env).response.body;
      && |created.shareId| == 10 && (forall k :: 0 <= k < 10 ==> created.shareId[k] in Base62Alphabet)
      && |created.adminKey| == 32 && (forall k :: 0 <= k < 32 ==> created.adminKey[k] in HexDigits)
      && created.shareUrl == BaseUrl(origin) + "/scheduler/s/" + created.shareId
      && created.adminUrl == BaseUrl(origin) + "/scheduler/e/" + created.eventId + "?k=" + created.adminKey
  {
  }

  /**
   * A 201 answer whose link insert went through appends the share link and
   * the admin link, which holds the admin key in plain text; a failed link
   * insert leaves the links table as it was and still answers 201.
   */
  lemma CreatedLinksHoldTheKey(events: seq<EventRow>, options: seq<OptionRow>, links: seq<LinkRow>,
                               body: Option<Request>, origin: Option<string>, env: Environment)
    requires WellFormed(env)
    requires Create(events, options, links, body, origin, env).response.status == 201
    ensures var eff := Create(events, options, links, body, origin, env);
      var created := eff.response.body;
      || eff.links == links
      || eff.links == links + [LinkRow(env.linkId(0), env.eventId, ShareLink, created.shareId),
                               LinkRow(env.linkId(1), env.eventId, AdminLink, created.adminKey)]
    ensures env.linksFault ==> Create(events, options, links, body, origin, env).links == links
  {
    CreateSucceeded(events, options, links, body, origin, env);
  }

  // ---------------------------------------------------------------------
  // The handler

  /** The handler's checks of the body, in order. */
  method CheckBody(body: Option<Request>) returns (check: Outcome<string>)
    ensures check == Validate(body)
  {
    if body.None? {
      return Fail("Invalid JSON body");
    }
    var b := body.value;
    var required := ValidateRequired(Fields(b), ["title", "dates"]);
    if required.Fail? {
      return Fail(required.error);
    }
    var title := b.title.value;
    if |title| > MaxTitleLength {
      return Fail("Title must be 200 characters or less");
    }
    if !b.dates.Arr? || |b.dates.items| == 0 {
      return Fail("At least one date is required");
    }
    var dates := b.dates.items;
    if |dates| > MaxDates {
      return Fail("Maximum 7 dates allowed");
    }
    var badDate := CheckDates(dates);
    if badDate.Some? {
      return Fail(badDate.value);
    }
    return Pass;
  }

  /** The inserts, with the rollback of the event when its options cannot be written. */
  method WriteEvent(store: Store, b: Request, origin: Option<string>, env: Environment) returns (r: Response)
    requires store.Valid() && WellFormed(env) && b.title.Some? && b.dates.Arr?
    modifies store
    ensures store.Valid()
    ensures Effect(r, store.events, store.options, store.links)
         == Write(old(store.events), old(store.options), old(store.links), b, origin, env)
    ensures store.participants == old(store.participants) && store.votes == old(store.votes)
  {
    var shareId := GenerateBase62Id(ShareIdLength, env.picks);
    assert shareId == ShareIdOf(env.picks);
    var adminKey := GenerateRandomHex(AdminKeyLength, env.adminBytes);
    var adminKeyHash := HashString(env.sha256, adminKey);

    var row := NewEventRow(env.eventId, b, shareId, adminKeyHash, env.now);
    ghost var events0, options0, participants0, votes0, links0 :=
      store.events, store.options, store.participants, store.votes, store.links;
    var eventOk := store.InsertEvent(row, env.eventFault);
    if !eventOk {
      assert !EventInsertOk(events0, row, env.eventFault);
      return ErrorResponse("Failed to create event", 500, Some(env.dbError));
    }
    assert EventInsertOk(events0, row, env.eventFault);
    RollbackRestores(events0, options0, participants0, votes0, links0, row);
    r := AfterEventIn(store, events0, row, b.dates.items, shareId, adminKey, origin, env);
  }

  /** The option inserts after the event row went in, and the rollback when they fail. */
  method AfterEventIn(store: Store, ghost events0: seq<EventRow>, row: EventRow, dates: seq<JsValue>,
                      shareId: string, adminKey: string, origin: Option<string>, env: Environment) returns (r: Response)
    requires store.Valid() && store.events == events0 + [row] && row.id == env.eventId
    requires EventsWithout(store.events, row.id) == events0
    requires OptionsWithout(store.options, row.id) == store.options
    requires ParticipantsWithout(store.participants, row.id) == store.participants
    requires VotesWithout(store.votes, row.id) == store.votes
    requires LinksWithout(store.links, row.id) == store.links
    modifies store
    ensures store.Valid()
    ensures Effect(r, store.events, store.options, store.links)
         == AfterEvent(events0, row, old(store.options), old(store.links), dates, shareId, adminKey, origin, env)
    ensures store.participants == old(store.participants) && store.votes == old(store.votes)
  {
    var optionRows := OptionRows(env.eventId, dates, env.optionId);
    assert env.eventId in EventIds(store.events) by {
      assert store.events[|events0|] == row;
    }
    assert forall k :: 0 <= k < |optionRows| ==> optionRows[k].eventId in EventIds(store.events) by {
      assert forall k :: 0 <= k < |optionRows| ==> optionRows[k].eventId == env.eventId;
    }
    var optionsOk := store.InsertOptions(optionRows, env.optionsFault);
    if !optionsOk {
      var _ := store.DeleteEvent(env.eventId, env.rollbackFault);
      return ErrorResponse("Failed to create options", 500, Some(env.dbError));
    }
    r := PublishIn(store, shareId, adminKey, origin, env);
  }

  /** The link inserts and the answer, once the event and its options are stored. */
  method PublishIn(store: Store, shareId: string, adminKey: string, origin: Option<string>, env: Environment)
    returns (r: Response)
    requires store.Valid() && env.eventId in EventIds(store.events)
    modifies store
    ensures store.Valid()
    ensures Effect(r, store.events, store.options, store.links)
         == Publish(old(store.events), old(store.options), old(store.links), shareId, adminKey, origin, env)
    ensures store.participants == old(store.participants) && store.votes == old(store.votes)
  {
    var linkRows := LinkRows(env.eventId, shareId, adminKey, env.linkId);
    assert forall k :: 0 <= k < |linkRows| ==> linkRows[k].eventId in EventIds(store.events) by {
      assert linkRows[0].eventId == linkRows[1].eventId == env.eventId;
    }
    var _ := store.InsertLinks(linkRows, env.linksFault);

    var base := BaseUrl(origin);
    return JsonResponse(CreatedEventBody(env.eventId, shareId, adminKey,
                                         AdminUrl(base, env.eventId, adminKey), ShareUrl(base, shareId)), 201);
  }

  /** The handler against the store; participants and votes are never touched. */
  method HandleCreateEvent(store: Store, body: Option<Request>, origin: Option<string>, env: Environment)
    returns (r: Response)
    requires store.Valid() && WellFormed(env)
    modifies store
    ensures store.Valid()
    ensures Effect(r, store.events, store.options, store.links)
         == Create(old(store.events), old(store.options), old(store.links), body, origin, env)
    ensures store.participants == old(store.participants) && store.votes == old(store.votes)
  {
    var check := CheckBody(body);
    if check.Fail? {
      return ErrorResponse(check.error);
    }
    r := WriteEvent(store, body.value, origin, env);
  }
}
