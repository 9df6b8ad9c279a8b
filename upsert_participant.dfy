/**
 * POST upsert-participant/events/{shareId}/participants: registers a
 * participant of an event, or renames the one already registered from the
 * same device.
 */
module UpsertParticipant {
  import opened Wrappers
  import opened Types
  import opened Seqs
  import Text
  import opened SharedUtils
  import opened Requests
  import opened EventStore

  /** The JSON body `{nickname, device_hash, participant_token?}`. */
  datatype Request = Request(nickname: Option<string>, deviceHash: Option<string>, participantToken: Option<string>)

  const MaxRequests: int := 10
  const WindowMs: int := 60000
  const MaxSuffix: int := 100

  function ShareIdOf(path: string): string
  {
    SegmentAfterEvents(path)
  }

  function LimitKey(path: string, forwardedFor: Option<string>): string
  {
    RateLimitKey("upsert-participant", ClientIp(forwardedFor), ShareIdOf(path))
  }

  /** The request has a share id and the rate limiter lets it through. */
  predicate Accepted(records: map<string, RateRecord>, path: string, forwardedFor: Option<string>, now: int)
  {
    ShareIdOf(path) != "" && Admit(records, LimitKey(path, forwardedFor), MaxRequests, WindowMs, now).1
  }

  /** The object `validateRequired` inspects. */
  function Fields(body: Request): map<string, JsValue>
  {
    map["nickname" := OptionalString(body.nickname), "device_hash" := OptionalString(body.deviceHash),
        "participant_token" := OptionalString(body.participantToken)]
  }

  /**
   * The checks on the body, in the handler's order: it must be a JSON
   * object, `nickname` and `device_hash` must be non-empty, the nickname at
   * most 16 characters and the device hash at least 32.
   */
  function Validate(body: Option<Request>): (r: Outcome<string>)
    ensures r.Pass? <==> && body.Some?
                         && body.value.nickname.Some? && 1 <= |body.value.nickname.value| <= 16
                         && body.value.deviceHash.Some? && |body.value.deviceHash.value| >= 32
  {
    if body.None? then Fail("Invalid JSON body")
    else
      var b := body.value;
      var required := ValidateRequired(Fields(b), ["nickname", "device_hash"]);
      if required.Fail? then
        assert b.nickname.None? || b.nickname.value == "" || b.deviceHash.None? || b.deviceHash.value == "" by {
          var k :| 0 <= k < 2 && Falsy(Lookup(Fields(b), ["nickname", "device_hash"][k]));
          assert "device_hash" != "nickname";
        }
        Fail(required.error)
      else
        assert Lookup(Fields(b), "nickname") == OptionalString(b.nickname);
        assert !Falsy(Lookup(Fields(b), ["nickname", "device_hash"][0]));
        assert !Falsy(Lookup(Fields(b), ["nickname", "device_hash"][1]));
        var nickname := b.nickname.value;
        var deviceHash := b.deviceHash.value;
        if |nickname| < 1 || |nickname| > 16 then Fail("Nickname must be between 1 and 16 characters")
        else if |deviceHash| < 32 then Fail("Invalid device hash")
        else Pass
  }

  /** The event the share id names. */
  function TargetEvent(events: seq<EventRow>, path: string): Option<EventRow>
  {
    FindEventByShareId(events, ShareIdOf(path))
  }

  // ---------------------------------------------------------------------
  // Nickname collisions

  /** The suffix-th candidate: `nickname`, then `${nickname}2`, `${nickname}3`, ... */
  function Candidate(nickname: string, suffix: int): string
  {
    if suffix <= 1 then nickname else nickname + Text.NatToString(suffix)
  }

  /** Some participant of the event already uses `name`. */
  predicate NicknameTaken(participants: seq<ParticipantRow>, eventId: string, name: string)
  {
    exists k :: 0 <= k < |participants| && participants[k].eventId == eventId && participants[k].nickname == name
  }

  /** `.eq('event_id', eventId).eq('nickname', name)`: the rows the collision query selects. */
  function NamedIn(eventId: string, name: string): ParticipantRow -> bool
  {
    (p: ParticipantRow) => p.eventId == eventId && p.nickname == name
  }

  /**
   * What the handler's collision query reports as written: `.single()` yields
   * a row only when EXACTLY one participant of the event has the name; with
   * none or with several it yields an error and no data.
   */
  function CollisionAsWritten(participants: seq<ParticipantRow>, eventId: string, name: string): bool
  {
    Count(participants, NamedIn(eventId, name)) == 1
  }

  /** The collision test the handler's loop runs, as a predicate on candidates. */
  function QueryReportsCollision(participants: seq<ParticipantRow>, eventId: string): string -> bool
  {
    (name: string) => CollisionAsWritten(participants, eventId, name)
  }

  /** No two participants of the event share a nickname. */
  predicate NicknamesDistinct(participants: seq<ParticipantRow>, eventId: string)
  {
    forall i, j :: 0 <= i < j < |participants| && participants[i].eventId == eventId && participants[j].eventId == eventId
      ==> participants[i].nickname != participants[j].nickname
  }

  /** While the event's nicknames are distinct, the query as written reports exactly the names in use. */
  lemma CollisionRulesAgree(participants: seq<ParticipantRow>, eventId: string, name: string)
    requires NicknamesDistinct(participants, eventId)
    ensures CollisionAsWritten(participants, eventId, name) == NicknameTaken(participants, eventId, name)
  {
    var p := NamedIn(eventId, name);
    CountAtMostOne(participants, p);
    CountPositive(participants, p);
    if NicknameTaken(participants, eventId, name) {
      var k :| 0 <= k < |participants| && participants[k].eventId == eventId && participants[k].nickname == name;
      assert p(participants[k]);
    }
  }

  /** The first candidate from `suffix` on (up to 100) that `taken` does not report, if any. */
  function FirstFree(taken: string -> bool, nickname: string, suffix: int): Option<string>
    requires suffix >= 1
    decreases MaxSuffix + 1 - suffix
  {
    if suffix > MaxSuffix then None
    else if !taken(Candidate(nickname, suffix)) then Some(Candidate(nickname, suffix))
    else FirstFree(taken, nickname, suffix + 1)
  }

  /** FirstFree fails exactly when all of `nickname`, `nickname2`, ..., `nickname100` are taken. */
  lemma {:induction false} FirstFreeFailsIffAllTaken(taken: string -> bool, nickname: string, suffix: int)
    requires 1 <= suffix
    ensures FirstFree(taken, nickname, suffix).None? <==>
      forall s :: suffix <= s <= MaxSuffix ==> taken(Candidate(nickname, s))
    decreases MaxSuffix + 1 - suffix
  {
    if suffix <= MaxSuffix {
      var r := FirstFree(taken, nickname, suffix);
      if taken(Candidate(nickname, suffix)) {
        assert r == FirstFree(taken, nickname, suffix + 1);
        FirstFreeFailsIffAllTaken(taken, nickname, suffix + 1);
        if r.None? {
          forall s | suffix <= s <= MaxSuffix ensures taken(Candidate(nickname, s)) {
            if s != suffix {
              assert suffix + 1 <= s;
            }
          }
        } else {
          var s :| suffix + 1 <= s <= MaxSuffix && !taken(Candidate(nickname, s));
          assert suffix <= s;
        }
      } else {
        assert r.Some?;
      }
    }
  }

  /** FirstFree picks the free candidate with the least suffix. */
  lemma {:induction false} FirstFreeIsLeast(taken: string -> bool, nickname: string, suffix: int)
    requires 1 <= suffix
    ensures FirstFree(taken, nickname, suffix).Some? ==>
      exists s :: suffix <= s <= MaxSuffix && FirstFree(taken, nickname, suffix).value == Candidate(nickname, s)
        && !taken(Candidate(nickname, s))
        && forall t :: suffix <= t < s ==> taken(Candidate(nickname, t))
    decreases MaxSuffix + 1 - suffix
  {
    if suffix <= MaxSuffix {
      var r := FirstFree(taken, nickname, suffix);
      if taken(Candidate(nickname, suffix)) {
        assert r == FirstFree(taken, nickname, suffix + 1);
        FirstFreeIsLeast(taken, nickname, suffix + 1);
        if r.Some? {
          var s :| suffix + 1 <= s <= MaxSuffix && r.value == Candidate(nickname, s)
            && !taken(Candidate(nickname, s))
            && forall t :: suffix + 1 <= t < s ==> taken(Candidate(nickname, t));
          assert forall t :: suffix <= t < s ==> taken(Candidate(nickname, t));
        }
      } else {
        assert r.value == Candidate(nickname, suffix);
      }
    }
  }

  /**
   * The collision loop: tries `nickname`, `nickname2`, ..., `nickname100`
   * and stops at the first one `taken` does not report.
   */
  method ResolveNickname(taken: string -> bool, nickname: string) returns (finalNickname: Option<string>)
    ensures finalNickname == FirstFree(taken, nickname, 1)
  {
    var name := nickname;
    var suffix := 1;
    while true
      invariant 1 <= suffix <= MaxSuffix
      invariant name == Candidate(nickname, suffix)
      invariant FirstFree(taken, nickname, suffix) == FirstFree(taken, nickname, 1)
      decreases MaxSuffix - suffix
    {
      if !taken(name) {
        break;
      }
      suffix := suffix + 1;
      name := nickname + Text.NatToString(suffix);
      if suffix > MaxSuffix {
        return None;
      }
    }
    return Some(name);
  }

  /** Two collision tests that agree on every name pick the same candidate. */
  lemma {:induction false} FirstFreeSame(taken: string -> bool, other: string -> bool, nickname: string, suffix: int)
    requires 1 <= suffix
    requires forall s :: suffix <= s <= MaxSuffix ==> taken(Candidate(nickname, s)) == other(Candidate(nickname, s))
    ensures FirstFree(taken, nickname, suffix) == FirstFree(other, nickname, suffix)
    decreases MaxSuffix + 1 - suffix
  {
    if suffix <= MaxSuffix {
      FirstFreeSame(taken, other, nickname, suffix + 1);
    }
  }

  /** The nickname a new participant gets, as the code picks it: the first candidate the query does not report. */
  function NicknameAsWritten(participants: seq<ParticipantRow>, eventId: string, nickname: string): Option<string>
  {
    FirstFree(QueryReportsCollision(participants, eventId), nickname, 1)
  }

  /** The nickname a new participant should get: the first candidate nobody in the event uses. */
  function NewNickname(participants: seq<ParticipantRow>, eventId: string, nickname: string): Option<string>
  {
    FirstFree((name: string) => NicknameTaken(participants, eventId, name), nickname, 1)
  }

  /** While the event's nicknames are distinct, the code's choice is the intended one. */
  lemma NicknameRulesAgree(participants: seq<ParticipantRow>, eventId: string, nickname: string)
    requires NicknamesDistinct(participants, eventId)
    ensures NicknameAsWritten(participants, eventId, nickname) == NewNickname(participants, eventId, nickname)
  {
    var taken := QueryReportsCollision(participants, eventId);
    var used := (name: string) => NicknameTaken(participants, eventId, name);
    forall s | 1 <= s <= MaxSuffix ensures taken(Candidate(nickname, s)) == used(Candidate(nickname, s)) {
      CollisionRulesAgree(participants, eventId, Candidate(nickname, s));
    }
    FirstFreeSame(taken, used, nickname, 1);
  }

  /** A nickname given to a new participant is unused in the event, so inserting keeps it unique. */
  lemma NewNicknameIsFree(participants: seq<ParticipantRow>, eventId: string, nickname: string)
    requires NewNickname(participants, eventId, nickname).Some?
    ensures !NicknameTaken(participants, eventId, NewNickname(participants, eventId, nickname).value)
  {
    FirstFreeIsLeast((name: string) => NicknameTaken(participants, eventId, name), nickname, 1);
  }

  /**
   * The query as written misses a collision once two participants share a
   * name (which a rename on the update path can cause): a new device asking
   * for `Alice` is registered as `Alice` a third time, where the intended
   * rule gives `Alice2`.
   */
  lemma DuplicateNameSlipsThrough()
    ensures var ps := [ParticipantRow("p1", "e", "Alice", "device-a", 0),
                       ParticipantRow("p2", "e", "Alice", "device-b", 1)];
      && NicknameTaken(ps, "e", "Alice")
      && NicknameAsWritten(ps, "e", "Alice") == Some("Alice")
      && Register(ps, "e", "Alice", "device-c", 5, "p3", "tok", false, false).response
           == JsonResponse(ParticipantBody("p3", "tok", "Alice"), 201)
      && NewNickname(ps, "e", "Alice") == Some("Alice2")
  {
    var ps := [ParticipantRow("p1", "e", "Alice", "device-a", 0),
               ParticipantRow("p2", "e", "Alice", "device-b", 1)];
    assert ps[1..][1..] == [];
    assert Count(ps, NamedIn("e", "Alice")) == 2;
    assert Candidate("Alice", 2) == "Alice2" by {
      assert Text.NatToString(2) == "2";
    }
    assert !NicknameTaken(ps, "e", "Alice2") by {
      assert "Alice2" != "Alice";
    }
    assert NicknameTaken(ps, "e", "Alice") by {
      assert ps[0].eventId == "e" && ps[0].nickname == "Alice";
    }
    assert FindParticipantByDevice(ps, "e", "device-c").None? by {
      assert "device-c" != "device-a" && "device-c" != "device-b";
      assert !ParticipantOnDevice("e", "device-c")(ps[0]) && !ParticipantOnDevice("e", "device-c")(ps[1]);
    }
    assert IdFresh(ps, "p3") by {
      assert "p3" != "p1" && "p3" != "p2";
    }
  }

  // ---------------------------------------------------------------------
  // The handler

  const RateLimitMessage: string := "Rate limit exceeded. Please try again later."

  /** A response together with the participants table it leaves behind. */
  datatype Effect = Effect(response: Response, participants: seq<ParticipantRow>)

  /** `update({nickname}).eq('id', id)`: every row with that id gets the new nickname. */
  function Renamed(participants: seq<ParticipantRow>, id: string, nickname: string): (r: seq<ParticipantRow>)
    ensures |r| == |participants|
  {
    seq(|participants|, k requires 0 <= k < |participants| =>
      if participants[k].id == id then participants[k].(nickname := nickname) else participants[k])
  }

  predicate IdFresh(participants: seq<ParticipantRow>, id: string)
  {
    forall k :: 0 <= k < |participants| ==> participants[k].id != id
  }

  /**
   * What the handler does once the request is accepted and the event is
   * found: rename the participant registered from this device, or insert a
   * new one under the first free nickname candidate.
   */
  function Register(participants: seq<ParticipantRow>, eventId: string, nickname: string, deviceHash: string,
                    now: int, newId: string, newToken: string, updateFault: bool, insertFault: bool): Effect
  {
    match FindParticipantByDevice(participants, eventId, deviceHash)
    case Some(existing) =>
      if updateFault then Effect(ErrorResponse("Failed to update participant", 500), participants)
      else Effect(JsonResponse(ParticipantBody(existing.id, newToken, nickname)), Renamed(participants, existing.id, nickname))
    case None =>
      match NicknameAsWritten(participants, eventId, nickname)
      case None => Effect(ErrorResponse("Too many participants with similar nicknames"), participants)
      case Some(finalNickname) =>
        if insertFault || !IdFresh(participants, newId) then
          Effect(ErrorResponse("Failed to create participant", 500), participants)
        else
          Effect(JsonResponse(ParticipantBody(newId, newToken, finalNickname), 201),
                 participants + [ParticipantRow(newId, eventId, finalNickname, deviceHash, now)])
  }

  /** The whole handler as a function of the tables and the limiter's records before the call. */
  function Upsert(events: seq<EventRow>, participants: seq<ParticipantRow>, records: map<string, RateRecord>,
                  path: string, forwardedFor: Option<string>, body: Option<Request>,
                  now: int, newId: string, newToken: string, updateFault: bool, insertFault: bool): Effect
  {
    if ShareIdOf(path) == "" then Effect(ErrorResponse("Share ID is required"), participants)
    else if !Accepted(records, path, forwardedFor, now) then Effect(ErrorResponse(RateLimitMessage, 429), participants)
    else if Validate(body).Fail? then Effect(ErrorResponse(Validate(body).error), participants)
    else match TargetEvent(events, path)
      case None => Effect(ErrorResponse("Event not found", 404), participants)
      case Some(e) =>
        Register(participants, e.id, body.value.nickname.value, body.value.deviceHash.value,
                 now, newId, newToken, updateFault, insertFault)
  }

  /** The limiter's records after the call: the share id check comes before the rate limiter. */
  function RecordsAfter(records: map<string, RateRecord>, path: string, forwardedFor: Option<string>, now: int): map<string, RateRecord>
  {
    if ShareIdOf(path) == "" then records else Admit(records, LimitKey(path, forwardedFor), MaxRequests, WindowMs, now).0
  }

  /** A device already registered in the event is never registered twice, whatever nickname it sends. */
  lemma {:induction false} RegisteredDeviceIsRenamed(participants: seq<ParticipantRow>, eventId: string, nickname: string,
      deviceHash: string, now: int, newId: string, newToken: string, insertFault: bool, otherNickname: string,
      later: int, laterId: string, laterToken: string)
    requires UniqueBy(participants, ParticipantDeviceKey)
    requires Register(participants, eventId, nickname, deviceHash, now, newId, newToken, false, insertFault).response.status == 201
    ensures var first := Register(participants, eventId, nickname, deviceHash, now, newId, newToken, false, insertFault);
            var second := Register(first.participants, eventId, otherNickname, deviceHash, later, laterId, laterToken, false, false);
            && second.response == JsonResponse(ParticipantBody(newId, laterToken, otherNickname))
            && |second.participants| == |first.participants| == |participants| + 1
  {
    assert FindParticipantByDevice(participants, eventId, deviceHash).None?;
    var chosen := NicknameAsWritten(participants, eventId, nickname).value;
    var row := ParticipantRow(newId, eventId, chosen, deviceHash, now);
    var ps := participants + [row];
    assert Register(participants, eventId, nickname, deviceHash, now, newId, newToken, false, insertFault).participants == ps;
    assert UniqueBy(ps, ParticipantDeviceKey) by {
      AppendUnique(participants, row, ParticipantDeviceKey);
    }
    assert ps[|participants|] == row;
    DeviceLookupIsUnique(ps, eventId, deviceHash, |participants|);
  }

  /**
   * A 201 appends exactly one row, for this event and device, under the
   * candidate the collision query did not report; while the event's
   * nicknames were distinct, that name is unused and they stay distinct.
   */
  lemma NewParticipantNameIsFree(participants: seq<ParticipantRow>, eventId: string, nickname: string, deviceHash: string,
                                 now: int, newId: string, newToken: string, updateFault: bool, insertFault: bool)
    requires Register(participants, eventId, nickname, deviceHash, now, newId, newToken, updateFault, insertFault).response.status == 201
    ensures var after := Register(participants, eventId, nickname, deviceHash, now, newId, newToken, updateFault, insertFault).participants;
            && |after| == |participants| + 1
            && after[..|participants|] == participants
            && after[|participants|].eventId == eventId && after[|participants|].deviceHash == deviceHash
            && after[|participants|].nickname == NicknameAsWritten(participants, eventId, nickname).value
            && !CollisionAsWritten(participants, eventId, after[|participants|].nickname)
            && (NicknamesDistinct(participants, eventId) ==>
                  !NicknameTaken(participants, eventId, after[|participants|].nickname)
                  && NicknamesDistinct(after, eventId))
  {
    assert FindParticipantByDevice(participants, eventId, deviceHash).None?;
    var chosen := NicknameAsWritten(participants, eventId, nickname).value;
    FirstFreeIsLeast(QueryReportsCollision(participants, eventId), nickname, 1);
    if NicknamesDistinct(participants, eventId) {
      NicknameRulesAgree(participants, eventId, nickname);
      NewNicknameIsFree(participants, eventId, nickname);
      var after := participants + [ParticipantRow(newId, eventId, chosen, deviceHash, now)];
      forall i, j | 0 <= i < j < |after| && after[i].eventId == eventId && after[j].eventId == eventId
        ensures after[i].nickname != after[j].nickname
      {
        if j == |participants| {
          assert after[i] == participants[i];
        } else {
          assert after[i] == participants[i] && after[j] == participants[j];
        }
      }
    }
  }

  /** A rename touches only the nickname of the registered row: ids and devices stay as they were. */
  lemma RenameKeepsIdentities(participants: seq<ParticipantRow>, eventId: string, nickname: string, deviceHash: string,
                              now: int, newId: string, newToken: string, insertFault: bool)
    requires FindParticipantByDevice(participants, eventId, deviceHash).Some?
    ensures var after := Register(participants, eventId, nickname, deviceHash, now, newId, newToken, false, insertFault).participants;
            && |after| == |participants|
            && (forall k :: 0 <= k < |after| ==>
                  after[k].id == participants[k].id && after[k].eventId == participants[k].eventId
                  && after[k].deviceHash == participants[k].deviceHash)
            && exists k :: 0 <= k < |after| && after[k].deviceHash == deviceHash && after[k].eventId == eventId
                 && after[k].nickname == nickname
  {
    var existing := FindParticipantByDevice(participants, eventId, deviceHash).value;
    var k :| 0 <= k < |participants| && participants[k] == existing;
    var after := Renamed(participants, existing.id, nickname);
    assert after[k].nickname == nickname;
  }

  /** The rename or the insert, against the store. */
  method RegisterIn(store: Store, eventId: string, nickname: string, deviceHash: string,
                    now: int, newId: string, newToken: string, updateFault: bool, insertFault: bool)
    returns (r: Response)
    requires store.Valid() && eventId in EventIds(store.events)
    modifies store
    ensures store.Valid()
    ensures Effect(r, store.participants)
         == Register(old(store.participants), eventId, nickname, deviceHash, now, newId, newToken, updateFault, insertFault)
    ensures store.events == old(store.events) && store.options == old(store.options)
    ensures store.votes == old(store.votes) && store.links == old(store.links)
  {
    var existing := FindParticipantByDevice(store.participants, eventId, deviceHash);
    if existing.Some? {
      r := RenameIn(store, eventId, nickname, deviceHash, newToken, updateFault);
    } else {
      r := InsertIn(store, eventId, nickname, deviceHash, now, newId, newToken, insertFault);
    }
  }

  /** The update path: this device is already registered in the event. */
  method RenameIn(store: Store, eventId: string, nickname: string, deviceHash: string, newToken: string, updateFault: bool)
    returns (r: Response)
    requires store.Valid() && FindParticipantByDevice(store.participants, eventId, deviceHash).Some?
    modifies store
    ensures store.Valid()
    ensures Effect(r, store.participants)
         == Register(old(store.participants), eventId, nickname, deviceHash, 0, "", newToken, updateFault, false)
    ensures store.events == old(store.events) && store.options == old(store.options)
    ensures store.votes == old(store.votes) && store.links == old(store.links)
  {
    var existing := FindParticipantByDevice(store.participants, eventId, deviceHash).value;
    var k := FirstIndex(store.participants, ParticipantOnDevice(eventId, deviceHash));
    ghost var before := store.participants;
    DeviceLookupIsUnique(before, eventId, deviceHash, k);
    var ok := store.UpdateNickname(k, nickname, updateFault);
    if !ok {
      return ErrorResponse("Failed to update participant", 500);
    }
    forall j | 0 <= j < |before|
      ensures store.participants[j] == Renamed(before, existing.id, nickname)[j]
    {
      if j != k {
        assert ParticipantId(before[j]) != ParticipantId(before[k]);
      }
    }
    return JsonResponse(ParticipantBody(existing.id, newToken, nickname));
  }

  /** The insert path: this device is new to the event. */
  method InsertIn(store: Store, eventId: string, nickname: string, deviceHash: string,
                  now: int, newId: string, newToken: string, insertFault: bool)
    returns (r: Response)
    requires store.Valid() && eventId in EventIds(store.events)
    requires FindParticipantByDevice(store.participants, eventId, deviceHash).None?
    modifies store
    ensures store.Valid()
    ensures Effect(r, store.participants)
         == Register(old(store.participants), eventId, nickname, deviceHash, now, newId, newToken, false, insertFault)
    ensures store.events == old(store.events) && store.options == old(store.options)
    ensures store.votes == old(store.votes) && store.links == old(store.links)
  {
    var participants := store.participants;
    var finalNickname := ResolveNickname(QueryReportsCollision(participants, eventId), nickname);
    if finalNickname.None? {
      return ErrorResponse("Too many participants with similar nicknames");
    }

    var row := ParticipantRow(newId, eventId, finalNickname.value, deviceHash, now);
    var ok := store.InsertParticipant(row, insertFault);
    if !ok {
      return ErrorResponse("Failed to create participant", 500);
    }
    return JsonResponse(ParticipantBody(newId, newToken, finalNickname.value), 201);
  }

  /**
   * The handler. `now` is `Date.now()` (also the new row's `created_at`),
   * `newParticipantId` the id the database assigns to an inserted row,
   * `newToken` the `crypto.randomUUID()` value, and `updateFault`/`insertFault`
   * stand for the database reporting an error on the update or the insert.
   */
  method HandleUpsertParticipant(
    store: Store, limiter: RateLimiter,
    path: string, forwardedFor: Option<string>, body: Option<Request>,
    now: int, newParticipantId: string, newToken: string, updateFault: bool, insertFault: bool)
    returns (r: Response)
    requires store.Valid()
    modifies store, limiter
    ensures store.Valid()
    ensures Effect(r, store.participants)
         == Upsert(old(store.events), old(store.participants), old(limiter.records), path, forwardedFor, body,
                   now, newParticipantId, newToken, updateFault, insertFault)
    ensures limiter.records == RecordsAfter(old(limiter.records), path, forwardedFor, now)
    ensures store.events == old(store.events) && store.options == old(store.options)
    ensures store.votes == old(store.votes) && store.links == old(store.links)
  {
    var shareId := SegmentAfterEvents(path);
    if shareId == "" {
      return ErrorResponse("Share ID is required");
    }

    var allowed := limiter.CheckRateLimit(RateLimitKey("upsert-participant", ClientIp(forwardedFor), shareId),
                                          MaxRequests, WindowMs, now);
    if !allowed {
      return ErrorResponse(RateLimitMessage, 429);
    }

    var check := Validate(body);
    if check.Fail? {
      return ErrorResponse(check.error);
    }

    var event := FindEventByShareId(store.events, shareId);
    if event.None? {
      return ErrorResponse("Event not found", 404);
    }
    assert event.value.id in EventIds(store.events);
    r := RegisterIn(store, event.value.id, body.value.nickname.value, body.value.deviceHash.value,
                    now, newParticipantId, newToken, updateFault, insertFault);
  }

  /** The body checks never look at `participant_token`. */
  lemma ValidateIgnoresToken(nickname: Option<string>, deviceHash: Option<string>, sent: Option<string>, other: Option<string>)
    ensures Validate(Some(Request(nickname, deviceHash, sent))) == Validate(Some(Request(nickname, deviceHash, other)))
  {
    var a := Request(nickname, deviceHash, sent);
    var b := Request(nickname, deviceHash, other);
    assert Lookup(Fields(a), "nickname") == Lookup(Fields(b), "nickname");
    assert Lookup(Fields(a), "device_hash") == Lookup(Fields(b), "device_hash");
    assert MissingFields(Fields(a), ["nickname", "device_hash"]) == MissingFields(Fields(b), ["nickname", "device_hash"]);
  }

  /** The `participant_token` a client sends is never checked: the outcome is the same whatever token it holds. */
  lemma SentTokenIsIgnored(events: seq<EventRow>, participants: seq<ParticipantRow>, records: map<string, RateRecord>,
                           path: string, forwardedFor: Option<string>, nickname: Option<string>, deviceHash: Option<string>,
                           sent: Option<string>, other: Option<string>,
                           now: int, newId: string, newToken: string, updateFault: bool, insertFault: bool)
    ensures Upsert(events, participants, records, path, forwardedFor, Some(Request(nickname, deviceHash, sent)),
                   now, newId, newToken, updateFault, insertFault)
         == Upsert(events, participants, records, path, forwardedFor, Some(Request(nickname, deviceHash, other)),
                   now, newId, newToken, updateFault, insertFault)
  {
    ValidateIgnoresToken(nickname, deviceHash, sent, other);
  }

  /** A rename or an insert that succeeds answers with the freshly generated token. */
  lemma RegisterHandsOutNewToken(participants: seq<ParticipantRow>, eventId: string, nickname: string, deviceHash: string,
                                 now: int, newId: string, newToken: string, updateFault: bool, insertFault: bool)
    requires Register(participants, eventId, nickname, deviceHash, now, newId, newToken, updateFault, insertFault)
               .response.status in {200, 201}
    ensures var r := Register(participants, eventId, nickname, deviceHash, now, newId, newToken, updateFault, insertFault).response;
      r.body.ParticipantBody? && r.body.participantToken == newToken
  {
  }

  /** Every success hands out the freshly generated token. */
  lemma SuccessHandsOutNewToken(events: seq<EventRow>, participants: seq<ParticipantRow>, records: map<string, RateRecord>,
                                path: string, forwardedFor: Option<string>, body: Option<Request>,
                                now: int, newId: string, newToken: string, updateFault: bool, insertFault: bool)
    requires Upsert(events, participants, records, path, forwardedFor, body, now, newId, newToken, updateFault, insertFault)
               .response.status in {200, 201}
    ensures var r := Upsert(events, participants, records, path, forwardedFor, body,
                            now, newId, newToken, updateFault, insertFault).response;
      r.body.ParticipantBody? && r.body.participantToken == newToken
  {
    var e := TargetEvent(events, path).value;
    RegisterHandsOutNewToken(participants, e.id, body.value.nickname.value, body.value.deviceHash.value,
                             now, newId, newToken, updateFault, insertFault);
  }

  /** A 429, 400, 404 or 500 answer leaves the participants table as it was. */
  lemma FailedRequestWritesNothing(events: seq<EventRow>, participants: seq<ParticipantRow>, records: map<string, RateRecord>,
                                   path: string, forwardedFor: Option<string>, body: Option<Request>,
                                   now: int, newId: string, newToken: string, updateFault: bool, insertFault: bool)
    requires Upsert(events, participants, records, path, forwardedFor, body, now, newId, newToken, updateFault, insertFault)
               .response.status !in {200, 201}
    ensures Upsert(events, participants, records, path, forwardedFor, body, now, newId, newToken, updateFault, insertFault)
              .participants == participants
  {
  }
}
