/**
 * POST submit-votes/events/{shareId}/votes: records a participant's answers
 * (0 = no, 1 = maybe, 2 = yes) for the options of an event, one upsert per
 * answer keyed on (option, participant).
 */
module SubmitVotes {
  import opened Wrappers
  import opened Types
  import opened Seqs
  import opened SharedUtils
  import opened Requests
  import opened EventStore

  /** The JSON body `{participant_id, votes: [{option_id, value}, ...]}`; `votes` is kept as parsed. */
  datatype Request = Request(participantId: Option<string>, votes: JsValue)

  const MaxRequests: int := 20
  const WindowMs: int := 60000

  function ShareIdOf(path: string): string
  {
    SegmentAfterEvents(path)
  }

  function LimitKey(path: string, forwardedFor: Option<string>): string
  {
    RateLimitKey("submit-votes", ClientIp(forwardedFor), ShareIdOf(path))
  }

  /** The request has a share id and the rate limiter lets it through. */
  predicate Accepted(records: map<string, RateRecord>, path: string, forwardedFor: Option<string>, now: int)
  {
    ShareIdOf(path) != "" && Admit(records, LimitKey(path, forwardedFor), MaxRequests, WindowMs, now).1
  }

  function RecordsAfter(records: map<string, RateRecord>, path: string, forwardedFor: Option<string>, now: int): map<string, RateRecord>
  {
    if ShareIdOf(path) == "" then records else Admit(records, LimitKey(path, forwardedFor), MaxRequests, WindowMs, now).0
  }

  function Fields(body: Request): map<string, JsValue>
  {
    map["participant_id" := OptionalString(body.participantId), "votes" := body.votes]
  }

  // ---------------------------------------------------------------------
  // One answer of the `votes` array

  /** `vote.value`; None when reading it throws, because the element is null or undefined. */
  function ValueField(item: JsValue): Option<JsValue>
  {
    match item
    case Undefined => None
    case Null => None
    case Obj(fields) => Some(Lookup(fields, "value"))
    case _ => Some(Undefined)
  }

  /** `[0, 1, 2].includes(vote.value)`. */
  predicate ValidVote(item: JsValue)
  {
    ValueField(item).Some? && ValueField(item).value.Num? && 0 <= ValueField(item).value.n <= 2
  }

  function VoteValue(item: JsValue): (v: int)
    requires ValidVote(item)
    ensures 0 <= v <= 2
  {
    ValueField(item).value.n
  }

  /** `vote.option_id` when it is a string; any other value matches no option. */
  function OptionIdOf(item: JsValue): Option<string>
  {
    if item.Obj? && "option_id" in item.fields && item.fields["option_id"].Str? then Some(item.fields["option_id"].s)
    else None
  }

  /**
   * The 400 message for an invalid answer: the TypeError the runtime (V8)
   * raises on a null or undefined element, or the handler's own message.
   */
  function ItemError(item: JsValue): string
  {
    match ValueField(item)
    case None => "Cannot read properties of " + (if item.Null? then "null" else "undefined") + " (reading 'value')"
    case Some(v) => "Invalid vote value: " + JsToString(v) + ". Must be 0, 1, or 2"
  }

  /** The first invalid answer's message, if any. */
  function FirstItemError(items: seq<JsValue>): (r: Option<string>)
    ensures r.None? <==> forall k :: 0 <= k < |items| ==> ValidVote(items[k])
  {
    var i := FirstIndex(items, (v: JsValue) => !ValidVote(v));
    if i < 0 then None else Some(ItemError(items[i]))
  }

  /** The value-checking loop: returns at the first answer that is not 0, 1 or 2. */
  method CheckVoteValues(items: seq<JsValue>) returns (error: Option<string>)
    ensures error == FirstItemError(items)
    ensures error.None? <==> forall k :: 0 <= k < |items| ==> ValidVote(items[k])
  {
    for i := 0 to |items|
      invariant forall k :: 0 <= k < i ==> ValidVote(items[k])
    {
      if !ValidVote(items[i]) {
        return Some(ItemError(items[i]));
      }
    }
    return None;
  }

  /**
   * The checks on the body, in the handler's order: a JSON object, a truthy
   * `participant_id` and `votes`, `votes` an array, every value 0, 1 or 2.
   */
  function Validate(body: Option<Request>): (r: Outcome<string>)
    ensures r.Pass? <==> && body.Some? && body.value.participantId.Some? && body.value.participantId.value != ""
                         && body.value.votes.Arr?
                         && forall k :: 0 <= k < |body.value.votes.items| ==> ValidVote(body.value.votes.items[k])
  {
    if body.None? then Fail("Invalid JSON body")
    else
      var b := body.value;
      var required := ValidateRequired(Fields(b), ["participant_id", "votes"]);
      if required.Fail? then
        assert b.participantId.None? || b.participantId.value == "" || Falsy(b.votes) by {
          var k :| 0 <= k < 2 && Falsy(Lookup(Fields(b), ["participant_id", "votes"][k]));
          assert "votes" != "participant_id";
        }
        Fail(required.error)
      else
        assert !Falsy(Lookup(Fields(b), ["participant_id", "votes"][0]));
        if !b.votes.Arr? then Fail("Votes must be an array")
        else match FirstItemError(b.votes.items)
          case Some(message) => Fail(message)
          case None => Pass
  }

  /** The body checks of the handler, one after the other. */
  method CheckBody(body: Option<Request>) returns (check: Outcome<string>)
    ensures check == Validate(body)
  {
    if body.None? {
      return Fail("Invalid JSON body");
    }
    var required := ValidateRequired(Fields(body.value), ["participant_id", "votes"]);
    if required.Fail? {
      return Fail(required.error);
    }
    var votes := body.value.votes;
    if !votes.Arr? {
      return Fail("Votes must be an array");
    }
    var invalid := CheckVoteValues(votes.items);
    if invalid.Some? {
      return Fail(invalid.value);
    }
    return Pass;
  }

  // ---------------------------------------------------------------------
  // Applying the answers

  /** One answer: skipped unless its option belongs to the event; a failed upsert is ignored. */
  function Step(votes: seq<VoteRow>, options: seq<OptionRow>, eventId: string, participantId: string,
                item: JsValue, newId: string, fault: bool): seq<VoteRow>
    requires ValidVote(item)
  {
    match OptionIdOf(item)
    case None => votes
    case Some(optionId) =>
      if !OptionOfEvent(options, optionId, eventId) then votes
      else if !fault && (HasVote(votes, optionId, participantId) || IdUnused(votes, newId)) then
        UpsertVoteRows(votes, eventId, optionId, participantId, VoteValue(item), newId)
      else votes
  }

  predicate AllValid(items: seq<JsValue>)
  {
    forall k :: 0 <= k < |items| ==> ValidVote(items[k])
  }

  /**
   * The answers applied in order; `newId(k)` is the id an inserted row for
   * the k-th answer gets, `fault(k)` says whether its upsert fails.
   */
  function ApplyBatch(votes: seq<VoteRow>, options: seq<OptionRow>, eventId: string, participantId: string,
                      items: seq<JsValue>, newId: int -> string, fault: int -> bool): seq<VoteRow>
    requires AllValid(items)
    decreases |items|
  {
    if |items| == 0 then votes
    else
      var n := |items| - 1;
      assert AllValid(items[..n]) by {
        forall k | 0 <= k < n ensures ValidVote(items[..n][k]) {
          assert items[..n][k] == items[k];
        }
      }
      Step(ApplyBatch(votes, options, eventId, participantId, items[..n], newId, fault),
           options, eventId, participantId, items[n], newId(n), fault(n))
  }

  function VoteIds(votes: seq<VoteRow>): set<string>
  {
    set k | 0 <= k < |votes| :: votes[k].id
  }

  /** Some answer of the batch names this option. */
  predicate InBatch(items: seq<JsValue>, optionId: string)
  {
    exists j :: 0 <= j < |items| && OptionIdOf(items[j]) == Some(optionId)
  }

  /** One answer changes at most the row of its own (option, participant) pair, or appends that row. */
  lemma StepTouchesOnlyItsPair(votes: seq<VoteRow>, options: seq<OptionRow>, eventId: string, participantId: string,
                               item: JsValue, newId: string, fault: bool)
    requires ValidVote(item)
    ensures var r := Step(votes, options, eventId, participantId, item, newId, fault);
      && |votes| <= |r| <= |votes| + 1
      && (forall k :: 0 <= k < |votes| && (Some(votes[k].optionId) != OptionIdOf(item) || votes[k].participantId != participantId)
            ==> r[k] == votes[k])
      && (forall k :: |votes| <= k < |r| ==>
            r[k] == VoteRow(newId, eventId, OptionIdOf(item).value, participantId, VoteValue(item)))
      && VoteIds(r) <= VoteIds(votes) + {newId}
  {
    var r := Step(votes, options, eventId, participantId, item, newId, fault);
    if r != votes {
      var optionId := OptionIdOf(item).value;
      var i := FirstIndex(votes, VoteFor(optionId, participantId));
      if i < 0 {
        assert r == votes + [VoteRow(newId, eventId, optionId, participantId, VoteValue(item))];
        forall x | x in VoteIds(r) ensures x in VoteIds(votes) + {newId} {
          var k :| 0 <= k < |r| && r[k].id == x;
          if k < |votes| { assert r[k] == votes[k]; }
        }
      } else {
        forall x | x in VoteIds(r) ensures x in VoteIds(votes) {
          var k :| 0 <= k < |r| && r[k].id == x;
          assert r[k].id == votes[k].id;
        }
      }
    }
  }

  /** A successful answer leaves exactly its value on the pair's row; keys stay unique. */
  lemma StepRecordsValue(votes: seq<VoteRow>, options: seq<OptionRow>, eventId: string, participantId: string,
                         item: JsValue, newId: string, optionId: string)
    requires ValidVote(item) && OptionIdOf(item) == Some(optionId) && OptionOfEvent(options, optionId, eventId)
    requires UniqueBy(votes, VoteKey) && newId !in VoteIds(votes)
    ensures var r := Step(votes, options, eventId, participantId, item, newId, false);
      && HasVote(r, optionId, participantId)
      && forall k :: 0 <= k < |r| && r[k].optionId == optionId && r[k].participantId == participantId ==>
           r[k].value == VoteValue(item) && r[k].eventId == eventId
  {
    var r := Step(votes, options, eventId, participantId, item, newId, false);
    var i := FirstIndex(votes, VoteFor(optionId, participantId));
    assert IdUnused(votes, newId) by {
      forall k | 0 <= k < |votes| ensures votes[k].id != newId {
        assert votes[k].id in VoteIds(votes);
      }
    }
    if i >= 0 {
      forall k | 0 <= k < |r| && k != i
        ensures VoteKey(r[k]) != (optionId, participantId)
      {
        assert r[k] == votes[k] && VoteKey(votes[k]) != VoteKey(votes[i]);
      }
      assert r[i].optionId == optionId && r[i].participantId == participantId;
    } else {
      assert r[|votes|].optionId == optionId && r[|votes|].participantId == participantId;
    }
  }

  /** A step keeps the (option, participant) key unique. */
  lemma StepKeepsUnique(votes: seq<VoteRow>, options: seq<OptionRow>, eventId: string, participantId: string,
                        item: JsValue, newId: string, fault: bool)
    requires ValidVote(item) && UniqueBy(votes, VoteKey)
    ensures UniqueBy(Step(votes, options, eventId, participantId, item, newId, fault), VoteKey)
  {
    var r := Step(votes, options, eventId, participantId, item, newId, fault);
    if r != votes {
      var optionId := OptionIdOf(item).value;
      var i := FirstIndex(votes, VoteFor(optionId, participantId));
      if i < 0 {
        AppendUnique(votes, VoteRow(newId, eventId, optionId, participantId, VoteValue(item)), VoteKey);
      } else {
        forall a, b | 0 <= a < b < |r| ensures VoteKey(r[a]) != VoteKey(r[b]) {
          assert VoteKey(r[a]) == VoteKey(votes[a]) && VoteKey(r[b]) == VoteKey(votes[b]);
        }
      }
    }
  }

  /** The answers before the last one are all valid too. */
  lemma PrefixValid(items: seq<JsValue>, n: int)
    requires AllValid(items) && 0 <= n <= |items|
    ensures AllValid(items[..n])
  {
    forall k | 0 <= k < n ensures ValidVote(items[..n][k]) { assert items[..n][k] == items[k]; }
  }

  /**
   * A batch only changes rows of this participant for options it names,
   * and only appends rows of this participant in this event.
   */
  lemma {:induction false} BatchTouchesOnlyParticipant(votes: seq<VoteRow>, options: seq<OptionRow>, eventId: string,
      participantId: string, items: seq<JsValue>, newId: int -> string, fault: int -> bool)
    requires AllValid(items)
    ensures var r := ApplyBatch(votes, options, eventId, participantId, items, newId, fault);
      && |votes| <= |r|
      && (forall k :: 0 <= k < |votes| && (votes[k].participantId != participantId || !InBatch(items, votes[k].optionId))
            ==> r[k] == votes[k])
      && (forall k :: |votes| <= k < |r| ==>
            r[k].participantId == participantId && r[k].eventId == eventId && InBatch(items, r[k].optionId))
    decreases |items|
  {
    if |items| > 0 {
      var n := |items| - 1;
      var prefix := items[..n];
      PrefixValid(items, n);
      BatchTouchesOnlyParticipant(votes, options, eventId, participantId, prefix, newId, fault);
      var p := ApplyBatch(votes, options, eventId, participantId, prefix, newId, fault);
      var r := ApplyBatch(votes, options, eventId, participantId, items, newId, fault);
      assert r == Step(p, options, eventId, participantId, items[n], newId(n), fault(n));
      StepTouchesOnlyItsPair(p, options, eventId, participantId, items[n], newId(n), fault(n));
      forall o | InBatch(prefix, o) ensures InBatch(items, o) {
        var j :| 0 <= j < n && OptionIdOf(prefix[j]) == Some(o);
        assert prefix[j] == items[j];
      }
      assert forall k :: |p| <= k < |r| ==> InBatch(items, r[k].optionId) by {
        forall k | |p| <= k < |r| ensures InBatch(items, r[k].optionId) {
          assert OptionIdOf(items[n]) == Some(r[k].optionId);
        }
      }
      forall k | 0 <= k < |votes| && (votes[k].participantId != participantId || !InBatch(items, votes[k].optionId))
        ensures r[k] == votes[k]
      {
        if OptionIdOf(items[n]) == Some(votes[k].optionId) {
          assert InBatch(items, votes[k].optionId);
        }
        assert !InBatch(prefix, votes[k].optionId) || votes[k].participantId != participantId;
      }
    }
  }

  /** A batch gives new rows only the ids it was handed. */
  lemma {:induction false} BatchUsesGivenIds(votes: seq<VoteRow>, options: seq<OptionRow>, eventId: string,
      participantId: string, items: seq<JsValue>, newId: int -> string, fault: int -> bool)
    requires AllValid(items)
    ensures VoteIds(ApplyBatch(votes, options, eventId, participantId, items, newId, fault))
         <= VoteIds(votes) + (set k | 0 <= k < |items| :: newId(k))
    decreases |items|
  {
    if |items| > 0 {
      var n := |items| - 1;
      var prefix := items[..n];
      PrefixValid(items, n);
      BatchUsesGivenIds(votes, options, eventId, participantId, prefix, newId, fault);
      var p := ApplyBatch(votes, options, eventId, participantId, prefix, newId, fault);
      StepTouchesOnlyItsPair(p, options, eventId, participantId, items[n], newId(n), fault(n));
      assert (set k | 0 <= k < n :: newId(k)) + {newId(n)} <= set k | 0 <= k < |items| :: newId(k);
    }
  }

  /** A batch keeps the (option, participant) key unique. */
  lemma {:induction false} BatchKeepsUnique(votes: seq<VoteRow>, options: seq<OptionRow>, eventId: string,
      participantId: string, items: seq<JsValue>, newId: int -> string, fault: int -> bool)
    requires AllValid(items) && UniqueBy(votes, VoteKey)
    ensures UniqueBy(ApplyBatch(votes, options, eventId, participantId, items, newId, fault), VoteKey)
    decreases |items|
  {
    if |items| > 0 {
      var n := |items| - 1;
      var prefix := items[..n];
      PrefixValid(items, n);
      BatchKeepsUnique(votes, options, eventId, participantId, prefix, newId, fault);
      var p := ApplyBatch(votes, options, eventId, participantId, prefix, newId, fault);
      StepKeepsUnique(p, options, eventId, participantId, items[n], newId(n), fault(n));
    }
  }

  /**
   * Without faults and with fresh, distinct ids, the last answer for an
   * option of the event decides that option: the participant then has a
   * vote for it, and every row of that pair holds the answer's value.
   */
  lemma {:induction false} LastAnswerWins(votes: seq<VoteRow>, options: seq<OptionRow>, eventId: string,
      participantId: string, items: seq<JsValue>, newId: int -> string, fault: int -> bool, j: int, optionId: string)
    requires AllValid(items) && UniqueBy(votes, VoteKey)
    requires forall k :: 0 <= k < |items| ==> newId(k) !in VoteIds(votes)
    requires forall a, b :: 0 <= a < b < |items| ==> newId(a) != newId(b)
    requires 0 <= j < |items| && !fault(j) && OptionIdOf(items[j]) == Some(optionId) && OptionOfEvent(options, optionId, eventId)
    requires forall t :: j < t < |items| ==> OptionIdOf(items[t]) != Some(optionId)
    ensures var r := ApplyBatch(votes, options, eventId, participantId, items, newId, fault);
      && HasVote(r, optionId, participantId)
      && forall k :: 0 <= k < |r| && r[k].optionId == optionId && r[k].participantId == participantId ==>
           r[k].value == VoteValue(items[j]) && r[k].eventId == eventId
    decreases |items|
  {
    var n := |items| - 1;
    var prefix := items[..n];
    PrefixValid(items, n);
    var p := ApplyBatch(votes, options, eventId, participantId, prefix, newId, fault);
    var r := ApplyBatch(votes, options, eventId, participantId, items, newId, fault);
    assert r == Step(p, options, eventId, participantId, items[n], newId(n), fault(n));
    if j == n {
      BatchUsesGivenIds(votes, options, eventId, participantId, prefix, newId, fault);
      BatchKeepsUnique(votes, options, eventId, participantId, prefix, newId, fault);
      assert newId(n) !in VoteIds(p) by {
        forall k | 0 <= k < n ensures newId(k) != newId(n) {
        }
      }
      StepRecordsValue(p, options, eventId, participantId, items[n], newId(n), optionId);
    } else {
      assert prefix[j] == items[j];
      assert forall t :: j < t < |prefix| ==> OptionIdOf(prefix[t]) != Some(optionId) by {
        forall t | j < t < |prefix| ensures OptionIdOf(prefix[t]) != Some(optionId) {
          assert prefix[t] == items[t];
        }
      }
      LastAnswerWins(votes, options, eventId, participantId, prefix, newId, fault, j, optionId);
      OtherStepKeepsAnswer(p, options, eventId, participantId, items[n], newId(n), fault(n), optionId, VoteValue(items[j]));
    }
  }

  /** An answer for another option leaves the pair's rows as they were. */
  lemma OtherStepKeepsAnswer(votes: seq<VoteRow>, options: seq<OptionRow>, eventId: string, participantId: string,
                             item: JsValue, newId: string, fault: bool, optionId: string, value: int)
    requires ValidVote(item) && OptionIdOf(item) != Some(optionId)
    requires HasVote(votes, optionId, participantId)
    requires forall k :: 0 <= k < |votes| && votes[k].optionId == optionId && votes[k].participantId == participantId ==>
               votes[k].value == value && votes[k].eventId == eventId
    ensures var r := Step(votes, options, eventId, participantId, item, newId, fault);
      && HasVote(r, optionId, participantId)
      && forall k :: 0 <= k < |r| && r[k].optionId == optionId && r[k].participantId == participantId ==>
           r[k].value == value && r[k].eventId == eventId
  {
    var r := Step(votes, options, eventId, participantId, item, newId, fault);
    StepTouchesOnlyItsPair(votes, options, eventId, participantId, item, newId, fault);
    var h :| 0 <= h < |votes| && votes[h].optionId == optionId && votes[h].participantId == participantId;
    assert r[h] == votes[h];
  }

  // ---------------------------------------------------------------------
  // The handler

  const RateLimitMessage: string := "Rate limit exceeded. Please try again later."

  /** A response together with the votes table it leaves behind. */
  datatype Effect = Effect(response: Response, votes: seq<VoteRow>)

  /** The whole handler as a function of the tables and the limiter's records before the call. */
  function Submit(events: seq<EventRow>, options: seq<OptionRow>, participants: seq<ParticipantRow>, votes: seq<VoteRow>,
                  records: map<string, RateRecord>, path: string, forwardedFor: Option<string>, body: Option<Request>,
                  now: int, newId: int -> string, fault: int -> bool): Effect
  {
    if ShareIdOf(path) == "" then Effect(ErrorResponse("Share ID is required"), votes)
    else if !Accepted(records, path, forwardedFor, now) then Effect(ErrorResponse(RateLimitMessage, 429), votes)
    else Answer(events, options, participants, votes, ShareIdOf(path), body, newId, fault)
  }

  /** What follows the rate limit: the body checks, the two lookups and the upserts. */
  function Answer(events: seq<EventRow>, options: seq<OptionRow>, participants: seq<ParticipantRow>, votes: seq<VoteRow>,
                  shareId: string, body: Option<Request>, newId: int -> string, fault: int -> bool): Effect
  {
    if Validate(body).Fail? then Effect(ErrorResponse(Validate(body).error), votes)
    else match FindEventByShareId(events, shareId)
      case None => Effect(ErrorResponse("Event not found", 404), votes)
      case Some(e) =>
        var participantId := body.value.participantId.value;
        if FindParticipantOfEvent(participants, participantId, e.id).None? then
          Effect(ErrorResponse("Participant not found", 404), votes)
        else
          Effect(JsonResponse(SuccessBody("Votes submitted successfully")),
                 ApplyBatch(votes, options, e.id, participantId, body.value.votes.items, newId, fault))
  }

  /** A 400, 404 or 429 answer writes no vote; only the 200 runs the upserts. */
  lemma FailedRequestWritesNoVotes(events: seq<EventRow>, options: seq<OptionRow>, participants: seq<ParticipantRow>,
                                   votes: seq<VoteRow>, records: map<string, RateRecord>, path: string,
                                   forwardedFor: Option<string>, body: Option<Request>,
                                   now: int, newId: int -> string, fault: int -> bool)
    requires Submit(events, options, participants, votes, records, path, forwardedFor, body, now, newId, fault)
               .response.status != 200
    ensures Submit(events, options, participants, votes, records, path, forwardedFor, body, now, newId, fault).votes == votes
  {
  }

  /** The upsert loop, one answer at a time. */
  method ApplyVotes(store: Store, eventId: string, participantId: string, items: seq<JsValue>,
                    newId: int -> string, fault: int -> bool)
    requires store.Valid() && AllValid(items)
    requires (participantId, eventId) in ParticipantKeys(store.participants)
    modifies store
    ensures store.Valid()
    ensures store.votes == ApplyBatch(old(store.votes), store.options, eventId, participantId, items, newId, fault)
    ensures store.events == old(store.events) && store.options == old(store.options)
    ensures store.participants == old(store.participants) && store.links == old(store.links)
  {
    for i := 0 to |items|
      invariant store.Valid()
      invariant store.events == old(store.events) && store.options == old(store.options)
      invariant store.participants == old(store.participants) && store.links == old(store.links)
      invariant AllValid(items[..i])
      invariant store.votes == ApplyBatch(old(store.votes), store.options, eventId, participantId, items[..i], newId, fault)
    {
      assert items[..i + 1][..i] == items[..i];
      ghost var next := items[..i + 1];
      assert AllValid(next) by {
        forall k | 0 <= k < i + 1 ensures ValidVote(next[k]) { assert next[k] == items[k]; }
      }
      var item := items[i];
      var optionId := OptionIdOf(item);
      if optionId.Some? && OptionOfEvent(store.options, optionId.value, eventId) {
        var _ := store.UpsertVote(eventId, optionId.value, participantId, VoteValue(item), newId(i), fault(i));
      }
    }
    assert items[..|items|] == items;
  }

  /**
   * The handler. `newId(k)` is the id the database would give a row
   * inserted for the k-th answer and `fault(k)` whether that upsert reports
   * an error, which the handler logs and ignores.
   */
  method HandleSubmitVotes(store: Store, limiter: RateLimiter, path: string, forwardedFor: Option<string>,
                           body: Option<Request>, now: int, newId: int -> string, fault: int -> bool)
    returns (r: Response)
    requires store.Valid()
    modifies store, limiter
    ensures store.Valid()
    ensures Effect(r, store.votes)
         == Submit(old(store.events), old(store.options), old(store.participants), old(store.votes),
                   old(limiter.records), path, forwardedFor, body, now, newId, fault)
    ensures limiter.records == RecordsAfter(old(limiter.records), path, forwardedFor, now)
    ensures store.events == old(store.events) && store.options == old(store.options)
    ensures store.participants == old(store.participants) && store.links == old(store.links)
  {
    var shareId := SegmentAfterEvents(path);
    if shareId == "" {
      return ErrorResponse("Share ID is required");
    }
    var allowed := limiter.CheckRateLimit(RateLimitKey("submit-votes", ClientIp(forwardedFor), shareId),
                                          MaxRequests, WindowMs, now);
    if !allowed {
      return ErrorResponse(RateLimitMessage, 429);
    }

    r := AnswerIn(store, shareId, body, newId, fault);
  }

  /** The handler after the rate limit, against the store. */
  method AnswerIn(store: Store, shareId: string, body: Option<Request>, newId: int -> string, fault: int -> bool)
    returns (r: Response)
    requires store.Valid()
    modifies store
    ensures store.Valid()
    ensures Effect(r, store.votes)
         == Answer(old(store.events), old(store.options), old(store.participants), old(store.votes), shareId, body, newId, fault)
    ensures store.events == old(store.events) && store.options == old(store.options)
    ensures store.participants == old(store.participants) && store.links == old(store.links)
  {
    var check := CheckBody(body);
    if check.Fail? {
      return ErrorResponse(check.error);
    }
    var votes := body.value.votes;
    var participantId := body.value.participantId.value;

    var event := FindEventByShareId(store.events, shareId);
    if event.None? {
      return ErrorResponse("Event not found", 404);
    }
    var participant := FindParticipantOfEvent(store.participants, participantId, event.value.id);
    if participant.None? {
      return ErrorResponse("Participant not found", 404);
    }

    ApplyVotes(store, event.value.id, participantId, votes.items, newId, fault);
    return JsonResponse(SuccessBody("Votes submitted successfully"));
  }
}
