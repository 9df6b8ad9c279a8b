/**
 * DELETE delete-event/{eventId}: removes an event and, by the foreign keys'
 * cascade, every option, participant, vote and link of it, for a caller
 * holding the admin key.
 */
module DeleteEvent {
  import opened Wrappers
  import opened Types
  import opened Seqs
  import opened SharedUtils
  import opened EventStore
  import opened AdminAuth

  /**
   * The handler. `adminKey` is the `X-Admin-Key` header, `sha256` the digest
   * of a string's UTF-8 bytes, `fault` the database failing the delete and
   * `dbError` its serialized error.
   */
  method HandleDeleteEvent(store: Store, path: string, adminKey: Option<string>, sha256: string -> seq<byte>,
                           fault: bool, dbError: string)
    returns (r: Response)
    requires store.Valid()
    modifies store
    ensures store.Valid()
    ensures Authorize(old(store.events), path, adminKey, sha256).Rejected? ==>
      && r == Authorize(old(store.events), path, adminKey, sha256).response
      && store.events == old(store.events) && store.options == old(store.options)
      && store.participants == old(store.participants) && store.votes == old(store.votes)
      && store.links == old(store.links)
    ensures Authorize(old(store.events), path, adminKey, sha256).Authorized? && fault ==>
      && r == ErrorResponse("Failed to delete event", 500, Some(dbError))
      && store.events == old(store.events) && store.options == old(store.options)
      && store.participants == old(store.participants) && store.votes == old(store.votes)
      && store.links == old(store.links)
    ensures Authorize(old(store.events), path, adminKey, sha256).Authorized? && !fault ==>
      var id := Authorize(old(store.events), path, adminKey, sha256).event.id;
      && r == JsonResponse(SuccessBody("Event deleted successfully"))
      && store.events == EventsWithout(old(store.events), id)
      && store.options == OptionsWithout(old(store.options), id)
      && store.participants == ParticipantsWithout(old(store.participants), id)
      && store.votes == VotesWithout(old(store.votes), id)
      && store.links == LinksWithout(old(store.links), id)
  {
    var eventId := EventIdOf(path);
    if eventId == "" {
      return ErrorResponse("Event ID is required");
    }
    if adminKey.None? || adminKey.value == "" {
      return ErrorResponse("Admin key is required", 401);
    }
    var event := FindEventById(store.events, eventId);
    if event.None? {
      return ErrorResponse("Event not found", 404);
    }
    var adminKeyHash := HashString(sha256, adminKey.value);
    if adminKeyHash != event.value.adminKeyHash {
      return ErrorResponse("Invalid admin key", 403);
    }
    var ok := store.DeleteEvent(eventId, fault);
    if !ok {
      return ErrorResponse("Failed to delete event", 500, Some(dbError));
    }
    return JsonResponse(SuccessBody("Event deleted successfully"));
  }

  /** After the delete neither the id nor the share id finds the event, so later reads answer 404. */
  lemma DeletedEventIsGone(events: seq<EventRow>, e: EventRow)
    requires EventsValid(events) && e in events
    ensures FindEventById(EventsWithout(events, e.id), e.id).None?
    ensures FindEventByShareId(EventsWithout(events, e.id), e.shareId).None?
  {
    var rest := EventsWithout(events, e.id);
    var j :| 0 <= j < |events| && events[j] == e;
    forall k | 0 <= k < |rest| ensures rest[k].shareId != e.shareId {
      var i :| 0 <= i < |events| && events[i] == rest[k];
      if rest[k].shareId == e.shareId {
        UniqueKeyPosition(events, EventShareId, i, j);
      }
    }
  }

  /** Every other event is still found by its id and by its share id. */
  lemma OtherEventsRemain(events: seq<EventRow>, id: string, other: EventRow)
    requires EventsValid(events) && other in events && other.id != id
    ensures FindEventById(EventsWithout(events, id), other.id) == Some(other)
    ensures FindEventByShareId(EventsWithout(events, id), other.shareId) == Some(other)
  {
    var rest := EventsWithout(events, id);
    FilterUnique(events, OtherEvent(id), EventId);
    FilterUnique(events, OtherEvent(id), EventShareId);
    var k :| 0 <= k < |events| && events[k] == other;
    assert other in rest;
    var m :| 0 <= m < |rest| && rest[m] == other;
    IdLookupIsUnique(rest, m);
    ShareIdLookupIsUnique(rest, m);
  }
}
