/**
 * The checks get-event-admin and delete-event make before they act: an
 * event id in the path, an `X-Admin-Key` header, an event with that id, and
 * a key whose SHA-256 hex digest is the stored `admin_key_hash`.
 */
module AdminAuth {
  import opened Wrappers
  import opened Types
  import opened Seqs
  import opened SharedUtils
  import opened Requests
  import opened EventStore

  datatype Authorization = Authorized(event: EventRow) | Rejected(response: Response)

  /** `pathParts[pathParts.length - 1]`. */
  function EventIdOf(path: string): string
  {
    LastSegment(path)
  }

  /** The guard chain, in the handlers' order: 400, 401, 404, 403. */
  function Authorize(events: seq<EventRow>, path: string, adminKey: Option<string>,
                     sha256: string -> seq<byte>): Authorization
  {
    if EventIdOf(path) == "" then Rejected(ErrorResponse("Event ID is required"))
    else if adminKey.None? || adminKey.value == "" then Rejected(ErrorResponse("Admin key is required", 401))
    else match FindEventById(events, EventIdOf(path))
      case None => Rejected(ErrorResponse("Event not found", 404))
      case Some(e) =>
        if HashString(sha256, adminKey.value) != e.adminKeyHash then Rejected(ErrorResponse("Invalid admin key", 403))
        else Authorized(e)
  }

  /**
   * A request is authorized exactly when the path names an event whose
   * stored hash is the hash of a non-empty key sent; the event it gets is
   * then that event, the only one with the id.
   */
  lemma AuthorizedIff(events: seq<EventRow>, path: string, adminKey: Option<string>, sha256: string -> seq<byte>)
    requires UniqueBy(events, EventId)
    ensures Authorize(events, path, adminKey, sha256).Authorized? <==>
      && EventIdOf(path) != "" && adminKey.Some? && adminKey.value != ""
      && exists k :: 0 <= k < |events| && events[k].id == EventIdOf(path)
                                        && events[k].adminKeyHash == HashString(sha256, adminKey.value)
    ensures Authorize(events, path, adminKey, sha256).Authorized? ==>
      && Authorize(events, path, adminKey, sha256).event in events
      && Authorize(events, path, adminKey, sha256).event.id == EventIdOf(path)
  {
    var id := EventIdOf(path);
    if id != "" && adminKey.Some? && adminKey.value != "" {
      var found := FindEventById(events, id);
      if k :| 0 <= k < |events| && events[k].id == id && events[k].adminKeyHash == HashString(sha256, adminKey.value) {
        var j :| 0 <= j < |events| && events[j] == found.value;
        UniqueKeyPosition(events, EventId, j, k);
      }
    }
  }

  /**
   * For an event as create-event stores it (the hash of the key it handed
   * out), a key is accepted exactly when its digest equals that key's.
   */
  lemma IssuedKeyIsAccepted(events: seq<EventRow>, path: string, sha256: string -> seq<byte>, issued: string, sent: string)
    requires UniqueBy(events, EventId)
    requires EventIdOf(path) != "" && sent != ""
    requires exists k :: 0 <= k < |events| && events[k].id == EventIdOf(path) && events[k].adminKeyHash == HashString(sha256, issued)
    ensures Authorize(events, path, Some(sent), sha256).Authorized? <==> sha256(sent) == sha256(issued)
  {
    AuthorizedIff(events, path, Some(sent), sha256);
    HashStringMatches(sha256, sent, issued);
    var k :| 0 <= k < |events| && events[k].id == EventIdOf(path) && events[k].adminKeyHash == HashString(sha256, issued);
    if Authorize(events, path, Some(sent), sha256).Authorized? {
      var j :| 0 <= j < |events| && events[j].id == EventIdOf(path)
                                  && events[j].adminKeyHash == HashString(sha256, sent);
      UniqueKeyPosition(events, EventId, j, k);
    }
  }
}
