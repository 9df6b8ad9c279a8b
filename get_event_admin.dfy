/**
 * GET get-event-admin/{eventId}: the same snapshot as get-event, found by
 * event id, for a caller holding the admin key.
 */
module AdminSnapshot {
  import opened Wrappers
  import opened Types
  import opened Seqs
  import opened SharedUtils
  import opened Requests
  import opened EventStore
  import opened AdminAuth
  import opened PublicSnapshot

  /** The handler; it only reads. The guards come before any read of the options, participants or votes. */
  function GetEventAdmin(events: seq<EventRow>, options: seq<OptionRow>, participants: seq<ParticipantRow>,
                         votes: seq<VoteRow>, path: string, adminKey: Option<string>, sha256: string -> seq<byte>,
                         faults: FetchFaults): Response
  {
    match Authorize(events, path, adminKey, sha256)
    case Rejected(response) => response
    case Authorized(e) => Fetch(e, options, participants, votes, faults)
  }

  /**
   * The admin view of an event is what the public view shows under its
   * share id: the only differences between the handlers are how the event
   * is found and the key check.
   */
  lemma AdminViewIsPublicView(events: seq<EventRow>, options: seq<OptionRow>, participants: seq<ParticipantRow>,
                              votes: seq<VoteRow>, path: string, adminKey: Option<string>, sha256: string -> seq<byte>,
                              faults: FetchFaults, publicPath: string)
    requires EventsValid(events)
    requires Authorize(events, path, adminKey, sha256).Authorized?
    requires LastSegment(publicPath) == Authorize(events, path, adminKey, sha256).event.shareId
    requires LastSegment(publicPath) != ""
    ensures GetEventAdmin(events, options, participants, votes, path, adminKey, sha256, faults)
         == GetEvent(events, options, participants, votes, publicPath, faults)
  {
    var e := Authorize(events, path, adminKey, sha256).event;
    AuthorizedIff(events, path, adminKey, sha256);
    var found := FindEventByShareId(events, e.shareId);
    var i :| 0 <= i < |events| && events[i] == e;
    var j :| 0 <= j < |events| && events[j] == found.value;
    UniqueKeyPosition(events, EventShareId, i, j);
  }

  /** Without the matching key no event data is returned: every rejection is an error body. */
  lemma RejectionRevealsNothing(events: seq<EventRow>, options: seq<OptionRow>, participants: seq<ParticipantRow>,
                                votes: seq<VoteRow>, path: string, adminKey: Option<string>, sha256: string -> seq<byte>,
                                faults: FetchFaults)
    requires UniqueBy(events, EventId)
    requires !exists k :: 0 <= k < |events| && events[k].id == LastSegment(path) && adminKey.Some?
                          && events[k].adminKeyHash == HashString(sha256, adminKey.value)
    ensures GetEventAdmin(events, options, participants, votes, path, adminKey, sha256, faults).body.ErrorBody?
    ensures GetEventAdmin(events, options, participants, votes, path, adminKey, sha256, faults).status in {400, 401, 403, 404}
  {
    AuthorizedIff(events, path, adminKey, sha256);
  }
}
