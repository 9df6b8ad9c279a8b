/**
 * GET get-event/{shareId}: the public snapshot of an event (the event
 * without its `admin_key_hash`, its options by `sort_index`, its
 * participants by `created_at`, and its votes), found by share id.
 */
module PublicSnapshot {
  import opened Wrappers
  import opened Types
  import opened Seqs
  import opened Ordering
  import opened SharedUtils
  import opened Requests
  import opened EventStore

  function SortIndex(o: OptionRow): int { o.sortIndex }
  function CreatedAt(p: ParticipantRow): int { p.createdAt }

  /** `options ... .eq('event_id', eventId).order('sort_index')`. */
  function EventOptions(options: seq<OptionRow>, eventId: string): (r: seq<OptionRow>)
    ensures SortedBy(r, SortIndex)
    ensures multiset(r) == multiset(Filter(options, OptionOf(eventId)))
    ensures forall k :: 0 <= k < |r| ==> r[k] in options && r[k].eventId == eventId
    ensures forall k :: 0 <= k < |options| && options[k].eventId == eventId ==> options[k] in r
  {
    var mine := Filter(options, OptionOf(eventId));
    var r := SortBy(mine, SortIndex);
    assert forall k :: 0 <= k < |r| ==> r[k] in mine by {
      forall k | 0 <= k < |r| ensures r[k] in mine {
        assert r[k] in multiset(r);
      }
    }
    assert forall k :: 0 <= k < |mine| ==> mine[k] in r by {
      forall k | 0 <= k < |mine| ensures mine[k] in r {
        assert mine[k] in multiset(mine);
      }
    }
    r
  }

  /** `participants ... .eq('event_id', eventId).order('created_at')`, before the projection. */
  function EventParticipantRows(participants: seq<ParticipantRow>, eventId: string): (r: seq<ParticipantRow>)
    ensures SortedBy(r, CreatedAt)
    ensures multiset(r) == multiset(Filter(participants, ParticipantOf(eventId)))
    ensures forall k :: 0 <= k < |r| ==> r[k] in participants && r[k].eventId == eventId
    ensures forall k :: 0 <= k < |participants| && participants[k].eventId == eventId ==> participants[k] in r
  {
    var mine := Filter(participants, ParticipantOf(eventId));
    var r := SortBy(mine, CreatedAt);
    assert forall k :: 0 <= k < |r| ==> r[k] in mine by {
      forall k | 0 <= k < |r| ensures r[k] in mine {
        assert r[k] in multiset(r);
      }
    }
    assert forall k :: 0 <= k < |mine| ==> mine[k] in r by {
      forall k | 0 <= k < |mine| ensures mine[k] in r {
        assert mine[k] in multiset(mine);
      }
    }
    r
  }

  /** `select('id, nickname')` of those rows. */
  function EventParticipants(participants: seq<ParticipantRow>, eventId: string): (r: seq<ParticipantView>)
    ensures var rows := EventParticipantRows(participants, eventId);
      |r| == |rows| && forall k :: 0 <= k < |r| ==> r[k] == ParticipantView(rows[k].id, rows[k].nickname)
  {
    var rows := EventParticipantRows(participants, eventId);
    seq(|rows|, k requires 0 <= k < |rows| => ParticipantViewOf(rows[k]))
  }

  /** `votes ... .eq('event_id', eventId)`, projected to `id, option_id, participant_id, value`. */
  function EventVotes(votes: seq<VoteRow>, eventId: string): (r: seq<VoteView>)
    ensures |r| == Count(votes, VoteOf(eventId))
    ensures forall k :: 0 <= k < |r| ==> exists j :: 0 <= j < |votes| && votes[j].eventId == eventId && r[k] == VoteViewOf(votes[j])
    ensures forall j :: 0 <= j < |votes| && votes[j].eventId == eventId ==> VoteViewOf(votes[j]) in r
  {
    var mine := Filter(votes, VoteOf(eventId));
    var r := seq(|mine|, k requires 0 <= k < |mine| => VoteViewOf(mine[k]));
    assert forall k :: 0 <= k < |r| ==> exists j :: 0 <= j < |votes| && votes[j].eventId == eventId && r[k] == VoteViewOf(votes[j]) by {
      forall k | 0 <= k < |r|
        ensures exists j :: 0 <= j < |votes| && votes[j].eventId == eventId && r[k] == VoteViewOf(votes[j])
      {
        var j :| 0 <= j < |votes| && votes[j] == mine[k];
      }
    }
    assert forall j :: 0 <= j < |votes| && votes[j].eventId == eventId ==> VoteViewOf(votes[j]) in r by {
      forall j | 0 <= j < |votes| && votes[j].eventId == eventId ensures VoteViewOf(votes[j]) in r {
        var k :| 0 <= k < |mine| && mine[k] == votes[j];
        assert r[k] == VoteViewOf(votes[j]);
      }
    }
    r
  }

  /** Whether each of the three reads reports an error. */
  datatype FetchFaults = FetchFaults(options: bool, participants: bool, votes: bool)

  /** The reads after the event is found, shared with get-event-admin. */
  function Fetch(e: EventRow, options: seq<OptionRow>, participants: seq<ParticipantRow>, votes: seq<VoteRow>,
                 faults: FetchFaults): Response
  {
    if faults.options then ErrorResponse("Failed to fetch options", 500)
    else if faults.participants then ErrorResponse("Failed to fetch participants", 500)
    else if faults.votes then ErrorResponse("Failed to fetch votes", 500)
    else JsonResponse(SnapshotBody(Snapshot(PublicView(e), EventOptions(options, e.id),
                                            EventParticipants(participants, e.id), EventVotes(votes, e.id))))
  }

  /** The handler; it only reads. */
  function GetEvent(events: seq<EventRow>, options: seq<OptionRow>, participants: seq<ParticipantRow>, votes: seq<VoteRow>,
                    path: string, faults: FetchFaults): Response
  {
    var shareId := LastSegment(path);
    if shareId == "" then ErrorResponse("Share ID is required")
    else match FindEventByShareId(events, shareId)
      case None => ErrorResponse("Event not found", 404)
      case Some(e) => Fetch(e, options, participants, votes, faults)
  }

  /**
   * A 200 answer is the snapshot of the one event with the requested share
   * id, holding exactly that event's options, participants and votes.
   */
  lemma GetEventAnswersForTheShareId(events: seq<EventRow>, options: seq<OptionRow>, participants: seq<ParticipantRow>,
                                     votes: seq<VoteRow>, path: string, faults: FetchFaults)
    requires EventsValid(events)
    requires GetEvent(events, options, participants, votes, path, faults).status == 200
    ensures var s := GetEvent(events, options, participants, votes, path, faults).body.snapshot;
      && LastSegment(path) != "" && !faults.options && !faults.participants && !faults.votes
      && exists k :: 0 <= k < |events| && events[k].shareId == LastSegment(path)
           && s == Snapshot(PublicView(events[k]), EventOptions(options, events[k].id),
                            EventParticipants(participants, events[k].id), EventVotes(votes, events[k].id))
           && forall j :: 0 <= j < |events| && events[j].shareId == LastSegment(path) ==> j == k
  {
    var e := FindEventByShareId(events, LastSegment(path)).value;
    var k :| 0 <= k < |events| && events[k] == e;
    forall j | 0 <= j < |events| && events[j].shareId == LastSegment(path) ensures j == k {
      UniqueKeyPosition(events, EventShareId, j, k);
    }
  }
}
