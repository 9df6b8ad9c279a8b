/**
 * The five database tables the edge functions use, as one in-memory store.
 * Rows are kept in insertion order. `Valid()` is what the database
 * enforces: primary keys, the unique keys the code relies on
 * (`events.share_id`, `(participants.event_id, device_hash)`,
 * `(votes.option_id, participant_id)`), the foreign keys, and the
 * `ON DELETE CASCADE` from an event to every row that refers to it.
 * Every write either happens completely or, when `fault` is set or a key
 * would be violated, leaves the tables as they were and reports failure.
 */
module EventStore {
  import opened Wrappers
  import opened Types
  import opened Seqs

  // ---------------------------------------------------------------------
  // Keys

  function EventId(e: EventRow): string { e.id }
  function EventShareId(e: EventRow): string { e.shareId }
  function OptionId(o: OptionRow): string { o.id }
  function ParticipantId(p: ParticipantRow): string { p.id }
  function ParticipantDeviceKey(p: ParticipantRow): (string, string) { (p.eventId, p.deviceHash) }
  function VoteId(v: VoteRow): string { v.id }
  function VoteKey(v: VoteRow): (string, string) { (v.optionId, v.participantId) }
  function LinkId(l: LinkRow): string { l.id }

  function EventIds(events: seq<EventRow>): set<string>
  {
    set e | e in events :: e.id
  }

  /** The (option id, event id) pairs of the options table. */
  function OptionKeys(options: seq<OptionRow>): set<(string, string)>
  {
    set o | o in options :: (o.id, o.eventId)
  }

  /** The (participant id, event id) pairs of the participants table. */
  function ParticipantKeys(participants: seq<ParticipantRow>): set<(string, string)>
  {
    set p | p in participants :: (p.id, p.eventId)
  }

  // ---------------------------------------------------------------------
  // Table invariants

  ghost predicate EventsValid(events: seq<EventRow>)
  {
    UniqueBy(events, EventId) && UniqueBy(events, EventShareId)
  }

  ghost predicate OptionsValid(options: seq<OptionRow>, events: seq<EventRow>)
  {
    && UniqueBy(options, OptionId)
    && forall k :: 0 <= k < |options| ==> options[k].eventId in EventIds(events)
  }

  ghost predicate ParticipantsValid(participants: seq<ParticipantRow>, events: seq<EventRow>)
  {
    && UniqueBy(participants, ParticipantId)
    && UniqueBy(participants, ParticipantDeviceKey)
    && forall k :: 0 <= k < |participants| ==> participants[k].eventId in EventIds(events)
  }

  /** A vote refers to an option and a participant of its own event, and holds 0, 1 or 2. */
  ghost predicate VotesValid(votes: seq<VoteRow>, options: seq<OptionRow>, participants: seq<ParticipantRow>)
  {
    && UniqueBy(votes, VoteId)
    && UniqueBy(votes, VoteKey)
    && forall k :: 0 <= k < |votes| ==>
         && (votes[k].optionId, votes[k].eventId) in OptionKeys(options)
         && (votes[k].participantId, votes[k].eventId) in ParticipantKeys(participants)
         && 0 <= votes[k].value <= 2
  }

  ghost predicate LinksValid(links: seq<LinkRow>, events: seq<EventRow>)
  {
    && UniqueBy(links, LinkId)
    && forall k :: 0 <= k < |links| ==> links[k].eventId in EventIds(events)
  }

  // ---------------------------------------------------------------------
  // Queries (`.select().eq(...).single()` on a unique key)

  /** `events ... .eq('share_id', shareId).single()`. */
  function FindEventByShareId(events: seq<EventRow>, shareId: string): (r: Option<EventRow>)
    ensures r.Some? ==> r.value in events && r.value.shareId == shareId
    ensures r.None? <==> forall k :: 0 <= k < |events| ==> events[k].shareId != shareId
  {
    var i := FirstIndex(events, (e: EventRow) => e.shareId == shareId);
    if i < 0 then None else Some(events[i])
  }

  /** `events ... .eq('id', id).single()`. */
  function FindEventById(events: seq<EventRow>, id: string): (r: Option<EventRow>)
    ensures r.Some? ==> r.value in events && r.value.id == id
    ensures r.None? <==> forall k :: 0 <= k < |events| ==> events[k].id != id
  {
    var i := FirstIndex(events, (e: EventRow) => e.id == id);
    if i < 0 then None else Some(events[i])
  }

  /** `participants ... .eq('event_id', eventId).eq('device_hash', deviceHash).single()`. */
  function FindParticipantByDevice(participants: seq<ParticipantRow>, eventId: string, deviceHash: string)
    : (r: Option<ParticipantRow>)
    ensures r.Some? ==> r.value in participants && r.value.eventId == eventId && r.value.deviceHash == deviceHash
    ensures r.None? <==> forall k :: 0 <= k < |participants| ==>
      !(participants[k].eventId == eventId && participants[k].deviceHash == deviceHash)
  {
    var i := FirstIndex(participants, ParticipantOnDevice(eventId, deviceHash));
    if i < 0 then None else Some(participants[i])
  }

  /** `participants ... .eq('id', id).eq('event_id', eventId).single()`. */
  function FindParticipantOfEvent(participants: seq<ParticipantRow>, id: string, eventId: string)
    : (r: Option<ParticipantRow>)
    ensures r.Some? ==> r.value in participants && r.value.id == id && r.value.eventId == eventId
    ensures r.None? <==> (id, eventId) !in ParticipantKeys(participants)
  {
    var i := FirstIndex(participants, (p: ParticipantRow) => p.id == id && p.eventId == eventId);
    if i < 0 then None else Some(participants[i])
  }

  /** `options ... .eq('id', id).eq('event_id', eventId).single()` found a row. */
  function OptionOfEvent(options: seq<OptionRow>, id: string, eventId: string): (found: bool)
    ensures found <==> (id, eventId) in OptionKeys(options)
  {
    var i := FirstIndex(options, (o: OptionRow) => o.id == id && o.eventId == eventId);
    if i < 0 then
      assert forall o :: o in options ==> (o.id, o.eventId) != (id, eventId);
      false
    else
      true
  }

  /** Under a unique id, looking a row's id up finds that row. */
  lemma IdLookupIsUnique(events: seq<EventRow>, k: int)
    requires UniqueBy(events, EventId) && 0 <= k < |events|
    ensures FindEventById(events, events[k].id) == Some(events[k])
  {
    var r := FindEventById(events, events[k].id);
    assert r.Some?;
    var j :| 0 <= j < |events| && events[j] == r.value;
    UniqueKeyPosition(events, EventId, j, k);
  }

  /** Under a unique share id, looking a row's share id up finds that row. */
  lemma ShareIdLookupIsUnique(events: seq<EventRow>, k: int)
    requires UniqueBy(events, EventShareId) && 0 <= k < |events|
    ensures FindEventByShareId(events, events[k].shareId) == Some(events[k])
  {
    var r := FindEventByShareId(events, events[k].shareId);
    assert r.Some?;
    var j :| 0 <= j < |events| && events[j] == r.value;
    UniqueKeyPosition(events, EventShareId, j, k);
  }

  /** Under the unique key, the row a device lookup finds is the only one with that key. */
  lemma DeviceLookupIsUnique(participants: seq<ParticipantRow>, eventId: string, deviceHash: string, k: int)
    requires UniqueBy(participants, ParticipantDeviceKey)
    requires 0 <= k < |participants| && participants[k].eventId == eventId && participants[k].deviceHash == deviceHash
    ensures FindParticipantByDevice(participants, eventId, deviceHash) == Some(participants[k])
  {
    var r := FindParticipantByDevice(participants, eventId, deviceHash);
    var j :| 0 <= j < |participants| && participants[j] == r.value;
    assert ParticipantDeviceKey(participants[j]) == ParticipantDeviceKey(participants[k]);
  }

  // ---------------------------------------------------------------------
  // Row filters of the queries

  /** `o => o.event_id === eventId`: the row filter of `.eq('event_id', eventId)` on options. */
  function OptionOf(eventId: string): OptionRow -> bool
  {
    (o: OptionRow) => o.eventId == eventId
  }

  /** `.eq('event_id', eventId)` on participants. */
  function ParticipantOf(eventId: string): ParticipantRow -> bool
  {
    (p: ParticipantRow) => p.eventId == eventId
  }

  /** `.eq('event_id', eventId)` on votes. */
  function VoteOf(eventId: string): VoteRow -> bool
  {
    (v: VoteRow) => v.eventId == eventId
  }

  /** `.eq('option_id', optionId).eq('participant_id', participantId)` on votes. */
  function VoteFor(optionId: string, participantId: string): VoteRow -> bool
  {
    (v: VoteRow) => v.optionId == optionId && v.participantId == participantId
  }

  /** `.eq('event_id', eventId).eq('device_hash', deviceHash)` on participants. */
  function ParticipantOnDevice(eventId: string, deviceHash: string): ParticipantRow -> bool
  {
    (p: ParticipantRow) => p.eventId == eventId && p.deviceHash == deviceHash
  }

  /** `.neq` filters a cascading delete of event `id` keeps: rows of other events. */
  function OtherEvent(id: string): EventRow -> bool
  { (e: EventRow) => e.id != id }

  function OptionOfOther(id: string): OptionRow -> bool
  { (o: OptionRow) => o.eventId != id }

  function ParticipantOfOther(id: string): ParticipantRow -> bool
  { (p: ParticipantRow) => p.eventId != id }

  function VoteOfOther(id: string): VoteRow -> bool
  { (v: VoteRow) => v.eventId != id }

  function LinkOfOther(id: string): LinkRow -> bool
  { (l: LinkRow) => l.eventId != id }

  function EventsWithout(events: seq<EventRow>, id: string): seq<EventRow>
  {
    Filter(events, OtherEvent(id))
  }

  function OptionsWithout(options: seq<OptionRow>, id: string): seq<OptionRow>
  {
    Filter(options, OptionOfOther(id))
  }

  function ParticipantsWithout(participants: seq<ParticipantRow>, id: string): seq<ParticipantRow>
  {
    Filter(participants, ParticipantOfOther(id))
  }

  function VotesWithout(votes: seq<VoteRow>, id: string): seq<VoteRow>
  {
    Filter(votes, VoteOfOther(id))
  }

  function LinksWithout(links: seq<LinkRow>, id: string): seq<LinkRow>
  {
    Filter(links, LinkOfOther(id))
  }

  /** The votes after an upsert keyed on (option, participant); `newId` names an inserted row. */
  function UpsertVoteRows(votes: seq<VoteRow>, eventId: string, optionId: string, participantId: string, value: int, newId: string)
    : seq<VoteRow>
  {
    var i := FirstIndex(votes, VoteFor(optionId, participantId));
    if i >= 0 then votes[i := votes[i].(eventId := eventId, value := value)]
    else votes + [VoteRow(newId, eventId, optionId, participantId, value)]
  }

  /** Whether an upsert would need to insert a row, and so a fresh id. */
  predicate HasVote(votes: seq<VoteRow>, optionId: string, participantId: string)
  {
    exists k :: 0 <= k < |votes| && votes[k].optionId == optionId && votes[k].participantId == participantId
  }

  predicate IdUnused(votes: seq<VoteRow>, id: string)
  {
    forall k :: 0 <= k < |votes| ==> votes[k].id != id
  }

  /** An upsert by a known participant on a known option of the event keeps the votes table valid. */
  lemma UpsertVoteRowsValid(votes: seq<VoteRow>, options: seq<OptionRow>, participants: seq<ParticipantRow>,
                            eventId: string, optionId: string, participantId: string, value: int, newId: string)
    requires VotesValid(votes, options, participants)
    requires (optionId, eventId) in OptionKeys(options)
    requires (participantId, eventId) in ParticipantKeys(participants)
    requires 0 <= value <= 2
    requires HasVote(votes, optionId, participantId) || IdUnused(votes, newId)
    ensures VotesValid(UpsertVoteRows(votes, eventId, optionId, participantId, value, newId), options, participants)
  {
    var i := FirstIndex(votes, VoteFor(optionId, participantId));
    var all := UpsertVoteRows(votes, eventId, optionId, participantId, value, newId);
    if i >= 0 {
      forall j | 0 <= j < |all| ensures VoteId(all[j]) == VoteId(votes[j]) && VoteKey(all[j]) == VoteKey(votes[j]) {
      }
    } else {
      var row := VoteRow(newId, eventId, optionId, participantId, value);
      assert all == votes + [row];
      AppendUnique(votes, row, VoteId);
      AppendUnique(votes, row, VoteKey);
    }
    forall j | 0 <= j < |all|
      ensures (all[j].optionId, all[j].eventId) in OptionKeys(options)
      ensures (all[j].participantId, all[j].eventId) in ParticipantKeys(participants)
      ensures 0 <= all[j].value <= 2
    {
      if i >= 0 && j == i {
      } else if j < |votes| {
        assert all[j] == votes[j];
      }
    }
  }

  class Store {
    var events: seq<EventRow>
    var options: seq<OptionRow>
    var participants: seq<ParticipantRow>
    var votes: seq<VoteRow>
    var links: seq<LinkRow>

    ghost predicate Valid()
      reads this
    {
      && EventsValid(events)
      && OptionsValid(options, events)
      && ParticipantsValid(participants, events)
      && VotesValid(votes, options, participants)
      && LinksValid(links, events)
    }

    constructor ()
      ensures Valid()
      ensures events == [] && options == [] && participants == [] && votes == [] && links == []
    {
      events, options, participants, votes, links := [], [], [], [], [];
    }

    /** `events.insert(row)`: fails on a fault or a duplicate `id` or `share_id`. */
    method InsertEvent(row: EventRow, fault: bool) returns (ok: bool)
      requires Valid()
      modifies this
      ensures Valid()
      ensures ok <==> (&& !fault && row.id !in EventIds(old(events))
                       && forall k :: 0 <= k < |old(events)| ==> old(events)[k].shareId != row.shareId)
      ensures events == if ok then old(events) + [row] else old(events)
      ensures options == old(options) && participants == old(participants)
      ensures votes == old(votes) && links == old(links)
    {
      ok := !fault && row.id !in EventIds(events)
            && forall k :: 0 <= k < |events| ==> events[k].shareId != row.shareId;
      if ok {
        assert forall k :: 0 <= k < |events| ==> events[k].id != row.id by {
          forall k | 0 <= k < |events| ensures events[k].id != row.id {
            assert events[k] in events;
          }
        }
        AppendUnique(events, row, EventId);
        AppendUnique(events, row, EventShareId);
        assert EventIds(events + [row]) == EventIds(events) + {row.id};
        events := events + [row];
      }
    }

    /** `options.insert(rows)`: all rows or none; fails on a fault, a duplicate id or an unknown event. */
    method InsertOptions(rows: seq<OptionRow>, fault: bool) returns (ok: bool)
      requires Valid()
      modifies this
      ensures Valid()
      ensures ok <==> && !fault
                      && UniqueBy(old(options) + rows, OptionId)
                      && forall k :: 0 <= k < |rows| ==> rows[k].eventId in EventIds(old(events))
      ensures options == if ok then old(options) + rows else old(options)
      ensures events == old(events) && participants == old(participants)
      ensures votes == old(votes) && links == old(links)
    {
      ok := && !fault
            && UniqueBy(options + rows, OptionId)
            && forall k :: 0 <= k < |rows| ==> rows[k].eventId in EventIds(events);
      if ok {
        var all := options + rows;
        assert forall k :: 0 <= k < |all| ==> all[k].eventId in EventIds(events) by {
          forall k | 0 <= k < |all| ensures all[k].eventId in EventIds(events) {
            if k < |options| { assert all[k] == options[k]; } else { assert all[k] == rows[k - |options|]; }
          }
        }
        assert OptionKeys(options) <= OptionKeys(all);
        options := all;
      }
    }

    /** `links.insert(rows)`: all rows or none. */
    method InsertLinks(rows: seq<LinkRow>, fault: bool) returns (ok: bool)
      requires Valid()
      modifies this
      ensures Valid()
      ensures ok <==> && !fault
                      && UniqueBy(old(links) + rows, LinkId)
                      && forall k :: 0 <= k < |rows| ==> rows[k].eventId in EventIds(old(events))
      ensures links == if ok then old(links) + rows else old(links)
      ensures events == old(events) && options == old(options)
      ensures participants == old(participants) && votes == old(votes)
    {
      ok := && !fault
            && UniqueBy(links + rows, LinkId)
            && forall k :: 0 <= k < |rows| ==> rows[k].eventId in EventIds(events);
      if ok {
        var all := links + rows;
        assert forall k :: 0 <= k < |all| ==> all[k].eventId in EventIds(events) by {
          forall k | 0 <= k < |all| ensures all[k].eventId in EventIds(events) {
            if k < |links| { assert all[k] == links[k]; } else { assert all[k] == rows[k - |links|]; }
          }
        }
        links := all;
      }
    }

    /** `participants.insert(row)`: fails on a fault, a duplicate id or (event, device), or an unknown event. */
    method InsertParticipant(row: ParticipantRow, fault: bool) returns (ok: bool)
      requires Valid()
      modifies this
      ensures Valid()
      ensures ok <==> && !fault
                      && (forall k :: 0 <= k < |old(participants)| ==>
                            old(participants)[k].id != row.id
                            && ParticipantDeviceKey(old(participants)[k]) != ParticipantDeviceKey(row))
                      && row.eventId in EventIds(old(events))
      ensures participants == if ok then old(participants) + [row] else old(participants)
      ensures events == old(events) && options == old(options)
      ensures votes == old(votes) && links == old(links)
    {
      ok := && !fault
            && (forall k :: 0 <= k < |participants| ==>
                  participants[k].id != row.id && ParticipantDeviceKey(participants[k]) != ParticipantDeviceKey(row))
            && row.eventId in EventIds(events);
      if ok {
        AppendUnique(participants, row, ParticipantId);
        AppendUnique(participants, row, ParticipantDeviceKey);
        var all := participants + [row];
        assert forall k :: 0 <= k < |all| ==> all[k].eventId in EventIds(events) by {
          forall k | 0 <= k < |all| ensures all[k].eventId in EventIds(events) {
            if k < |participants| { assert all[k] == participants[k]; }
          }
        }
        assert ParticipantKeys(participants) <= ParticipantKeys(all);
        participants := all;
      }
    }

    /** `participants.update({nickname}).eq('id', id)` on an existing row at position `k`. */
    method UpdateNickname(k: int, nickname: string, fault: bool) returns (ok: bool)
      requires Valid() && 0 <= k < |participants|
      modifies this
      ensures Valid()
      ensures ok == !fault
      ensures participants == if ok then old(participants)[k := old(participants)[k].(nickname := nickname)]
                              else old(participants)
      ensures events == old(events) && options == old(options)
      ensures votes == old(votes) && links == old(links)
    {
      ok := !fault;
      if ok {
        var all := participants[k := participants[k].(nickname := nickname)];
        assert forall j :: 0 <= j < |all| ==>
          && ParticipantId(all[j]) == ParticipantId(participants[j])
          && ParticipantDeviceKey(all[j]) == ParticipantDeviceKey(participants[j])
          && all[j].eventId == participants[j].eventId;
        assert ParticipantKeys(all) == ParticipantKeys(participants) by {
          forall x | x in ParticipantKeys(participants) ensures x in ParticipantKeys(all) {
            var p :| p in participants && x == (p.id, p.eventId);
            var j :| 0 <= j < |participants| && participants[j] == p;
            assert (all[j].id, all[j].eventId) == x;
          }
        }
        participants := all;
      }
    }

    /**
     * `votes.upsert({event_id, option_id, participant_id, value}, {onConflict:
     * 'option_id,participant_id'})`: overwrites the row with this (option,
     * participant) or inserts one with id `newId`; fails on a fault or a
     * duplicate `newId`.
     */
    method UpsertVote(eventId: string, optionId: string, participantId: string, value: int, newId: string, fault: bool)
      returns (ok: bool)
      requires Valid()
      requires (optionId, eventId) in OptionKeys(options)
      requires (participantId, eventId) in ParticipantKeys(participants)
      requires 0 <= value <= 2
      modifies this
      ensures Valid()
      ensures ok <==> !fault && (HasVote(old(votes), optionId, participantId) || IdUnused(old(votes), newId))
      ensures votes == if ok then UpsertVoteRows(old(votes), eventId, optionId, participantId, value, newId)
                       else old(votes)
      ensures events == old(events) && options == old(options)
      ensures participants == old(participants) && links == old(links)
    {
      var i := FirstIndex(votes, VoteFor(optionId, participantId));
      ok := !fault && (i >= 0 || IdUnused(votes, newId));
      if ok {
        UpsertVoteRowsValid(votes, options, participants, eventId, optionId, participantId, value, newId);
        votes := UpsertVoteRows(votes, eventId, optionId, participantId, value, newId);
      }
    }

    /**
     * `events.delete().eq('id', id)` with the cascade: the event and every
     * option, participant, vote and link of it go; every other row stays.
     */
    method DeleteEvent(id: string, fault: bool) returns (ok: bool)
      requires Valid()
      modifies this
      ensures Valid()
      ensures ok == !fault
      ensures ok ==> && events == EventsWithout(old(events), id)
                     && options == OptionsWithout(old(options), id)
                     && participants == ParticipantsWithout(old(participants), id)
                     && votes == VotesWithout(old(votes), id)
                     && links == LinksWithout(old(links), id)
      ensures !ok ==> && events == old(events) && options == old(options) && participants == old(participants)
                      && votes == old(votes) && links == old(links)
    {
      ok := !fault;
      if ok {
        var es := EventsWithout(events, id);
        var os := OptionsWithout(options, id);
        var ps := ParticipantsWithout(participants, id);
        var vs := VotesWithout(votes, id);
        var ls := LinksWithout(links, id);
        CascadeKeepsValid(events, options, participants, votes, links, id);
        events, options, participants, votes, links := es, os, ps, vs, ls;
      }
    }
  }

  lemma EventIdsWithout(events: seq<EventRow>, id: string, x: string)
    requires x in EventIds(events) && x != id
    ensures x in EventIds(EventsWithout(events, id))
  {
    var e :| e in events && e.id == x;
    var k :| 0 <= k < |events| && events[k] == e;
    assert EventsWithout(events, id) == Filter(events, OtherEvent(id));
  }

  /** Deleting one event with its cascade keeps every table invariant. */
  lemma CascadeKeepsValid(
    events: seq<EventRow>, options: seq<OptionRow>, participants: seq<ParticipantRow>,
    votes: seq<VoteRow>, links: seq<LinkRow>, id: string)
    requires EventsValid(events) && OptionsValid(options, events) && ParticipantsValid(participants, events)
    requires VotesValid(votes, options, participants) && LinksValid(links, events)
    ensures EventsValid(EventsWithout(events, id))
    ensures OptionsValid(OptionsWithout(options, id), EventsWithout(events, id))
    ensures ParticipantsValid(ParticipantsWithout(participants, id), EventsWithout(events, id))
    ensures VotesValid(VotesWithout(votes, id), OptionsWithout(options, id), ParticipantsWithout(participants, id))
    ensures LinksValid(LinksWithout(links, id), EventsWithout(events, id))
  {
    var es := EventsWithout(events, id);
    FilterUnique(events, OtherEvent(id), EventId);
    FilterUnique(events, OtherEvent(id), EventShareId);

    var os := OptionsWithout(options, id);
    FilterUnique(options, OptionOfOther(id), OptionId);
    forall k | 0 <= k < |os| ensures os[k].eventId in EventIds(es) {
      var m :| 0 <= m < |options| && options[m] == os[k];
      EventIdsWithout(events, id, os[k].eventId);
    }

    var ps := ParticipantsWithout(participants, id);
    FilterUnique(participants, ParticipantOfOther(id), ParticipantId);
    FilterUnique(participants, ParticipantOfOther(id), ParticipantDeviceKey);
    forall k | 0 <= k < |ps| ensures ps[k].eventId in EventIds(es) {
      var m :| 0 <= m < |participants| && participants[m] == ps[k];
      EventIdsWithout(events, id, ps[k].eventId);
    }

    var vs := VotesWithout(votes, id);
    FilterUnique(votes, VoteOfOther(id), VoteId);
    FilterUnique(votes, VoteOfOther(id), VoteKey);
    forall k | 0 <= k < |vs|
      ensures (vs[k].optionId, vs[k].eventId) in OptionKeys(os)
      ensures (vs[k].participantId, vs[k].eventId) in ParticipantKeys(ps)
      ensures 0 <= vs[k].value <= 2
    {
      var v := vs[k];
      var m :| 0 <= m < |votes| && votes[m] == v;
      var o :| o in options && (o.id, o.eventId) == (v.optionId, v.eventId);
      var oi :| 0 <= oi < |options| && options[oi] == o;
      assert o in os;
      var p :| p in participants && (p.id, p.eventId) == (v.participantId, v.eventId);
      var pi :| 0 <= pi < |participants| && participants[pi] == p;
      assert p in ps;
    }

    var ls := LinksWithout(links, id);
    FilterUnique(links, LinkOfOther(id), LinkId);
    forall k | 0 <= k < |ls| ensures ls[k].eventId in EventIds(es) {
      var m :| 0 <= m < |links| && links[m] == ls[k];
      EventIdsWithout(events, id, ls[k].eventId);
    }
  }

  /** After the cascade no row refers to the deleted event, and every row of another event is still there. */
  lemma CascadeRemovesExactlyTheEvent(
    options: seq<OptionRow>, participants: seq<ParticipantRow>, votes: seq<VoteRow>, id: string)
    ensures forall k :: 0 <= k < |OptionsWithout(options, id)| ==> OptionsWithout(options, id)[k].eventId != id
    ensures forall k :: 0 <= k < |options| && options[k].eventId != id ==> options[k] in OptionsWithout(options, id)
    ensures forall k :: 0 <= k < |ParticipantsWithout(participants, id)| ==>
      ParticipantsWithout(participants, id)[k].eventId != id
    ensures forall k :: 0 <= k < |participants| && participants[k].eventId != id ==>
      participants[k] in ParticipantsWithout(participants, id)
    ensures forall k :: 0 <= k < |VotesWithout(votes, id)| ==> VotesWithout(votes, id)[k].eventId != id
    ensures forall k :: 0 <= k < |votes| && votes[k].eventId != id ==> votes[k] in VotesWithout(votes, id)
  {
  }

  /**
   * Deleting an event nothing refers to removes only its own row: the
   * rollback of a half-created event restores the tables it had before.
   */
  lemma {:induction false} RollbackRestores(events: seq<EventRow>, options: seq<OptionRow>, participants: seq<ParticipantRow>,
                                            votes: seq<VoteRow>, links: seq<LinkRow>, row: EventRow)
    requires OptionsValid(options, events) && ParticipantsValid(participants, events)
    requires VotesValid(votes, options, participants) && LinksValid(links, events)
    requires row.id !in EventIds(events)
    ensures EventsWithout(events + [row], row.id) == events
    ensures OptionsWithout(options, row.id) == options
    ensures ParticipantsWithout(participants, row.id) == participants
    ensures VotesWithout(votes, row.id) == votes
    ensures LinksWithout(links, row.id) == links
  {
    var id := row.id;
    assert forall k :: 0 <= k < |events| ==> events[k].id != id by {
      forall k | 0 <= k < |events| ensures events[k].id != id { assert events[k] in events; }
    }
    FilterAppend(events, [row], OtherEvent(id));
    FilterAll(events, OtherEvent(id));
    assert Filter([row], OtherEvent(id)) == [];
    FilterAll(options, OptionOfOther(id));
    FilterAll(participants, ParticipantOfOther(id));
    FilterAll(links, LinkOfOther(id));
    forall k | 0 <= k < |votes| ensures votes[k].eventId != id {
      var o :| o in options && (o.id, o.eventId) == (votes[k].optionId, votes[k].eventId);
      var j :| 0 <= j < |options| && options[j] == o;
    }
    FilterAll(votes, VoteOfOther(id));
  }
}
