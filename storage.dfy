/**
 * The browser-side persistence of the scheduler (`storage.ts`): the
 * device hash, the per-event participant credentials that expire after 30
 * days, and the list of events this browser created, most recent first,
 * capped at 50 and filtered to the last 90 days.
 *
 * `localStorage` is a class over a key/value map. Its values are modelled
 * by what `JSON.parse` makes of them: a participant record, a list of
 * created-event records, or plain text that is not such a record (the
 * empty string among it). `Date.now()`, `Math.random()` and whether a
 * `window` exists are parameters.
 */
module ClientStorage {
  import opened Wrappers
  import Text
  import opened Seqs
  import SharedUtils

  /** `ParticipantStorage`. */
  datatype ParticipantRecord = ParticipantRecord(
    shareId: string,
    participantId: string,
    participantToken: string,
    deviceHash: string,
    nickname: string,
    timestamp: int)

  /** `CreatedEventStorage`. */
  datatype CreatedEventRecord = CreatedEventRecord(
    eventId: string,
    shareId: string,
    adminKey: string,
    title: string,
    adminUrl: string,
    shareUrl: string,
    createdAt: int)

  /** A stored value, as the code reads it back. */
  datatype Item =
    | Plain(text: string)
    | ParticipantJson(participant: ParticipantRecord)
    | CreatedEventsJson(events: seq<CreatedEventRecord>)

  const ParticipantPrefix: string := "scheduler_participant_"
  const DeviceHashKey: string := "scheduler_device_hash"
  const CreatedEventsKey: string := "scheduler_created_events"

  const ThirtyDaysMs: int := 30 * 24 * 60 * 60 * 1000
  const NinetyDaysMs: int := 90 * 24 * 60 * 60 * 1000
  const MaxCreatedEvents: nat := 50
  const DeviceHashLength: nat := 32

  function ParticipantKey(shareId: string): string
  {
    ParticipantPrefix + shareId
  }

  /** The three kinds of key never collide. */
  lemma {:induction false} KeysAreDistinct(a: string, b: string)
    ensures ParticipantKey(a) == ParticipantKey(b) ==> a == b
    ensures Text.StartsWith(ParticipantKey(a), ParticipantPrefix)
    ensures !Text.StartsWith(DeviceHashKey, ParticipantPrefix)
    ensures !Text.StartsWith(CreatedEventsKey, ParticipantPrefix)
    ensures DeviceHashKey != CreatedEventsKey
  {
    assert ParticipantKey(a)[|ParticipantPrefix|..] == a;
    assert ParticipantKey(b)[|ParticipantPrefix|..] == b;
    assert ParticipantKey(a)[..|ParticipantPrefix|] == ParticipantPrefix;
    assert CreatedEventsKey[10] != ParticipantPrefix[10];
    assert DeviceHashKey[10] != CreatedEventsKey[10];
  }

  /**
   * Records sit only where the code puts them: participant records under
   * the participant prefix, the created-events list under its own key.
   */
  predicate ItemsValid(items: map<string, Item>)
  {
    forall k | k in items ::
      (items[k].ParticipantJson? ==> Text.StartsWith(k, ParticipantPrefix)) &&
      (items[k].CreatedEventsJson? ==> k == CreatedEventsKey)
  }

  // Device hash

  /** The stored device hash, `""` when there is none (`!deviceHash`). */
  function StoredHash(items: map<string, Item>): string
  {
    if DeviceHashKey in items && items[DeviceHashKey].Plain? then items[DeviceHashKey].text else ""
  }

  /** `Math.floor(Math.random() * 16)`, thirty-two times. */
  predicate Nibbles(picks: seq<int>)
  {
    |picks| == DeviceHashLength && forall k :: 0 <= k < |picks| ==> 0 <= picks[k] < 16
  }

  /** Each pick written as one lowercase hex digit, joined. */
  function NewDeviceHash(picks: seq<int>): (h: string)
    requires Nibbles(picks)
    ensures |h| == DeviceHashLength
    ensures forall k :: 0 <= k < |h| ==> h[k] in SharedUtils.HexDigits
  {
    seq(DeviceHashLength, k requires 0 <= k < DeviceHashLength => SharedUtils.HexDigit(picks[k]))
  }

  /** `getOrCreateDeviceHash`: the hash it returns and the storage afterwards. */
  function DeviceHash(items: map<string, Item>, hasWindow: bool, picks: seq<int>): (r: (string, map<string, Item>))
    requires Nibbles(picks)
    ensures !hasWindow ==> r == ("", items)
    ensures hasWindow && StoredHash(items) != "" ==> r == (StoredHash(items), items)
    ensures hasWindow && StoredHash(items) == "" ==>
      |r.0| == DeviceHashLength && (forall k :: 0 <= k < |r.0| ==> r.0[k] in SharedUtils.HexDigits) &&
      r.1 == items[DeviceHashKey := Plain(r.0)]
    ensures hasWindow ==> r.0 != "" && StoredHash(r.1) == r.0
  {
    if !hasWindow then ("", items)
    else if StoredHash(items) != "" then (StoredHash(items), items)
    else
      var h := NewDeviceHash(picks);
      assert h[0] in SharedUtils.HexDigits;
      (h, items[DeviceHashKey := Plain(h)])
  }

  /** Once a hash is stored, every later call returns it and writes nothing, whatever the random picks. */
  lemma DeviceHashIsStable(items: map<string, Item>, first: seq<int>, second: seq<int>)
    requires Nibbles(first) && Nibbles(second)
    ensures DeviceHash(DeviceHash(items, true, first).1, true, second) == DeviceHash(items, true, first)
  {
  }

  // Participant records

  /** `saveParticipantData`: the record under its share id, stamped with `now`. */
  function SaveParticipant(items: map<string, Item>, hasWindow: bool, data: ParticipantRecord, now: int): (r: map<string, Item>)
    ensures !hasWindow ==> r == items
    ensures hasWindow ==> r == items[ParticipantKey(data.shareId) := ParticipantJson(data.(timestamp := now))]
    ensures ItemsValid(items) ==> ItemsValid(r)
  {
    KeysAreDistinct(data.shareId, data.shareId);
    if !hasWindow then items else items[ParticipantKey(data.shareId) := ParticipantJson(data.(timestamp := now))]
  }

  /** `removeParticipantData`. */
  function RemoveParticipant(items: map<string, Item>, hasWindow: bool, shareId: string): (r: map<string, Item>)
    ensures !hasWindow ==> r == items
    ensures hasWindow ==> forall k :: k in r <==> k in items && k != ParticipantKey(shareId)
    ensures forall k :: k in r ==> r[k] == items[k]
  {
    if !hasWindow then items else items - {ParticipantKey(shareId)}
  }

  /**
   * `loadParticipantData`: `None` unless a participant record is stored for
   * the share id; a record older than 30 days (`now - timestamp > 30 days`)
   * is deleted and reads as `None`.
   */
  function LoadParticipant(items: map<string, Item>, hasWindow: bool, shareId: string, now: int): (r: (Option<ParticipantRecord>, map<string, Item>))
    ensures r.0.Some? <==>
      hasWindow && ParticipantKey(shareId) in items && items[ParticipantKey(shareId)].ParticipantJson? &&
      now - items[ParticipantKey(shareId)].participant.timestamp <= ThirtyDaysMs
    ensures r.0.Some? ==> items[ParticipantKey(shareId)] == ParticipantJson(r.0.value)
    ensures r.1 == (if hasWindow && ParticipantKey(shareId) in items && items[ParticipantKey(shareId)].ParticipantJson? &&
                      now - items[ParticipantKey(shareId)].participant.timestamp > ThirtyDaysMs
                    then RemoveParticipant(items, true, shareId) else items)
  {
    var key := ParticipantKey(shareId);
    if !hasWindow || key !in items then (None, items)
    else match items[key]
      case ParticipantJson(p) =>
        if now - p.timestamp > ThirtyDaysMs then (None, RemoveParticipant(items, true, shareId)) else (Some(p), items)
      // `!stored`, or text that does not parse: the catch
      case _ => (None, items)
  }

  /** A saved record reads back, with `timestamp = now`, until exactly 30 days have passed. */
  lemma {:induction false} SavedParticipantReadsBack(items: map<string, Item>, data: ParticipantRecord, saved: int, later: int)
    requires saved <= later
    ensures var stored := SaveParticipant(items, true, data, saved);
      LoadParticipant(stored, true, data.shareId, later) ==
        if later - saved <= ThirtyDaysMs then (Some(data.(timestamp := saved)), stored)
        else (None, stored - {ParticipantKey(data.shareId)})
  {
    var stored := SaveParticipant(items, true, data, saved);
    assert stored[ParticipantKey(data.shareId)] == ParticipantJson(data.(timestamp := saved));
  }

  /** An expired record is gone after the first load, so every later load misses too. */
  lemma ExpiredRecordStaysGone(items: map<string, Item>, shareId: string, now: int, later: int)
    requires LoadParticipant(items, true, shareId, now).0.None?
    ensures LoadParticipant(LoadParticipant(items, true, shareId, now).1, true, shareId, later).0.None?
  {
  }

  /** `clearAllParticipantData`: every key under the participant prefix goes, nothing else changes. */
  function ClearParticipants(items: map<string, Item>, hasWindow: bool): (r: map<string, Item>)
    ensures !hasWindow ==> r == items
    ensures hasWindow ==> forall k :: k in r <==> k in items && !Text.StartsWith(k, ParticipantPrefix)
    ensures forall k :: k in r ==> r[k] == items[k]
  {
    if !hasWindow then items else map k | k in items && !Text.StartsWith(k, ParticipantPrefix) :: items[k]
  }

  // Created events

  /** `now - createdAt < 90 days`. */
  function Recent(now: int): CreatedEventRecord -> bool
  {
    (e: CreatedEventRecord) => now - e.createdAt < NinetyDaysMs
  }

  /** `event.eventId !== eventId`. */
  function OtherThan(eventId: string): CreatedEventRecord -> bool
  {
    (e: CreatedEventRecord) => e.eventId != eventId
  }

  /** The list as parsed; empty when nothing (or no list) is stored. */
  function StoredEvents(items: map<string, Item>): seq<CreatedEventRecord>
  {
    if CreatedEventsKey in items && items[CreatedEventsKey].CreatedEventsJson? then items[CreatedEventsKey].events else []
  }

  /**
   * `getCreatedEvents`: the stored events younger than 90 days, in their
   * stored order. Storage is rewritten only when some event was dropped.
   */
  function ReadCreated(items: map<string, Item>, hasWindow: bool, now: int): (r: (seq<CreatedEventRecord>, map<string, Item>))
    ensures !hasWindow ==> r == ([], items)
    ensures hasWindow ==> forall e :: e in r.0 <==> e in StoredEvents(items) && now - e.createdAt < NinetyDaysMs
    ensures hasWindow ==> IsSubsequence(r.0, StoredEvents(items))
    ensures r.1 == items <==> !hasWindow || |r.0| == |StoredEvents(items)|
    ensures r.1 != items ==> r.1 == items[CreatedEventsKey := CreatedEventsJson(r.0)]
    ensures ItemsValid(items) ==> ItemsValid(r.1)
  {
    if !hasWindow || CreatedEventsKey !in items || !items[CreatedEventsKey].CreatedEventsJson? then ([], items)
    else
      var events := items[CreatedEventsKey].events;
      var valid := Filter(events, Recent(now));
      FilterIsSubsequence(events, Recent(now));
      if |valid| != |events| then
        assert items[CreatedEventsKey := CreatedEventsJson(valid)][CreatedEventsKey] != items[CreatedEventsKey];
        (valid, items[CreatedEventsKey := CreatedEventsJson(valid)])
      else (valid, items)
  }

  /** A second read returns the same list and writes nothing. */
  lemma {:induction false} ReadCreatedSettles(items: map<string, Item>, now: int)
    ensures ReadCreated(ReadCreated(items, true, now).1, true, now) == (ReadCreated(items, true, now).0, ReadCreated(items, true, now).1)
  {
    var (valid, after) := ReadCreated(items, true, now);
    if CreatedEventsKey in items && items[CreatedEventsKey].CreatedEventsJson? {
      var events := items[CreatedEventsKey].events;
      if |valid| == |events| {
        FilterFull(events, Recent(now));
      }
      assert StoredEvents(after) == valid;
      FilterAll(valid, Recent(now));
    }
  }

  /** `saveCreatedEvent`: the new event stamped `now`, then the recent ones, cut to 50. */
  function SaveCreated(items: map<string, Item>, hasWindow: bool, event: CreatedEventRecord, now: int): (r: map<string, Item>)
    ensures !hasWindow ==> r == items
    ensures hasWindow ==>
      var list := [event.(createdAt := now)] + ReadCreated(items, true, now).0;
      r == items[CreatedEventsKey := CreatedEventsJson(list[..if |list| < MaxCreatedEvents then |list| else MaxCreatedEvents])]
    ensures ItemsValid(items) ==> ItemsValid(r)
  {
    if !hasWindow then items
    else
      var (events, read) := ReadCreated(items, true, now);
      var list := [event.(createdAt := now)] + events;
      read[CreatedEventsKey := CreatedEventsJson(list[..if |list| < MaxCreatedEvents then |list| else MaxCreatedEvents])]
  }

  /**
   * After a save, the list starts with the new event, is at most 50 long,
   * and goes on with the previously recent events in their order.
   */
  lemma {:induction false} SavedEventComesFirst(items: map<string, Item>, event: CreatedEventRecord, now: int)
    ensures var list := StoredEvents(SaveCreated(items, true, event, now));
      var before := ReadCreated(items, true, now).0;
      1 <= |list| <= MaxCreatedEvents &&
      list[0] == event.(createdAt := now) &&
      list[1..] == before[..|list| - 1] &&
      (|before| < MaxCreatedEvents ==> list[1..] == before)
  {
    var before := ReadCreated(items, true, now).0;
    var whole := [event.(createdAt := now)] + before;
    var n := if |whole| < MaxCreatedEvents then |whole| else MaxCreatedEvents;
    assert StoredEvents(SaveCreated(items, true, event, now)) == whole[..n];
    HeadThenPrefix(event.(createdAt := now), before, n);
  }

  /** The first `n` elements of `[x] + s` are `x` and then the first `n - 1` of `s`. */
  lemma HeadThenPrefix<T>(x: T, s: seq<T>, n: int)
    requires 1 <= n <= |s| + 1
    ensures ([x] + s)[..n][0] == x
    ensures ([x] + s)[..n][1..] == s[..n - 1]
  {
    var list := ([x] + s)[..n];
    assert forall k :: 0 <= k < n - 1 ==> list[1..][k] == s[k];
  }

  /** `removeCreatedEvent`: the recent events except those with the id, in order; always written back. */
  function RemoveCreated(items: map<string, Item>, hasWindow: bool, eventId: string, now: int): (r: map<string, Item>)
    ensures !hasWindow ==> r == items
    ensures hasWindow ==> r == items[CreatedEventsKey := CreatedEventsJson(Filter(ReadCreated(items, true, now).0, OtherThan(eventId)))]
    ensures ItemsValid(items) ==> ItemsValid(r)
  {
    if !hasWindow then items
    else
      var (events, read) := ReadCreated(items, true, now);
      read[CreatedEventsKey := CreatedEventsJson(Filter(events, OtherThan(eventId)))]
  }

  /** After a removal no entry has the id, the others are kept in order, and so are the other keys. */
  lemma {:induction false} RemovedEventIsGone(items: map<string, Item>, eventId: string, now: int)
    ensures var list := StoredEvents(RemoveCreated(items, true, eventId, now));
      var before := ReadCreated(items, true, now).0;
      (forall e :: e in list <==> e in before && e.eventId != eventId) &&
      IsSubsequence(list, before)
    ensures forall k :: k != CreatedEventsKey ==>
      (k in RemoveCreated(items, true, eventId, now) <==> k in items) &&
      (k in items ==> RemoveCreated(items, true, eventId, now)[k] == items[k])
  {
    var before := ReadCreated(items, true, now).0;
    FilterIsSubsequence(before, OtherThan(eventId));
    assert StoredEvents(RemoveCreated(items, true, eventId, now)) == Filter(before, OtherThan(eventId));
  }

  /** `clearAllCreatedEvents`. */
  function ClearCreated(items: map<string, Item>, hasWindow: bool): (r: map<string, Item>)
    ensures !hasWindow ==> r == items
    ensures hasWindow ==> StoredEvents(r) == [] && forall k :: k in r <==> k in items && k != CreatedEventsKey
    ensures forall k :: k in r ==> r[k] == items[k]
  {
    if !hasWindow then items else items - {CreatedEventsKey}
  }

  /** Clearing the participant records keeps the device hash and the created-events list. */
  lemma ClearingParticipantsKeepsTheRest(items: map<string, Item>)
    ensures StoredHash(ClearParticipants(items, true)) == StoredHash(items)
    ensures StoredEvents(ClearParticipants(items, true)) == StoredEvents(items)
  {
    KeysAreDistinct("", "");
  }

  /** `localStorage`, restricted to the keys above. */
  class LocalStorage {
    var items: map<string, Item>

    predicate Valid()
      reads this
    {
      ItemsValid(items)
    }

    constructor ()
      ensures items == map[] && Valid()
    {
      items := map[];
    }

    /** `getOrCreateDeviceHash()`; `picks` are the 32 `Math.random()` draws. */
    method GetOrCreateDeviceHash(hasWindow: bool, picks: seq<int>) returns (hash: string)
      requires Valid() && Nibbles(picks)
      modifies this
      ensures Valid()
      ensures (hash, items) == DeviceHash(old(items), hasWindow, picks)
    {
      if !hasWindow {
        return "";
      }
      hash := StoredHash(items);
      if hash == "" {
        hash := NewDeviceHash(picks);
        KeysAreDistinct("", "");
        items := items[DeviceHashKey := Plain(hash)];
      }
    }

    /** `saveParticipantData(data)`. */
    method SaveParticipantData(hasWindow: bool, data: ParticipantRecord, now: int)
      requires Valid()
      modifies this
      ensures Valid()
      ensures items == SaveParticipant(old(items), hasWindow, data, now)
    {
      if !hasWindow {
        return;
      }
      var record := data.(timestamp := now);
      KeysAreDistinct(data.shareId, data.shareId);
      items := items[ParticipantKey(data.shareId) := ParticipantJson(record)];
    }

    /** `loadParticipantData(shareId)`. */
    method LoadParticipantData(hasWindow: bool, shareId: string, now: int) returns (data: Option<ParticipantRecord>)
      requires Valid()
      modifies this
      ensures Valid()
      ensures (data, items) == LoadParticipant(old(items), hasWindow, shareId, now)
    {
      if !hasWindow {
        return None;
      }
      var key := ParticipantKey(shareId);
      if key !in items || !items[key].ParticipantJson? {
        return None;
      }
      var record := items[key].participant;
      if now - record.timestamp > ThirtyDaysMs {
        RemoveParticipantData(hasWindow, shareId);
        return None;
      }
      data := Some(record);
    }

    /** `removeParticipantData(shareId)`. */
    method RemoveParticipantData(hasWindow: bool, shareId: string)
      requires Valid()
      modifies this
      ensures Valid()
      ensures items == RemoveParticipant(old(items), hasWindow, shareId)
    {
      if hasWindow {
        items := items - {ParticipantKey(shareId)};
      }
    }

    /** `clearAllParticipantData()`: one pass over the keys, removing the prefixed ones. */
    method ClearAllParticipantData(hasWindow: bool)
      requires Valid()
      modifies this
      ensures Valid()
      ensures items == ClearParticipants(old(items), hasWindow)
    {
      if !hasWindow {
        return;
      }
      var keys := items.Keys;
      ghost var start := items;
      while keys != {}
        invariant keys <= start.Keys
        invariant forall k :: k in items <==> k in start && (k in keys || !Text.StartsWith(k, ParticipantPrefix))
        invariant forall k :: k in items ==> items[k] == start[k]
        decreases keys
      {
        var k :| k in keys;
        if Text.StartsWith(k, ParticipantPrefix) {
          items := items - {k};
        }
        keys := keys - {k};
      }
    }

    /** `getCreatedEvents()`. */
    method GetCreatedEvents(hasWindow: bool, now: int) returns (events: seq<CreatedEventRecord>)
      requires Valid()
      modifies this
      ensures Valid()
      ensures (events, items) == ReadCreated(old(items), hasWindow, now)
    {
      if !hasWindow || CreatedEventsKey !in items || !items[CreatedEventsKey].CreatedEventsJson? {
        return [];
      }
      var stored := items[CreatedEventsKey].events;
      events := Filter(stored, Recent(now));
      if |events| != |stored| {
        items := items[CreatedEventsKey := CreatedEventsJson(events)];
      }
    }

    /** `saveCreatedEvent(event)`: the `createdAt` of `event` is replaced by `now`. */
    method SaveCreatedEvent(hasWindow: bool, event: CreatedEventRecord, now: int)
      requires Valid()
      modifies this
      ensures Valid()
      ensures items == SaveCreated(old(items), hasWindow, event, now)
    {
      if !hasWindow {
        return;
      }
      var events := GetCreatedEvents(hasWindow, now);
      var newEvent := event.(createdAt := now);
      events := [newEvent] + events;
      var limited := events[..if |events| < MaxCreatedEvents then |events| else MaxCreatedEvents];
      items := items[CreatedEventsKey := CreatedEventsJson(limited)];
    }

    /** `removeCreatedEvent(eventId)`. */
    method RemoveCreatedEvent(hasWindow: bool, eventId: string, now: int)
      requires Valid()
      modifies this
      ensures Valid()
      ensures items == RemoveCreated(old(items), hasWindow, eventId, now)
    {
      if !hasWindow {
        return;
      }
      var events := GetCreatedEvents(hasWindow, now);
      var filtered := Filter(events, OtherThan(eventId));
      items := items[CreatedEventsKey := CreatedEventsJson(filtered)];
    }

    /** `clearAllCreatedEvents()`. */
    method ClearAllCreatedEvents(hasWindow: bool)
      requires Valid()
      modifies this
      ensures Valid()
      ensures items == ClearCreated(old(items), hasWindow)
    {
      if hasWindow {
        items := items - {CreatedEventsKey};
      }
    }
  }
}
