/**
 * Record shapes of the scheduler's database tables and of the snapshot the
 * read endpoints return (the row types of the `Database` interface and the
 * `GetEventResponse` interface of the client).
 */
module Types {
  import opened Wrappers

  /** One byte of a `Uint8Array`. */
  newtype byte = x: int | 0 <= x < 256

  /** The availability a participant gives for one candidate date. */
  datatype VoteValue = No | Maybe | Yes {
    /** The integer the API and the `votes.value` column use. */
    function Code(): (c: int)
      ensures 0 <= c <= 2
    {
      match this
      case No => 0
      case Maybe => 1
      case Yes => 2
    }
  }

  /** The vote value with the given integer code, if the code is one of 0, 1, 2. */
  function VoteValueOf(code: int): (r: Option<VoteValue>)
    ensures r.Some? <==> code in {0, 1, 2}
    ensures r.Some? ==> r.value.Code() == code
  {
    if code == 0 then Some(No)
    else if code == 1 then Some(Maybe)
    else if code == 2 then Some(Yes)
    else None
  }

  lemma VoteValueRoundTrip(v: VoteValue)
    ensures VoteValueOf(v.Code()) == Some(v)
  {
  }

  /** A row of `events`. Timestamps are milliseconds since the epoch. */
  datatype EventRow = EventRow(
    id: string,
    title: string,
    memo: Option<string>,
    adminKeyHash: string,
    shareId: string,
    createdAt: int,
    updatedAt: int)

  /** A row of `options`: one candidate date of an event. */
  datatype OptionRow = OptionRow(id: string, eventId: string, date: string, sortIndex: int)

  /** A row of `participants`. */
  datatype ParticipantRow = ParticipantRow(
    id: string,
    eventId: string,
    nickname: string,
    deviceHash: string,
    createdAt: int)

  /** A row of `votes`; `value` is 0, 1 or 2. */
  datatype VoteRow = VoteRow(id: string, eventId: string, optionId: string, participantId: string, value: int)

  datatype LinkKind = ShareLink | AdminLink

  /** A row of `links`: bookkeeping of the tokens issued for an event. */
  datatype LinkRow = LinkRow(id: string, eventId: string, kind: LinkKind, token: string)

  /** The event fields a snapshot shows: every column but `admin_key_hash`. */
  datatype EventView = EventView(
    id: string,
    title: string,
    memo: Option<string>,
    shareId: string,
    createdAt: int,
    updatedAt: int)

  /** The participant columns a snapshot shows. */
  datatype ParticipantView = ParticipantView(id: string, nickname: string)

  /** The vote columns a snapshot shows. */
  datatype VoteView = VoteView(id: string, optionId: string, participantId: string, value: int)

  /** The body of a successful get-event or get-event-admin call. */
  datatype Snapshot = Snapshot(
    event: EventView,
    options: seq<OptionRow>,
    participants: seq<ParticipantView>,
    votes: seq<VoteView>)

  /** The event as a snapshot shows it: the row with `admin_key_hash` dropped. */
  function PublicView(e: EventRow): (v: EventView)
    ensures v.id == e.id && v.title == e.title && v.memo == e.memo && v.shareId == e.shareId
    ensures v.createdAt == e.createdAt && v.updatedAt == e.updatedAt
  {
    EventView(e.id, e.title, e.memo, e.shareId, e.createdAt, e.updatedAt)
  }

  function ParticipantViewOf(p: ParticipantRow): ParticipantView
  {
    ParticipantView(p.id, p.nickname)
  }

  function VoteViewOf(v: VoteRow): VoteView
  {
    VoteView(v.id, v.optionId, v.participantId, v.value)
  }
}
