/**
 * The helpers shared by the edge functions: JSON responses, required-field
 * validation, random identifiers, the hex encoding of digests, and the
 * in-memory fixed-window rate limiter.
 */
module SharedUtils {
  import opened Wrappers
  import opened Types
  import Text
  import Seqs

  // ---------------------------------------------------------------------
  // Responses

  /** The JSON bodies the endpoints send. */
  datatype Body =
    | ErrorBody(error: string, details: Option<string>)
    | SuccessBody(message: string)
    | CreatedEventBody(eventId: string, shareId: string, adminKey: string, adminUrl: string, shareUrl: string)
    | ParticipantBody(participantId: string, participantToken: string, nickname: string)
    | SnapshotBody(snapshot: Snapshot)

  /** An HTTP response, reduced to its status code and JSON body. */
  datatype Response = Response(status: int, body: Body)

  /** `jsonResponse(data, status = 200)`. */
  function JsonResponse(data: Body, status: int := 200): (r: Response)
    ensures r.status == status && r.body == data
  {
    Response(status, data)
  }

  /** `errorResponse(message, status = 400, details)`: `{error: message, details}`. */
  function ErrorResponse(message: string, status: int := 400, details: Option<string> := None): (r: Response)
    ensures r.status == status && r.body == ErrorBody(message, details)
  {
    JsonResponse(ErrorBody(message, details), status)
  }

  // ---------------------------------------------------------------------
  // JavaScript values of a parsed JSON body

  /** A JavaScript value as JSON.parse can produce it (numbers reduced to integers). */
  datatype JsValue =
    | Undefined
    | Null
    | Bool(b: bool)
    | Num(n: int)
    | Str(s: string)
    | Arr(items: seq<JsValue>)
    | Obj(fields: map<string, JsValue>)

  /** `!v`: undefined, null, false, 0 and the empty string; arrays and objects are truthy. */
  predicate Falsy(v: JsValue)
  {
    v.Undefined? || v.Null? || (v.Bool? && !v.b) || (v.Num? && v.n == 0) || (v.Str? && v.s == "")
  }

  /** `obj[field]`, which is undefined for an absent field. */
  function Lookup(obj: map<string, JsValue>, field: string): JsValue
  {
    if field in obj then obj[field] else Undefined
  }

  /** An optional string field as a JavaScript value. */
  function OptionalString(s: Option<string>): JsValue
  {
    match s
    case None => Undefined
    case Some(t) => Str(t)
  }

  /** `String(v)`, as a template literal prints a value. */
  function JsToString(v: JsValue): string
  {
    match v
    case Undefined => "undefined"
    case Null => "null"
    case Bool(b) => if b then "true" else "false"
    case Num(n) => Text.IntToString(n)
    case Str(s) => s
    case Arr(items) => JoinElements(items)
    case Obj(_) => "[object Object]"
  }

  /** `Array.prototype.join(',')`, where null and undefined elements print as empty strings. */
  function JoinElements(items: seq<JsValue>): string
    decreases items
  {
    if |items| == 0 then ""
    else
      var first := if items[0].Undefined? || items[0].Null? then "" else JsToString(items[0]);
      if |items| == 1 then first else first + "," + JoinElements(items[1..])
  }

  // ---------------------------------------------------------------------
  // validateRequired

  /** `fields.filter(field => !obj[field])`. */
  function MissingFields(obj: map<string, JsValue>, fields: seq<string>): (missing: seq<string>)
    ensures forall k :: 0 <= k < |missing| ==> missing[k] in fields && Falsy(Lookup(obj, missing[k]))
    ensures forall k :: 0 <= k < |fields| && Falsy(Lookup(obj, fields[k])) ==> fields[k] in missing
    ensures |missing| <= |fields|
  {
    if |fields| == 0 then []
    else if Falsy(Lookup(obj, fields[0])) then [fields[0]] + MissingFields(obj, fields[1..])
    else MissingFields(obj, fields[1..])
  }

  /**
   * `validateRequired(obj, fields)`: fails exactly when some listed field is
   * falsy, with a message that names the falsy fields in the order given.
   */
  function ValidateRequired(obj: map<string, JsValue>, fields: seq<string>): (r: Outcome<string>)
    ensures r.Fail? <==> exists k :: 0 <= k < |fields| && Falsy(Lookup(obj, fields[k]))
    ensures r.Fail? ==> r.error == "Missing required fields: " + Text.Join(MissingFields(obj, fields), ", ")
  {
    var missing := MissingFields(obj, fields);
    if |missing| > 0 then Fail("Missing required fields: " + Text.Join(missing, ", ")) else Pass
  }

  /** The missing fields keep the order in which they were listed. */
  lemma {:induction false} MissingFieldsInOrder(obj: map<string, JsValue>, fields: seq<string>)
    ensures Seqs.IsSubsequence(MissingFields(obj, fields), fields)
  {
    if |fields| > 0 {
      MissingFieldsInOrder(obj, fields[1..]);
      var rest := MissingFields(obj, fields[1..]);
      if Falsy(Lookup(obj, fields[0])) {
        assert ([fields[0]] + rest)[1..] == rest;
      } else {
        Seqs.SubsequenceOfTail(rest, fields);
      }
    }
  }

  lemma ValidateRequiredExample()
    ensures ValidateRequired(map["title" := Str("Lunch"), "dates" := Arr([])], ["title", "dates"]) == Pass
    ensures ValidateRequired(map["title" := Str("")], ["title", "dates"])
         == Fail("Missing required fields: title, dates")
  {
    var obj := map["title" := Str("")];
    assert "dates" !in obj by { assert "dates"[0] != "title"[0]; }
    assert MissingFields(obj, ["title", "dates"]) == ["title", "dates"] by {
      assert ["title", "dates"][1..] == ["dates"];
      assert MissingFields(obj, ["dates"]) == ["dates"];
    }
    assert Text.Join(["title", "dates"], ", ") == "title, dates" by {
      assert ["title", "dates"][1..] == ["dates"];
      assert Text.Join(["dates"], ", ") == "dates";
      assert "title" + ", " + "dates" == "title, dates";
    }
    assert "Missing required fields: " + "title, dates" == "Missing required fields: title, dates";
  }

  // ---------------------------------------------------------------------
  // Random identifiers

  const Base62Alphabet: string := "0123456789ABCDEFGHIJKLMNOPQRSTUVWXYZabcdefghijklmnopqrstuvwxyz"

  /**
   * `generateBase62Id(length)`. `picks[i]` is `Math.floor(Math.random() * 62)`
   * for the i-th character, supplied by the caller in place of `Math.random`.
   */
  method GenerateBase62Id(length: int, picks: seq<int>) returns (result: string)
    requires |picks| >= length
    requires forall k :: 0 <= k < |picks| ==> 0 <= picks[k] < |Base62Alphabet|
    ensures |result| == if length < 0 then 0 else length
    ensures forall k :: 0 <= k < |result| ==> result[k] == Base62Alphabet[picks[k]]
    ensures forall k :: 0 <= k < |result| ==> result[k] in Base62Alphabet
  {
    result := "";
    var i := 0;
    while i < length
      invariant 0 <= i <= (if length < 0 then 0 else length)
      invariant |result| == i
      invariant forall k :: 0 <= k < i ==> result[k] == Base62Alphabet[picks[k]]
    {
      result := result + [Base62Alphabet[picks[i]]];
      i := i + 1;
    }
  }

  // ---------------------------------------------------------------------
  // Hex encoding

  const HexDigits: string := "0123456789abcdef"

  function HexDigit(d: int): (c: char)
    requires 0 <= d < 16
    ensures c in HexDigits
  {
    HexDigits[d]
  }

  /** `n.toString(16)` for a natural number: lowercase digits, no padding. */
  function ToRadix16(n: nat): (s: string)
    ensures |s| >= 1
    decreases n
  {
    if n < 16 then [HexDigit(n)] else ToRadix16(n / 16) + [HexDigit(n % 16)]
  }

  /** `s.padStart(width, [c])`. */
  function PadStart(s: string, width: nat, c: char): (r: string)
    ensures |r| == if |s| >= width then |s| else width
  {
    if |s| >= width then s else seq(width - |s|, _ => c) + s
  }

  /** `b.toString(16).padStart(2, '0')`: the two hex digits of a byte. */
  function ByteToHex(b: byte): (r: string)
    ensures r == [HexDigit(b as int / 16), HexDigit(b as int % 16)]
  {
    var n := b as nat;
    if n < 16 then
      assert ToRadix16(n) == [HexDigit(n)];
      assert PadStart([HexDigit(n)], 2, '0') == ['0'] + [HexDigit(n)];
      PadStart(ToRadix16(n), 2, '0')
    else
      assert n / 16 < 16;
      assert ToRadix16(n) == [HexDigit(n / 16)] + [HexDigit(n % 16)];
      PadStart(ToRadix16(n), 2, '0')
  }

  /** Bytes as lowercase hex, two digits per byte (the `map(...).join('')` of hashString). */
  function HexEncode(bytes: seq<byte>): (r: string)
    ensures |r| == 2 * |bytes|
  {
    if |bytes| == 0 then "" else ByteToHex(bytes[0]) + HexEncode(bytes[1..])
  }

  /** Characters 2k and 2k+1 of the encoding are the two hex digits of byte k. */
  lemma {:induction false} HexEncodeAt(bytes: seq<byte>, k: int)
    requires 0 <= k < |bytes|
    ensures HexEncode(bytes)[2 * k] == HexDigit(bytes[k] as int / 16)
    ensures HexEncode(bytes)[2 * k + 1] == HexDigit(bytes[k] as int % 16)
  {
    var rest := HexEncode(bytes[1..]);
    assert HexEncode(bytes) == ByteToHex(bytes[0]) + rest;
    if k > 0 {
      HexEncodeAt(bytes[1..], k - 1);
      assert 2 * k == 2 * (k - 1) + 2;
      assert bytes[1..][k - 1] == bytes[k];
    }
  }

  lemma HexEncodeIsLowercaseHex(bytes: seq<byte>)
    ensures forall k :: 0 <= k < |HexEncode(bytes)| ==> HexEncode(bytes)[k] in HexDigits
  {
    var r := HexEncode(bytes);
    forall k | 0 <= k < |r| ensures r[k] in HexDigits {
      HexEncodeAt(bytes, k / 2);
      if k % 2 == 0 {
        assert k == 2 * (k / 2);
      } else {
        assert k == 2 * (k / 2) + 1;
      }
    }
  }

  /** The value of one lowercase hex digit. */
  function HexValue(c: char): (r: Option<int>)
    ensures r.Some? ==> 0 <= r.value < 16 && HexDigit(r.value) == c
  {
    if '0' <= c <= '9' then Some(c as int - '0' as int)
    else if 'a' <= c <= 'f' then Some(c as int - 'a' as int + 10)
    else None
  }

  lemma HexValueOfDigit(d: int)
    requires 0 <= d < 16
    ensures HexValue(HexDigit(d)) == Some(d)
  {
  }

  /** Reads back a string of lowercase hex pairs: the partner of HexEncode. */
  function HexDecode(s: string): Option<seq<byte>>
    decreases |s|
  {
    if |s| == 0 then Some([])
    else if |s| == 1 || HexValue(s[0]).None? || HexValue(s[1]).None? then None
    else
      var rest := HexDecode(s[2..]);
      if rest.None? then None
      else Some([(HexValue(s[0]).value * 16 + HexValue(s[1]).value) as byte] + rest.value)
  }

  /** Decoding the two digits of a byte gives the byte back. */
  lemma DecodePair(b: byte, rest: string)
    ensures var s := ByteToHex(b) + rest;
      && HexValue(s[0]) == Some(b as int / 16)
      && HexValue(s[1]) == Some(b as int % 16)
      && s[2..] == rest
  {
    HexValueOfDigit(b as int / 16);
    HexValueOfDigit(b as int % 16);
  }

  lemma {:induction false} HexRoundTrip(bytes: seq<byte>)
    ensures HexDecode(HexEncode(bytes)) == Some(bytes)
  {
    if |bytes| > 0 {
      var b := bytes[0];
      var rest := HexEncode(bytes[1..]);
      assert HexEncode(bytes) == ByteToHex(b) + rest;
      DecodePair(b, rest);
      HexRoundTrip(bytes[1..]);
      assert ((b as int / 16) * 16 + b as int % 16) as byte == b;
      assert [b] + bytes[1..] == bytes;
    }
  }

  /** Equal hex strings come from equal byte strings. */
  lemma HexEncodeInjective(a: seq<byte>, b: seq<byte>)
    requires HexEncode(a) == HexEncode(b)
    ensures a == b
  {
    HexRoundTrip(a);
    HexRoundTrip(b);
  }

  /**
   * `generateRandomHex(length)`: `random` is what `crypto.getRandomValues`
   * writes into the `Uint8Array` of `length / 2` bytes.
   */
  function GenerateRandomHex(length: int, random: seq<byte>): (r: string)
    requires length >= 0 && |random| == length / 2
    ensures |r| == 2 * (length / 2)
    ensures forall k :: 0 <= k < |r| ==> r[k] in HexDigits
  {
    HexEncodeIsLowercaseHex(random);
    HexEncode(random)
  }

  /**
   * `hashString(s)`: the lowercase hex of `sha256(s)`, where `sha256` stands for
   * `crypto.subtle.digest('SHA-256', ...)` applied to the UTF-8 bytes of `s`.
   */
  function HashString(sha256: string -> seq<byte>, s: string): (r: string)
    ensures |r| == 2 * |sha256(s)|
  {
    HexEncode(sha256(s))
  }

  /** A 32-byte digest prints as 64 lowercase hex digits. */
  lemma HashStringShape(sha256: string -> seq<byte>, s: string)
    requires |sha256(s)| == 32
    ensures |HashString(sha256, s)| == 64
    ensures forall k :: 0 <= k < 64 ==> HashString(sha256, s)[k] in HexDigits
  {
    HexEncodeIsLowercaseHex(sha256(s));
  }

  /** Comparing hex hashes is the same as comparing the digests. */
  lemma HashStringMatches(sha256: string -> seq<byte>, a: string, b: string)
    ensures HashString(sha256, a) == HashString(sha256, b) <==> sha256(a) == sha256(b)
  {
    if HashString(sha256, a) == HashString(sha256, b) {
      HexEncodeInjective(sha256(a), sha256(b));
    }
  }

  // ---------------------------------------------------------------------
  // Rate limiting

  /** One entry of `rateLimitMap`. */
  datatype RateRecord = RateRecord(count: int, resetAt: int)

  /**
   * One `checkRateLimit(key, maxRequests, windowMs)` at time `now` on the map
   * `records`: the new map and whether the request is allowed.
   */
  function Admit(records: map<string, RateRecord>, key: string, maxRequests: int, windowMs: int, now: int)
    : (map<string, RateRecord>, bool)
  {
    if key !in records || now > records[key].resetAt then
      (records[key := RateRecord(1, now + windowMs)], true)
    else if records[key].count >= maxRequests then
      (records, false)
    else
      (records[key := records[key].(count := records[key].count + 1)], true)
  }

  /** A key with no record, or whose window has passed, starts a new window and is allowed. */
  lemma AdmitOpensWindow(records: map<string, RateRecord>, key: string, maxRequests: int, windowMs: int, now: int)
    requires key !in records || now > records[key].resetAt
    ensures Admit(records, key, maxRequests, windowMs, now) == (records[key := RateRecord(1, now + windowMs)], true)
  {
  }

  /** Within the window a full record denies and stays as it is; otherwise the count goes up by one. */
  lemma AdmitWithinWindow(records: map<string, RateRecord>, key: string, maxRequests: int, windowMs: int, now: int)
    requires key in records && now <= records[key].resetAt
    ensures var (m, allowed) := Admit(records, key, maxRequests, windowMs, now);
      && (allowed <==> records[key].count < maxRequests)
      && (!allowed ==> m == records)
      && (allowed ==> m == records[key := RateRecord(records[key].count + 1, records[key].resetAt)])
  {
  }

  /** Every stored count is at most `maxRequests`. */
  predicate Bounded(records: map<string, RateRecord>, maxRequests: int)
  {
    forall k :: k in records ==> records[k].count <= maxRequests
  }

  /** A call keeps every count within the limit and changes no other key's entry. */
  lemma AdmitKeepsBound(records: map<string, RateRecord>, key: string, maxRequests: int, windowMs: int, now: int)
    requires maxRequests >= 1 && Bounded(records, maxRequests)
    ensures Bounded(Admit(records, key, maxRequests, windowMs, now).0, maxRequests)
    ensures Admit(records, key, maxRequests, windowMs, now).0.Keys == records.Keys + {key}
    ensures forall k :: k in records && k != key ==> Admit(records, key, maxRequests, windowMs, now).0[k] == records[k]
  {
  }

  /** A run of calls for one key at the given times: the final map and each call's answer. */
  function Replay(records: map<string, RateRecord>, key: string, maxRequests: int, windowMs: int, times: seq<int>)
    : (r: (map<string, RateRecord>, seq<bool>))
    ensures |r.1| == |times|
    decreases |times|
  {
    if |times| == 0 then (records, [])
    else
      var (m, allowed) := Admit(records, key, maxRequests, windowMs, times[0]);
      var (m', answers) := Replay(m, key, maxRequests, windowMs, times[1..]);
      (m', [allowed] + answers)
  }

  /** Within one window that has already seen `count` requests, the i-th further call is allowed iff count + i < max. */
  lemma {:induction false} ReplayWithinWindow(
    records: map<string, RateRecord>, key: string, maxRequests: int, windowMs: int, times: seq<int>)
    requires key in records && records[key].count <= maxRequests
    requires forall k :: 0 <= k < |times| ==> times[k] <= records[key].resetAt
    ensures forall k :: 0 <= k < |times| ==>
      Replay(records, key, maxRequests, windowMs, times).1[k] == (records[key].count + k < maxRequests)
  {
    if |times| > 0 {
      var (m, allowed) := Admit(records, key, maxRequests, windowMs, times[0]);
      assert m[key].resetAt == records[key].resetAt;
      ReplayWithinWindow(m, key, maxRequests, windowMs, times[1..]);
      var answers := Replay(records, key, maxRequests, windowMs, times).1;
      forall k | 1 <= k < |times|
        ensures answers[k] == (records[key].count + k < maxRequests)
      {
        assert answers[k] == Replay(m, key, maxRequests, windowMs, times[1..]).1[k - 1];
        assert times[1..][k - 1] == times[k];
      }
    }
  }

  /**
   * A burst from a fresh key: with limit `maxRequests >= 1`, every call that
   * falls in the window opened by the first one is allowed exactly when
   * fewer than `maxRequests` calls came before it.
   */
  lemma BurstFromFreshKey(
    records: map<string, RateRecord>, key: string, maxRequests: int, windowMs: int, times: seq<int>)
    requires key !in records && maxRequests >= 1 && |times| >= 1
    requires forall k :: 0 <= k < |times| ==> times[k] <= times[0] + windowMs
    ensures forall k :: 0 <= k < |times| ==>
      Replay(records, key, maxRequests, windowMs, times).1[k] == (k < maxRequests)
  {
    var (m, first) := Admit(records, key, maxRequests, windowMs, times[0]);
    assert m[key] == RateRecord(1, times[0] + windowMs);
    ReplayWithinWindow(m, key, maxRequests, windowMs, times[1..]);
    var answers := Replay(records, key, maxRequests, windowMs, times).1;
    forall k | 1 <= k < |times| ensures answers[k] == (k < maxRequests) {
      assert answers[k] == Replay(m, key, maxRequests, windowMs, times[1..]).1[k - 1];
      assert times[1..][k - 1] == times[k];
    }
  }

  /**
   * With max 10 per 60000 ms: eleven calls from a fresh key within one
   * minute of the first get ten passes and a denial, and a call after that
   * minute passes again.
   */
  lemma TenThenDenied(key: string, times: seq<int>, later: int)
    requires |times| == 11 && forall k :: 0 <= k < 11 ==> times[k] <= times[0] + 60000
    requires later > times[0] + 60000
    ensures var answers := Replay(map[], key, 10, 60000, times).1;
      (forall k :: 0 <= k < 10 ==> answers[k]) && !answers[10]
    ensures var m := Replay(map[], key, 10, 60000, times).0;
      key in m && Admit(m, key, 10, 60000, later).1
  {
    BurstFromFreshKey(map[], key, 10, 60000, times);
    ReplayKeepsWindow(map[], key, 10, 60000, times);
  }

  /** Calls inside the first call's window keep the key and its reset time. */
  lemma {:induction false} ReplayKeepsWindow(
    records: map<string, RateRecord>, key: string, maxRequests: int, windowMs: int, times: seq<int>)
    requires |times| >= 1 && (key !in records || times[0] > records[key].resetAt)
    requires forall k :: 0 <= k < |times| ==> times[k] <= times[0] + windowMs
    ensures key in Replay(records, key, maxRequests, windowMs, times).0
    ensures Replay(records, key, maxRequests, windowMs, times).0[key].resetAt == times[0] + windowMs
  {
    var (m, _) := Admit(records, key, maxRequests, windowMs, times[0]);
    ReplayStaysInWindow(m, key, maxRequests, windowMs, times[1..]);
  }

  lemma {:induction false} ReplayStaysInWindow(
    records: map<string, RateRecord>, key: string, maxRequests: int, windowMs: int, times: seq<int>)
    requires key in records
    requires forall k :: 0 <= k < |times| ==> times[k] <= records[key].resetAt
    ensures key in Replay(records, key, maxRequests, windowMs, times).0
    ensures Replay(records, key, maxRequests, windowMs, times).0[key].resetAt == records[key].resetAt
  {
    if |times| > 0 {
      var (m, _) := Admit(records, key, maxRequests, windowMs, times[0]);
      ReplayStaysInWindow(m, key, maxRequests, windowMs, times[1..]);
    }
  }

  /** `cleanupRateLimits()` at time `now`: the entries whose window has not passed. */
  function Sweep(records: map<string, RateRecord>, now: int): map<string, RateRecord>
  {
    map k | k in records && now <= records[k].resetAt :: records[k]
  }

  /** The process-wide `rateLimitMap` and the two functions that change it. */
  class RateLimiter {
    var records: map<string, RateRecord>

    constructor ()
      ensures records == map[]
    {
      records := map[];
    }

    /** `checkRateLimit(key, maxRequests, windowMs)`, with `Date.now()` supplied as `now`. */
    method CheckRateLimit(key: string, maxRequests: int, windowMs: int, now: int) returns (allowed: bool)
      modifies this
      ensures (records, allowed) == Admit(old(records), key, maxRequests, windowMs, now)
      ensures allowed <==> key !in old(records) || now > old(records)[key].resetAt || old(records)[key].count < maxRequests
    {
      if key !in records || now > records[key].resetAt {
        records := records[key := RateRecord(1, now + windowMs)];
        return true;
      }
      var record := records[key];
      if record.count >= maxRequests {
        return false;
      }
      records := records[key := record.(count := record.count + 1)];
      allowed := true;
    }

    /**
     * `cleanupRateLimits()`: deletes exactly the entries with `now > resetAt`
     * and leaves the others as they were.
     */
    method CleanupRateLimits(now: int)
      modifies this
      ensures records == Sweep(old(records), now)
      ensures forall k :: k in records <==> k in old(records) && !(now > old(records)[k].resetAt)
      ensures forall k :: k in records ==> records[k] == old(records)[k]
    {
      var pending := records.Keys;
      ghost var start := records;
      while pending != {}
        invariant pending <= start.Keys
        invariant forall k :: k in records <==> k in start && (k in pending || now <= start[k].resetAt)
        invariant forall k :: k in records ==> records[k] == start[k]
        decreases pending
      {
        var k :| k in pending;
        if now > records[k].resetAt {
          records := records - {k};
        }
        pending := pending - {k};
      }
    }
  }
}
