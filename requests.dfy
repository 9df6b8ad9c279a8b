/**
 * The parts of an HTTP request the edge functions read: path segments of
 * `new URL(req.url).pathname`, the `x-forwarded-for` client address, and the
 * rate-limit key built from them.
 */
module Requests {
  import opened Wrappers
  import Text

  /**
   * `pathParts[pathParts.indexOf('events') + 1]` with `pathParts =
   * path.split('/')`; an index past the end reads `undefined`, given here as "".
   */
  function SegmentAfterEvents(path: string): (segment: string)
    ensures '/' !in segment
    ensures var parts := Text.Split(path, '/'); var i := Text.IndexOf(parts, "events");
      0 <= i && i + 1 < |parts| ==> segment == parts[i + 1]
  {
    var parts := Text.Split(path, '/');
    var i := Text.IndexOf(parts, "events") + 1;
    if i < |parts| then parts[i] else ""
  }

  /** A path without an `events` segment selects the segment before its leading '/': the empty one. */
  lemma NoEventsSegment(path: string)
    requires |path| > 0 && path[0] == '/'
    requires "events" !in Text.Split(path, '/')
    ensures SegmentAfterEvents(path) == ""
  {
    assert Text.IndexOfChar(path, '/') == 0;
    assert Text.Split(path, '/')[0] == path[..0];
  }

  /** `pathParts[pathParts.length - 1]`: the text after the last '/'. */
  function LastSegment(path: string): (segment: string)
    ensures '/' !in segment
    ensures segment == "" <==> |path| == 0 || path[|path| - 1] == '/'
  {
    var parts := Text.Split(path, '/');
    LastPartOfSplit(path, Text.IndexOfChar(path, '/'));
    parts[|parts| - 1]
  }

  /** Past the first separator at `i`, the last part of a split is the last part of the rest. */
  lemma SplitLastStep(s: string, i: int)
    requires 0 <= i < |s| && Text.IndexOfChar(s, '/') == i
    ensures var parts := Text.Split(s, '/'); var tail := Text.Split(s[i + 1..], '/');
      parts[|parts| - 1] == tail[|tail| - 1]
  {
    var tail := Text.Split(s[i + 1..], '/');
    assert Text.Split(s, '/') == [s[..i]] + tail;
  }

  /** Without a separator, the last part is the whole string, and it does not end in one. */
  lemma SplitWithoutSeparator(s: string)
    requires Text.IndexOfChar(s, '/') < 0
    ensures var parts := Text.Split(s, '/'); parts[|parts| - 1] == s
    ensures |s| > 0 ==> s[|s| - 1] != '/'
  {
    if |s| > 0 {
      assert s[|s| - 1] in s;
    }
  }

  /** The last part of a split is empty exactly when the string is empty or ends in '/'. */
  lemma {:induction false} LastPartOfSplit(s: string, i: int)
    requires i == Text.IndexOfChar(s, '/')
    ensures var parts := Text.Split(s, '/');
      parts[|parts| - 1] == "" <==> |s| == 0 || s[|s| - 1] == '/'
    decreases |s|
  {
    if i < 0 {
      SplitWithoutSeparator(s);
    } else {
      var rest := s[i + 1..];
      SplitLastStep(s, i);
      LastPartOfSplit(rest, Text.IndexOfChar(rest, '/'));
      EndsAfterSeparator(s, i);
    }
  }

  /** Past a '/' at `i`, the rest is empty or ends in '/' exactly when the whole string ends in '/'. */
  lemma EndsAfterSeparator(s: string, i: int)
    requires 0 <= i < |s| && s[i] == '/'
    ensures var rest := s[i + 1..]; (|rest| == 0 || rest[|rest| - 1] == '/') <==> s[|s| - 1] == '/'
  {
    var rest := s[i + 1..];
    if |rest| > 0 {
      assert rest[|rest| - 1] == s[|s| - 1];
    } else {
      assert i == |s| - 1;
    }
  }

  /** `req.headers.get('x-forwarded-for') || 'unknown'`. */
  function ClientIp(forwardedFor: Option<string>): (ip: string)
    ensures ip != ""
    ensures forwardedFor.Some? && forwardedFor.value != "" ==> ip == forwardedFor.value
  {
    if forwardedFor.Some? && forwardedFor.value != "" then forwardedFor.value else "unknown"
  }

  /** The rate-limit key `${endpoint}:${clientIp}:${shareId}`. */
  function RateLimitKey(endpoint: string, ip: string, shareId: string): string
  {
    endpoint + ":" + ip + ":" + shareId
  }
}
