/**
 * `getEventStats`: the per-option tally of a snapshot (yes, maybe and no
 * counts and the score 2·yes + maybe), ordered by descending score with
 * ties in option order.
 */
module Tally {
  import opened Types
  import opened Seqs
  import opened Ordering

  datatype OptionStat = OptionStat(optionId: string, date: string, yes: nat, maybe: nat, no: nat, score: int)

  datatype EventStats = EventStats(totalParticipants: nat, totalVotes: nat, optionStats: seq<OptionStat>)

  /** `v => v.option_id === optionId`. */
  function ForOption(optionId: string): VoteView -> bool
  {
    (v: VoteView) => v.optionId == optionId
  }

  /** `v => v.value === value`. */
  function WithValue(value: int): VoteView -> bool
  {
    (v: VoteView) => v.value == value
  }

  function VotesFor(votes: seq<VoteView>, optionId: string): seq<VoteView>
  {
    Filter(votes, ForOption(optionId))
  }

  function StatOf(o: OptionRow, votes: seq<VoteView>): OptionStat
  {
    var mine := VotesFor(votes, o.id);
    var yes := Count(mine, WithValue(2));
    var maybe := Count(mine, WithValue(1));
    var no := Count(mine, WithValue(0));
    OptionStat(o.id, o.date, yes, maybe, no, yes * 2 + maybe)
  }

  /** `options.map(...)`, before the sort. */
  function OptionStats(s: Snapshot): (stats: seq<OptionStat>)
    ensures |stats| == |s.options|
  {
    seq(|s.options|, i requires 0 <= i < |s.options| => StatOf(s.options[i], s.votes))
  }

  /** `(a, b) => b.score - a.score` as an ascending key. */
  function DescendingScore(st: OptionStat): int
  {
    -st.score
  }

  function GetEventStats(s: Snapshot): EventStats
  {
    EventStats(|s.participants|, |s.votes|, SortBy(OptionStats(s), DescendingScore))
  }

  /**
   * The totals are the snapshot's counts, and the option stats are the
   * per-option tallies, one per option, reordered.
   */
  lemma StatsArePerOption(s: Snapshot)
    ensures var r := GetEventStats(s);
      && r.totalParticipants == |s.participants| && r.totalVotes == |s.votes|
      && |r.optionStats| == |s.options|
      && multiset(r.optionStats) == multiset(OptionStats(s))
      && (forall i :: 0 <= i < |s.options| ==> StatOf(s.options[i], s.votes) in r.optionStats)
      && (forall k :: 0 <= k < |r.optionStats| ==> exists i :: 0 <= i < |s.options| && r.optionStats[k] == StatOf(s.options[i], s.votes))
  {
    var u := OptionStats(s);
    var r := GetEventStats(s).optionStats;
    SortedMembers(u, r, DescendingScore);
    forall i | 0 <= i < |s.options| ensures StatOf(s.options[i], s.votes) in r {
      assert u[i] in r;
    }
    forall k | 0 <= k < |r| ensures exists i :: 0 <= i < |s.options| && r[k] == StatOf(s.options[i], s.votes) {
      var i :| 0 <= i < |u| && r[k] == u[i];
    }
  }

  /** Counting one value among an option's votes is counting the votes with that option and value. */
  lemma CountOfValue(o: OptionRow, votes: seq<VoteView>, value: int)
    ensures Count(VotesFor(votes, o.id), WithValue(value)) == Count(votes, (v: VoteView) => v.optionId == o.id && v.value == value)
  {
    CountFilter(votes, ForOption(o.id), WithValue(value));
    CountSame(votes, Both(ForOption(o.id), WithValue(value)), (v: VoteView) => v.optionId == o.id && v.value == value);
  }

  /** One option's counts: its votes with value 2, 1 and 0, and the score from them. */
  lemma StatCounts(o: OptionRow, votes: seq<VoteView>)
    ensures var st := StatOf(o, votes);
      && st.optionId == o.id && st.date == o.date
      && st.yes == Count(votes, (v: VoteView) => v.optionId == o.id && v.value == 2)
      && st.maybe == Count(votes, (v: VoteView) => v.optionId == o.id && v.value == 1)
      && st.no == Count(votes, (v: VoteView) => v.optionId == o.id && v.value == 0)
      && st.score == 2 * st.yes + st.maybe
  {
    CountOfValue(o, votes, 2);
    CountOfValue(o, votes, 1);
    CountOfValue(o, votes, 0);
  }

  /** The list is in non-increasing score order. */
  lemma StatsDescend(s: Snapshot)
    ensures var r := GetEventStats(s).optionStats;
      forall i, j :: 0 <= i < j < |r| ==> r[i].score >= r[j].score
  {
    var r := GetEventStats(s).optionStats;
    forall i, j | 0 <= i < j < |r| ensures r[i].score >= r[j].score {
      assert DescendingScore(r[i]) <= DescendingScore(r[j]);
    }
  }

  /**
   * Options with equal scores keep their order: the sort is stable. The
   * stats whose sort key is `key` (those with score `-key`) come out in
   * option order.
   */
  lemma StatsKeepTieOrder(s: Snapshot, key: int)
    ensures Having(GetEventStats(s).optionStats, DescendingScore, key) == Having(OptionStats(s), DescendingScore, key)
  {
    SortedKeepsTies(OptionStats(s), GetEventStats(s).optionStats, DescendingScore, key);
  }

  /** An option's three counts cover at most its votes (a value other than 0, 1, 2 counts in none). */
  lemma {:induction false} CountsWithinVotes(votes: seq<VoteView>)
    ensures Count(votes, WithValue(2)) + Count(votes, WithValue(1)) + Count(votes, WithValue(0)) <= |votes|
  {
    if |votes| > 0 {
      CountsWithinVotes(votes[1..]);
    }
  }

  lemma TallyWithinOptionVotes(o: OptionRow, votes: seq<VoteView>)
    ensures StatOf(o, votes).yes + StatOf(o, votes).maybe + StatOf(o, votes).no <= |VotesFor(votes, o.id)|
  {
    CountsWithinVotes(VotesFor(votes, o.id));
  }

  function OptionKey(o: OptionRow): string { o.id }

  /** `v` names one of the options. */
  function OfSomeOption(options: seq<OptionRow>): VoteView -> bool
  {
    (v: VoteView) => exists k :: 0 <= k < |options| && options[k].id == v.optionId
  }

  /** The number of votes some option's tally looks at, summed over the options. */
  function TalliedVotes(options: seq<OptionRow>, votes: seq<VoteView>): nat
  {
    if |options| == 0 then 0
    else TalliedVotes(options[..|options| - 1], votes) + |VotesFor(votes, options[|options| - 1].id)|
  }

  lemma {:induction false} TalliedVotesAreKnownVotes(options: seq<OptionRow>, votes: seq<VoteView>)
    requires UniqueBy(options, OptionKey)
    ensures TalliedVotes(options, votes) == Count(votes, OfSomeOption(options))
    decreases |options|
  {
    if |options| == 0 {
      FilterNone(votes, OfSomeOption(options));
    } else {
      var n := |options| - 1;
      var pre := options[..n];
      assert UniqueBy(pre, OptionKey) by {
        forall i, j | 0 <= i < j < |pre| ensures OptionKey(pre[i]) != OptionKey(pre[j]) {
          assert pre[i] == options[i] && pre[j] == options[j];
        }
      }
      TalliedVotesAreKnownVotes(pre, votes);
      var all := OfSomeOption(options);
      var last := ForOption(options[n].id);
      CountSplit(votes, all, last);
      forall v ensures Both(all, last)(v) == last(v) {
        if last(v) { assert options[n].id == v.optionId; }
      }
      CountSame(votes, Both(all, last), last);
      forall v ensures Both(all, Not(last))(v) == OfSomeOption(pre)(v) {
        if all(v) && !last(v) {
          var k :| 0 <= k < |options| && options[k].id == v.optionId;
          assert k != n && pre[k] == options[k];
        }
        if OfSomeOption(pre)(v) {
          var k :| 0 <= k < |pre| && pre[k].id == v.optionId;
          assert options[k] == pre[k];
          if v.optionId == options[n].id {
            UniqueKeyPosition(options, OptionKey, k, n);
          }
        }
      }
      CountSame(votes, Both(all, Not(last)), OfSomeOption(pre));
    }
  }

  /**
   * Across all options the tallies look at each vote of a known option
   * once; a vote whose option is not in the snapshot is only part of
   * `totalVotes`.
   */
  lemma UnknownOptionVotesOnlyInTotal(s: Snapshot)
    requires UniqueBy(s.options, OptionKey)
    ensures TalliedVotes(s.options, s.votes) + Count(s.votes, Not(OfSomeOption(s.options)))
         == GetEventStats(s).totalVotes
  {
    TalliedVotesAreKnownVotes(s.options, s.votes);
    CountComplement(s.votes, OfSomeOption(s.options));
  }
}
