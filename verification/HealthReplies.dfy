/** From the replies that targets give to health probes, to what is reported and routed. */
module HealthReplies {
  import opened Targets
  import opened Balancers
  import opened Health
  import opened HealthRouting
  import opened Streaks

  /** No HTTP response, or one whose status is not 2xx. */
  ghost predicate Bad(reply: Response) {
    match reply
    case TransportError => true
    case HttpStatus(code) => code < 200 || 300 <= code
  }

  /** The replies of one round to the probes of one URL, from the first k targets. */
  function RepliesInRound(targets: seq<Target>, round: seq<Response>, url: string, k: nat): seq<Response>
    requires k <= |targets| == |round|
  {
    if k == 0 then []
    else RepliesInRound(targets, round, url, k - 1) + if targets[k - 1].url == url then [round[k - 1]] else []
  }

  /** The replies of all rounds to the probes of one URL, in order. */
  function RepliesTo(targets: seq<Target>, replies: seq<seq<Response>>, url: string): seq<Response>
    requires Replies(targets, replies)
  {
    if replies == [] then []
    else
      RepliesTo(targets, replies[..|replies| - 1], url)
      + RepliesInRound(targets, replies[|replies| - 1], url, |targets|)
  }

  /** The history records exactly which replies were not bad. */
  ghost predicate Records(history: seq<bool>, replies: seq<Response>) {
    |history| == |replies| && forall r :: 0 <= r < |replies| ==> history[r] == !Bad(replies[r])
  }

  lemma {:induction false} RecordsConcat(a: seq<bool>, ra: seq<Response>, b: seq<bool>, rb: seq<Response>)
    requires Records(a, ra) && Records(b, rb)
    ensures Records(a + b, ra + rb)
  {
  }

  lemma {:induction false} RoundRecords(targets: seq<Target>, round: seq<Response>, url: string, k: nat)
    requires k <= |targets| == |round|
    ensures Records(History(RoundEvents(targets, round, k), url), RepliesInRound(targets, round, url, k))
  {
    if k != 0 {
      assert RoundEvents(targets, round, k)[..k - 1] == RoundEvents(targets, round, k - 1);
      RoundRecords(targets, round, url, k - 1);
    }
  }

  lemma {:induction false} RoundsRecord(targets: seq<Target>, replies: seq<seq<Response>>, url: string)
    requires Replies(targets, replies)
    ensures Records(History(Rounds(targets, replies), url), RepliesTo(targets, replies, url))
    decreases |replies|
  {
    if replies != [] {
      var before, last := replies[..|replies| - 1], replies[|replies| - 1];
      var round := RoundEvents(targets, last, |targets|);
      RoundsRecord(targets, before, url);
      RoundRecords(targets, last, url, |targets|);
      HistoryConcat(Rounds(targets, before), round, url);
      RecordsConcat(History(Rounds(targets, before), url), RepliesTo(targets, before, url),
                    History(round, url), RepliesInRound(targets, last, url, |targets|));
    }
  }

  /** There are m replies and the last m are bad. */
  ghost predicate LastBad(replies: seq<Response>, m: nat) {
    m <= |replies| && forall r :: |replies| - m <= r < |replies| ==> Bad(replies[r])
  }

  lemma {:induction false} LastBadIsDown(history: seq<bool>, replies: seq<Response>, m: nat)
    requires Records(history, replies)
    ensures LastFailed(history, m) <==> LastBad(replies, m)
  {
  }

  /**
   After any rounds of probes, IsHealthy is true of a URL exactly when it is a target's and the last
   `threshold` replies to its probes were not all errors or answers other than 2xx.
   */
  lemma {:induction false} ReportedByReplies(targets: seq<Target>, weighted: bool, threshold: int,
                                             replies: seq<seq<Response>>, url: string)
    requires Replies(targets, replies)
    ensures ReportsUp(Run(targets, weighted, threshold, Rounds(targets, replies)), url)
       <==> HasUrl(targets, url) && !LastBad(RepliesTo(targets, replies, url), Needed(threshold))
  {
    var events := Rounds(targets, replies);
    RoundsRecord(targets, replies, url);
    LastBadIsDown(History(events, url), RepliesTo(targets, replies, url), Needed(threshold));
    ReportsUpIff(targets, weighted, threshold, events, url);
  }

  lemma {:induction false} OneReply(targets: seq<Target>, round: seq<Response>, i: nat, k: nat)
    requires DistinctUrls(targets) && i < |targets| == |round| && k <= |targets|
    ensures RepliesInRound(targets, round, targets[i].url, k) == if i < k then [round[i]] else []
  {
    if k != 0 {
      OneReply(targets, round, i, k - 1);
    }
  }

  /** Target i's own replies, one per round. */
  function Column(replies: seq<seq<Response>>, i: nat): (column: seq<Response>)
    requires forall r :: r in replies ==> i < |r|
    ensures |column| == |replies|
  {
    seq(|replies|, r requires 0 <= r < |replies| => replies[r][i])
  }

  lemma {:induction false} ColumnAppend(replies: seq<seq<Response>>, i: nat)
    requires replies != [] && forall r :: r in replies ==> i < |r|
    ensures var n := |replies| - 1;
            Column(replies, i) == Column(replies[..n], i) + [replies[n][i]]
  {
  }

  lemma {:induction false} DistinctColumn(targets: seq<Target>, replies: seq<seq<Response>>, i: nat)
    requires DistinctUrls(targets) && Replies(targets, replies) && i < |targets|
    ensures RepliesTo(targets, replies, targets[i].url) == Column(replies, i)
    decreases |replies|
  {
    if replies != [] {
      var n := |replies| - 1;
      DistinctColumn(targets, replies[..n], i);
      OneReply(targets, replies[n], i, |targets|);
      ColumnAppend(replies, i);
    }
  }

  /**
   With distinct URLs, after any rounds of probes, target i is reported down, and its flag is down so
   that `Next` does not return it, exactly when its last `threshold` replies were all bad.
   */
  lemma {:induction false} RoutedByReplies(targets: seq<Target>, weighted: bool, threshold: int,
                                           replies: seq<seq<Response>>, i: nat)
    requires DistinctUrls(targets) && Replies(targets, replies) && i < |targets|
    ensures var sys, down := Run(targets, weighted, threshold, Rounds(targets, replies)),
                             LastBad(Column(replies, i), Needed(threshold));
            && (down <==> !ReportsUp(sys, targets[i].url))
            && (down <==> !Flags(sys.balancer)[i])
            && (down ==> Pick(sys.balancer).1 != Selected(targets[i].url))
  {
    var events, url := Rounds(targets, replies), targets[i].url;
    DistinctColumn(targets, replies, i);
    RoundsRecord(targets, replies, url);
    LastBadIsDown(History(events, url), Column(replies, i), Needed(threshold));
    HealthFollowsProbes(targets, weighted, threshold, events, i);
    DistinctRoutesUp(targets, weighted, threshold, events, url);
    ReportedByReplies(targets, weighted, threshold, replies, url);
  }
}
