/** The clock-offset estimator of udp_comms.c: handle_echo_time collects samples of a client's clock,
    to_client_msecs converts camera host time to client time. Times are in microseconds unless named
    otherwise; the ranges keep every int64_t expression from overflowing. */
module Clock {

  const INT64_MIN := -0x8000_0000_0000_0000
  const INT64_MAX := 0x7FFF_FFFF_FFFF_FFFF

  /** A time in microseconds within 2^60 (36 millennia) of the epoch. */
  type Usec = x: int | -0x1000_0000_0000_0000 <= x <= 0x1000_0000_0000_0000

  /** A time in milliseconds within 2^49 of the client's epoch. */
  type Msec = x: int | -0x2_0000_0000_0000 <= x <= 0x2_0000_0000_0000

  /** Division in C: the quotient is truncated towards zero. */
  function TruncDiv(a: int, b: int): int
    requires b > 0
  {
    if a >= 0 then a / b else -(-a / b)
  }

  /** An Echo_Time message and when it arrived. */
  datatype Echo = Echo(camHostUsec: Usec, clientMsec: Msec, arriveUsec: Usec)

  /** The clock fields of Client_Info. */
  datatype Estimate = Estimate(clientStartTimeMsec: int, minOffsetUsec: int, sumRoundTripUsec: int,
                               meanHalfRoundTripUsec: int, lastPingUsec: int, sampleCount: int)

  const INITIAL := Estimate(INT64_MIN, INT64_MAX, 0, 0, 0, 0)

  /** What handle_echo_time does to the fields. */
  function Update(c: Estimate, e: Echo, maxSamples: int, maxRoundTrip: int): Estimate
    requires c.sampleCount >= 0
  {
    var roundTrip := e.arriveUsec - e.camHostUsec;
    if roundTrip < 0 then c
    else
      var start := if c.clientStartTimeMsec == INT64_MIN then e.clientMsec else c.clientStartTimeMsec;
      var c1 := c.(lastPingUsec := e.arriveUsec, clientStartTimeMsec := start);
      if roundTrip >= maxRoundTrip then c1
      else
        var offset := e.camHostUsec + TruncDiv(roundTrip, 2) - 1000 * (e.clientMsec - start);
        var sum, count := c1.sumRoundTripUsec + roundTrip, c1.sampleCount + 1;
        c1.(minOffsetUsec := if offset < c1.minOffsetUsec then offset else c1.minOffsetUsec,
            sumRoundTripUsec := sum, sampleCount := count,
            meanHalfRoundTripUsec :=
              if count >= maxSamples then TruncDiv(sum, count * 2) else c1.meanHalfRoundTripUsec)
  }

  /** to_client_msecs */
  function ToClientMsecs(c: Estimate, camHostUsec: int): int {
    TruncDiv(camHostUsec + c.meanHalfRoundTripUsec - c.minOffsetUsec, 1000) + c.clientStartTimeMsec
  }

  // ----- The error bound -----

  /** The client's clock shows host time minus a constant offset. Its reply was stamped, in whole
      milliseconds, at some host time s no earlier than the request and no later than the arrival. */
  ghost predicate Honest(e: Echo, offset: int) {
    exists s :: e.camHostUsec <= s <= e.arriveUsec && StampedAt(e, offset, s)
  }

  ghost predicate StampedAt(e: Echo, offset: int, s: int) {
    1000 * e.clientMsec <= s - offset < 1000 * e.clientMsec + 1000
  }

  ghost predicate AllHonest(es: seq<Echo>, offset: int) {
    forall i :: 0 <= i < |es| ==> Honest(es[i], offset)
  }

  ghost function Run(c: Estimate, es: seq<Echo>, maxSamples: int, maxRoundTrip: int): (r: Estimate)
    requires c.sampleCount >= 0
    ensures r.sampleCount >= c.sampleCount
    decreases |es|
  {
    if es == [] then c else Run(Update(c, es[0], maxSamples, maxRoundTrip), es[1..], maxSamples, maxRoundTrip)
  }

  /** What the samples so far say: the smallest offset is within half a round trip of the truth on
      one side and half a round trip and a millisecond on the other, and the mean is below half the
      longest accepted round trip. */
  ghost predicate Calibrated(c: Estimate, offset: int, m: int) {
    && c.sampleCount >= 0 && 0 <= c.meanHalfRoundTripUsec && 0 <= c.sumRoundTripUsec
    && (c.sampleCount == 0 ==> c.minOffsetUsec == INT64_MAX && c.meanHalfRoundTripUsec == 0)
    && c.sumRoundTripUsec <= c.sampleCount * (m - 1)
    && (c.sampleCount > 0 ==>
          && m >= 1 && 2 * c.meanHalfRoundTripUsec <= m - 1
          && -m <= 2 * (c.minOffsetUsec - offset - 1000 * c.clientStartTimeMsec) <= m - 1 + 1998)
    && (c.clientStartTimeMsec == INT64_MIN ==> c.sampleCount == 0)
    && (c.clientStartTimeMsec != INT64_MIN ==> -0x2_0000_0000_0000 <= c.clientStartTimeMsec <= 0x2_0000_0000_0000)
  }

  lemma PositiveFactor(count: int, x: int)
    requires count > 0 && count * x <= 0
    ensures x <= 0
  {
    assert x >= 1 ==> count * x >= count;
  }

  lemma MeanBound(sum: int, count: int, m: int)
    requires count > 0 && 0 <= sum <= count * (m - 1)
    ensures 0 <= TruncDiv(sum, count * 2) && 2 * TruncDiv(sum, count * 2) <= m - 1
  {
    var n := count * 2;
    var q := sum / n;
    assert sum == q * n + sum % n;
    assert q * n == count * (2 * q);
    assert count * (2 * q) - count * (m - 1) == count * (2 * q - (m - 1));
    PositiveFactor(count, 2 * q - (m - 1));
    assert q <= -1 ==> q * n <= -n;
  }

  /** One sample's offset, measured against the start of the client's clock. */
  function SampleOffset(e: Echo, start: int): int {
    e.camHostUsec + TruncDiv(e.arriveUsec - e.camHostUsec, 2) - 1000 * (e.clientMsec - start)
  }

  lemma SampleWindow(e: Echo, start: int, offset: int, m: int)
    requires Honest(e, offset) && 0 <= e.arriveUsec - e.camHostUsec < m
    ensures -m <= 2 * (SampleOffset(e, start) - offset - 1000 * start) <= m - 1 + 1998
  {
  }

  lemma OneMoreTimes(n: int, k: int)
    ensures (n + 1) * k == n * k + k
  {
  }

  lemma AcceptedCalibrates(c: Estimate, e: Echo, maxSamples: int, limit: int, m: int, offset: int)
    requires Calibrated(c, offset, m) && Honest(e, offset)
    requires 0 <= e.arriveUsec - e.camHostUsec < limit <= m
    ensures Calibrated(Update(c, e, maxSamples, limit), offset, m)
  {
    hide TruncDiv;
    var start := if c.clientStartTimeMsec == INT64_MIN then e.clientMsec else c.clientStartTimeMsec;
    var sum, count := c.sumRoundTripUsec + (e.arriveUsec - e.camHostUsec), c.sampleCount + 1;
    OneMoreTimes(c.sampleCount, m - 1);
    MeanBound(sum, count, m);
    SampleWindow(e, start, offset, m);
    assert Update(c, e, maxSamples, limit).minOffsetUsec ==
           if SampleOffset(e, start) < c.minOffsetUsec then SampleOffset(e, start) else c.minOffsetUsec;
    OffsetFits(e, start);
  }

  /** A sample's offset is always below the INT64_MAX that stands for none. */
  lemma OffsetFits(e: Echo, start: int)
    requires 0 <= e.arriveUsec - e.camHostUsec
    requires -0x2_0000_0000_0000 <= start <= 0x2_0000_0000_0000
    ensures INT64_MIN < SampleOffset(e, start) < INT64_MAX
  {
  }

  lemma UpdateCalibrates(c: Estimate, e: Echo, maxSamples: int, limit: int, m: int, offset: int)
    requires Calibrated(c, offset, m) && Honest(e, offset) && limit <= m
    ensures Calibrated(Update(c, e, maxSamples, limit), offset, m)
  {
    if 0 <= e.arriveUsec - e.camHostUsec < limit {
      AcceptedCalibrates(c, e, maxSamples, limit, m, offset);
    }
  }

  lemma {:induction false} RunCalibrates(c: Estimate, es: seq<Echo>, maxSamples: int, m: int, offset: int)
    requires Calibrated(c, offset, m) && AllHonest(es, offset)
    ensures Calibrated(Run(c, es, maxSamples, m), offset, m)
    decreases |es|
  {
    if es != [] {
      UpdateCalibrates(c, es[0], maxSamples, m, m, offset);
      RunCalibrates(Update(c, es[0], maxSamples, m), es[1..], maxSamples, m, offset);
    }
  }

  lemma CalibratedBound(c: Estimate, m: int, offset: int, t: int)
    requires Calibrated(c, offset, m) && c.sampleCount > 0
    ensures var error := 1000 * ToClientMsecs(c, t) - (t - offset); 2 * error > -(m + 4000) && error < m + 1000
  {
  }

  /** After any run of messages with at least one accepted sample the converted time is less than
      half the longest accepted round trip and two milliseconds behind the client's clock, and less
      than a whole round trip and a millisecond ahead of it. */
  lemma ConversionErrorBound(es: seq<Echo>, maxSamples: int, m: int, offset: int, t: int)
    requires AllHonest(es, offset)
    requires Run(INITIAL, es, maxSamples, m).sampleCount > 0
    ensures var error := 1000 * ToClientMsecs(Run(INITIAL, es, maxSamples, m), t) - (t - offset);
            2 * error > -(m + 4000) && error < m + 1000
  {
    RunCalibrates(INITIAL, es, maxSamples, m, offset);
    CalibratedBound(Run(INITIAL, es, maxSamples, m), m, offset, t);
  }

  // ----- What the estimate is -----

  predicate IsReply(e: Echo) { e.arriveUsec >= e.camHostUsec }

  predicate IsSample(e: Echo, maxRoundTrip: int) {
    0 <= e.arriveUsec - e.camHostUsec < maxRoundTrip
  }

  /** The messages that did not arrive before they were asked for. */
  ghost function Replies(es: seq<Echo>): seq<Echo> {
    if es == [] then []
    else Replies(es[..|es| - 1]) + if IsReply(es[|es| - 1]) then [es[|es| - 1]] else []
  }

  /** Those among them with a short enough round trip. */
  ghost function Samples(es: seq<Echo>, maxRoundTrip: int): seq<Echo> {
    if es == [] then []
    else Samples(es[..|es| - 1], maxRoundTrip) + if IsSample(es[|es| - 1], maxRoundTrip) then [es[|es| - 1]] else []
  }

  ghost function TotalTrip(es: seq<Echo>): int {
    if es == [] then 0 else TotalTrip(es[..|es| - 1]) + (es[|es| - 1].arriveUsec - es[|es| - 1].camHostUsec)
  }

  /** The host time half way through the round trip, less the client's time since start. */
  function OffsetOf(e: Echo, start: int): int
    requires IsReply(e)
  {
    e.camHostUsec + (e.arriveUsec - e.camHostUsec) / 2 - 1000 * (e.clientMsec - start)
  }

  /** v is the smallest offset of the samples, or INT64_MAX if there are none. */
  ghost predicate SmallestOffset(samples: seq<Echo>, start: int, v: int) {
    && (forall e :: e in samples ==> IsReply(e))
    && (samples == [] ==> v == INT64_MAX)
    && (samples != [] ==> exists e :: e in samples && v == OffsetOf(e, start))
    && forall e :: e in samples ==> v <= OffsetOf(e, start)
  }

  /** The estimate after these replies and samples, in full. */
  ghost predicate EstimateIs(c: Estimate, replies: seq<Echo>, samples: seq<Echo>, maxSamples: int) {
    && c.clientStartTimeMsec == (if replies == [] then INT64_MIN else replies[0].clientMsec)
    && c.lastPingUsec == (if replies == [] then 0 else replies[|replies| - 1].arriveUsec)
    && c.sampleCount == |samples| && c.sumRoundTripUsec == TotalTrip(samples)
    && SmallestOffset(samples, c.clientStartTimeMsec, c.minOffsetUsec)
    && c.meanHalfRoundTripUsec ==
       if samples == [] || |samples| < maxSamples then 0 else TotalTrip(samples) / (2 * |samples|)
  }

  lemma SmallestOffsetMore(samples: seq<Echo>, e: Echo, start: int, v: int, w: int)
    requires SmallestOffset(samples, start, v) && IsReply(e) && INT64_MIN < OffsetOf(e, start) < INT64_MAX
    requires w == if OffsetOf(e, start) < v then OffsetOf(e, start) else v
    ensures SmallestOffset(samples + [e], start, w)
  {
    var more := samples + [e];
    assert more[|samples|] == e;
    forall x | x in samples
      ensures x in more
    {
    }
  }

  lemma TruncDivIsDiv(a: int, b: int)
    requires a >= 0 && b > 0
    ensures TruncDiv(a, b) == a / b
  {
  }

  lemma RepliesMore(es: seq<Echo>, e: Echo)
    ensures Replies(es + [e]) == Replies(es) + if IsReply(e) then [e] else []
  {
    assert (es + [e])[..|es|] == es;
  }

  lemma SamplesMore(es: seq<Echo>, e: Echo, m: int)
    ensures Samples(es + [e], m) == Samples(es, m) + if IsSample(e, m) then [e] else []
  {
    assert (es + [e])[..|es|] == es;
  }

  lemma {:induction false} NoReplyNoSample(es: seq<Echo>, m: int)
    ensures Replies(es) == [] ==> Samples(es, m) == []
  {
    if es != [] { NoReplyNoSample(es[..|es| - 1], m); }
  }

  lemma TotalTripMore(es: seq<Echo>, e: Echo)
    ensures TotalTrip(es + [e]) == TotalTrip(es) + (e.arriveUsec - e.camHostUsec)
  {
    assert (es + [e])[..|es|] == es;
  }

  lemma {:induction false} TotalTripNotNegative(es: seq<Echo>)
    requires forall e :: e in es ==> IsReply(e)
    ensures TotalTrip(es) >= 0
  {
    if es != [] {
      assert es[|es| - 1] in es;
      TotalTripNotNegative(es[..|es| - 1]);
    }
  }

  lemma NewMean(sum: int, n: nat, maxSamples: int)
    requires sum >= 0
    ensures TruncDiv(sum, (n + 1) * 2) == sum / (2 * (n + 1))
  {
    assert (n + 1) * 2 == 2 * (n + 1);
  }

  lemma SampleMore(c: Estimate, replies: seq<Echo>, samples: seq<Echo>, e: Echo, maxSamples: int, m: int)
    requires EstimateIs(c, replies, samples, maxSamples) && IsSample(e, m) && (replies == [] ==> samples == [])
    ensures c.sampleCount >= 0 && EstimateIs(Update(c, e, maxSamples, m), replies + [e], samples + [e], maxSamples)
  {
    var trip := e.arriveUsec - e.camHostUsec;
    var start := if c.clientStartTimeMsec == INT64_MIN then e.clientMsec else c.clientStartTimeMsec;
    OffsetFits(e, start);
    TruncDivIsDiv(trip, 2);
    TotalTripMore(samples, e);
    TotalTripNotNegative(samples);
    NewMean(TotalTrip(samples) + trip, |samples|, maxSamples);
    hide TotalTrip, TruncDiv, SmallestOffset;
    var d := Update(c, e, maxSamples, m);
    if samples == [] { NoOffset(start, c.minOffsetUsec); }
    SmallestOffsetMore(samples, e, start, c.minOffsetUsec, d.minOffsetUsec);
  }

  lemma NoOffset(start: int, v: int)
    ensures SmallestOffset([], start, v) <==> v == INT64_MAX
  {
  }

  lemma NoSampleMore(c: Estimate, replies: seq<Echo>, samples: seq<Echo>, e: Echo, maxSamples: int, m: int)
    requires EstimateIs(c, replies, samples, maxSamples) && !IsSample(e, m) && (replies == [] ==> samples == [])
    ensures c.sampleCount >= 0
    ensures EstimateIs(Update(c, e, maxSamples, m), if IsReply(e) then replies + [e] else replies, samples, maxSamples)
  {
    hide TotalTrip, SmallestOffset;
    if samples == [] {
      NoOffset(c.clientStartTimeMsec, c.minOffsetUsec);
      NoOffset(e.clientMsec, c.minOffsetUsec);
    }
  }

  /** The run over all but the last message, then the last. */
  lemma {:induction false} RunMore(c: Estimate, es: seq<Echo>, e: Echo, maxSamples: int, m: int)
    requires c.sampleCount >= 0
    ensures Run(c, es + [e], maxSamples, m) == Update(Run(c, es, maxSamples, m), e, maxSamples, m)
    decreases |es|
  {
    if es == [] {
      assert [] + [e] == [e] && [e][1..] == [];
    } else {
      assert (es + [e])[1..] == es[1..] + [e] && (es + [e])[0] == es[0];
      hide Update;
      UpdateCounts(c, es[0], maxSamples, m);
      RunMore(Update(c, es[0], maxSamples, m), es[1..], e, maxSamples, m);
    }
  }

  lemma UpdateCounts(c: Estimate, e: Echo, maxSamples: int, m: int)
    requires c.sampleCount >= 0
    ensures Update(c, e, maxSamples, m).sampleCount >= 0
  {
  }

  /** After any messages: the start is the first reply's client time; the smallest offset is that of some
      sample and of none larger; sum and count are those of the samples; the mean is half the mean round
      trip once there are enough samples, and 0 before; the last ping is the last reply's arrival. */
  lemma {:induction false} RunSums(es: seq<Echo>, maxSamples: int, m: int)
    ensures EstimateIs(Run(INITIAL, es, maxSamples, m), Replies(es), Samples(es, m), maxSamples)
    decreases |es|
  {
    if es != [] {
      var front, e := es[..|es| - 1], es[|es| - 1];
      assert front + [e] == es;
      RunSums(front, maxSamples, m);
      RunMore(INITIAL, front, e, maxSamples, m);
      NoReplyNoSample(front, m);
      RepliesMore(front, e);
      SamplesMore(front, e, m);
      var c := Run(INITIAL, front, maxSamples, m);
      hide EstimateIs, Run, Update, Replies, Samples;
      if IsSample(e, m) {
        SampleMore(c, Replies(front), Samples(front, m), e, maxSamples, m);
      } else {
        NoSampleMore(c, Replies(front), Samples(front, m), e, maxSamples, m);
        assert Samples(front, m) + [] == Samples(front, m) && Replies(front) + [] == Replies(front);
      }
    }
  }

  /** The conversion divides the time since the client's start by 1000 and truncates towards zero. */
  lemma ConversionTruncates(c: Estimate, t: int)
    ensures var d, r := t + c.meanHalfRoundTripUsec - c.minOffsetUsec, ToClientMsecs(c, t) - c.clientStartTimeMsec;
            (d >= 0 ==> 1000 * r <= d < 1000 * r + 1000) && (d <= 0 ==> 1000 * r - 1000 < d <= 1000 * r)
  {
  }

  // ----- The client's record -----

  class ClientInfo {
    var clientStartTimeMsec: int
    var minOffsetUsec: int
    var sumHalfRoundTripUsec: int
    var meanHalfRoundTripUsec: int
    var lastPingUsec: int
    var sampleCount: int

    /** How far the host's clock is ahead of the client's, and a bound on the round trips accepted. */
    ghost const clockOffset: int
    ghost const longest: int

    /** The estimate is as good as honest replies make it. */
    ghost predicate Valid()
      reads this
    {
      Calibrated(View(), clockOffset, longest)
    }

    ghost function View(): Estimate
      reads this
    {
      Estimate(clientStartTimeMsec, minOffsetUsec, sumHalfRoundTripUsec, meanHalfRoundTripUsec,
               lastPingUsec, sampleCount)
    }

    constructor (ghost offset: int, ghost limit: int)
      ensures View() == INITIAL && Valid() && clockOffset == offset && longest == limit
    {
      clockOffset := offset;
      longest := limit;
      clientStartTimeMsec := INT64_MIN;
      minOffsetUsec := INT64_MAX;
      sumHalfRoundTripUsec, meanHalfRoundTripUsec, lastPingUsec, sampleCount := 0, 0, 0, 0;
    }

    /** handle_echo_time: -1 for a reply that arrives before it was asked for; asksAgain when another
        request is sent, because there are too few samples, and then the result is what sending it
        returns. An honest reply keeps the estimate good. */
    method HandleEchoTime(e: Echo, maxSamples: int, maxRoundTripUsecs: int, sendResult: int)
        returns (result: int, asksAgain: bool)
      requires sampleCount >= 0
      modifies this
      ensures View() == Update(old(View()), e, maxSamples, maxRoundTripUsecs)
      ensures asksAgain <==> e.arriveUsec >= e.camHostUsec && sampleCount < maxSamples
      ensures result == if e.arriveUsec < e.camHostUsec then -1 else if asksAgain then sendResult else 0
      ensures old(Valid()) && Honest(e, clockOffset) && maxRoundTripUsecs <= longest ==> Valid()
    {
      ghost var before := View();
      if Valid() && Honest(e, clockOffset) && maxRoundTripUsecs <= longest {
        UpdateCalibrates(before, e, maxSamples, maxRoundTripUsecs, longest, clockOffset);
      }
      hide Calibrated, Honest;
      var roundTripUsecs := e.arriveUsec - e.camHostUsec;
      if roundTripUsecs < 0 { return -1, false; }
      lastPingUsec := e.arriveUsec;
      if clientStartTimeMsec == INT64_MIN {
        clientStartTimeMsec := e.clientMsec;
      }
      if roundTripUsecs < maxRoundTripUsecs {
        var clientUsecs := 1000 * (e.clientMsec - clientStartTimeMsec);
        var offset := e.camHostUsec + TruncDiv(roundTripUsecs, 2) - clientUsecs;
        if offset < minOffsetUsec {
          minOffsetUsec := offset;
        }
        sumHalfRoundTripUsec := sumHalfRoundTripUsec + roundTripUsecs;
        sampleCount := sampleCount + 1;
        if sampleCount >= maxSamples {
          meanHalfRoundTripUsec := TruncDiv(sumHalfRoundTripUsec, sampleCount * 2);
        }
      }
      assert View() == Update(before, e, maxSamples, maxRoundTripUsecs);
      if sampleCount < maxSamples { return sendResult, true; }
      return 0, false;
    }

    /** to_client_msecs: after an accepted sample the result is less than half the longest accepted round
        trip and two milliseconds behind the client's clock, and less than a whole round trip and a
        millisecond ahead of it. */
    method ConvertToClientMsecs(camHostUsec: int) returns (msec: int)
      ensures msec == ToClientMsecs(View(), camHostUsec)
      ensures var d, r := camHostUsec + meanHalfRoundTripUsec - minOffsetUsec, msec - clientStartTimeMsec;
              (d >= 0 ==> 1000 * r <= d < 1000 * r + 1000) && (d <= 0 ==> 1000 * r - 1000 < d <= 1000 * r)
      ensures Valid() && sampleCount > 0 ==>
                var error := 1000 * msec - (camHostUsec - clockOffset);
                2 * error > -(longest + 4000) && error < longest + 1000
    {
      ConversionTruncates(View(), camHostUsec);
      if Valid() && sampleCount > 0 { CalibratedBound(View(), longest, clockOffset, camHostUsec); }
      msec := TruncDiv(camHostUsec + meanHalfRoundTripUsec - minOffsetUsec, 1000) + clientStartTimeMsec;
    }
  }
}
