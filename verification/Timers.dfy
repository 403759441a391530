/** The timers of a client connection: what each poll does with it, and what whole runs of polls come to. */
module Timers {

  /** Timestamps are 64-bit microseconds. */
  const WRAP: nat := 0x1_0000_0000_0000_0000

  const CONNECT_RETRANSMIT_INTERVAL: nat := 100000
  const CONNECT_RETRANSMIT_INTERVAL_INCREMENT: nat := 20000
  const CONNECT_RETRANSMIT_COUNT: nat := 10
  const IDLE_RETRANSMIT_INTERVAL: nat := 600000
  const IDLE_TIMEOUT_INTERVAL: nat := 5000000

  /** `UDPCONNECTIONSTATE`. */
  datatype Phase = Preconnect | Initial | Connected | Final | Dead

  datatype Timer = Timer(phase: Phase, lastTransmit: nat, lastReceive: nat, ntransmit: nat)

  /** A connection that has just been made. */
  const NEW := Timer(Preconnect, 0, 0, 0)

  /** What a handler does besides: sends the connect payload, or queues an idle packet. */
  datatype Action = Nothing | Send | Idle

  /** What the handler cannot know: whether a send goes through, whether an append finds memory, and the value
      that a handler which runs off its end without a `return` leaves behind. */
  datatype Luck = Luck(sent: bool, room: bool, stray: int)

  datatype Outcome = Outcome(timer: Timer, verdict: int, action: Action)

  /** Unsigned subtraction. */
  function Since(now: nat, before: nat): nat {
    (now - before) % WRAP
  }

  /** `udpcns_initial`. */
  function InitialStep(t: Timer, now: nat, luck: Luck): Outcome {
    if Since(now, t.lastTransmit) > CONNECT_RETRANSMIT_INTERVAL + t.ntransmit * CONNECT_RETRANSMIT_INTERVAL_INCREMENT then
      if t.ntransmit < CONNECT_RETRANSMIT_COUNT then
        Outcome(t.(lastTransmit := now, ntransmit := t.ntransmit + 1), if luck.sent then luck.stray else -1, Send)
      else
        Outcome(t.(lastTransmit := now), -1, Nothing)
    else
      Outcome(t, luck.stray, Nothing)
  }

  /** `udpcns_connected`. */
  function ConnectedStep(t: Timer, now: nat, luck: Luck): Outcome {
    if Since(now, t.lastReceive) > IDLE_TIMEOUT_INTERVAL then
      Outcome(t, -1, Nothing)
    else if Since(now, t.lastTransmit) > IDLE_RETRANSMIT_INTERVAL then
      Outcome(t.(lastTransmit := now), if luck.room then luck.stray else -1, Idle)
    else
      Outcome(t, luck.stray, Nothing)
  }

  /** The handler of the connection's state. */
  function React(t: Timer, now: nat, luck: Luck): Outcome {
    match t.phase
    case Preconnect => InitialStep(t.(phase := Initial), now, luck)
    case Initial => InitialStep(t, now, luck)
    case Connected => ConnectedStep(t, now, luck)
    case Final => Outcome(t, luck.stray, Nothing)
    case Dead => Outcome(t, -1, Nothing)
  }

  // ------------------------------------------------------------------------------------ runs of polls

  /** Sends go through, queues have room, and a handler that runs off its end means zero. */
  const FINE := Luck(true, true, 0)

  /** A connection polled for a while: when it acted, when it was polled last, and whether it was given up. */
  datatype Track = Track(timer: Timer, acts: seq<nat>, last: nat, gone: bool)

  function Polled(k: Track, now: nat): Track {
    var o := React(k.timer, now, FINE);
    Track(o.timer, if o.action == Nothing then k.acts else k.acts + [now], now, o.verdict == -1)
  }

  /** Polls at the given times, up to the one that gives the connection up. */
  function Run(k: Track, times: seq<nat>): Track
    decreases |times|
  {
    if times == [] || k.gone then k else Run(Polled(k, times[0]), times[1..])
  }

  /** The clock never goes back, and does not wrap around. */
  predicate Clock(start: nat, times: seq<nat>) {
    && (forall i :: 0 <= i < |times| ==> start <= times[i] < WRAP)
    && (forall i, j :: 0 <= i < j < |times| ==> times[i] <= times[j])
  }

  /** No two polls in a row are more than `d` apart. */
  predicate Within(d: nat, times: seq<nat>) {
    forall i :: 0 < i < |times| ==> times[i] <= times[i - 1] + d
  }

  /** The least time from the first to the `n`-th transmission of a connect packet, bar one microsecond each. */
  function Backoff(n: nat): nat {
    if n <= 1 then 0
    else Backoff(n - 1) + CONNECT_RETRANSMIT_INTERVAL + (n - 1) * CONNECT_RETRANSMIT_INTERVAL_INCREMENT
  }

  /** What polling only every `d` microseconds can add up to over `n` transmissions. */
  function Slack(n: nat, d: nat): nat {
    if n == 0 then 0 else Slack(n - 1, d) + d
  }

  /** What is known of a connection that is being retried, `d` apart at most. */
  predicate Retrying(k: Track, d: nat) {
    && k.timer.phase == Initial
    && k.timer.ntransmit == |k.acts| <= CONNECT_RETRANSMIT_COUNT
    && k.timer.lastTransmit <= k.last < WRAP
    && (k.acts == [] ==> !k.gone && k.timer.lastTransmit == 0)
    && (k.acts != [] && !k.gone ==>
          var n := |k.acts|;
          && k.acts[0] + Backoff(n) + (n - 1) <= k.timer.lastTransmit <= k.acts[0] + Backoff(n) + Slack(n - 1, d)
          && k.last <= k.timer.lastTransmit + CONNECT_RETRANSMIT_INTERVAL + n * CONNECT_RETRANSMIT_INTERVAL_INCREMENT)
    && (k.gone ==>
          && |k.acts| == CONNECT_RETRANSMIT_COUNT
          && k.acts[0] + 2100010 <= k.last <= k.acts[0] + 2100000 + 10 * d)
  }

  lemma {:induction false} BackoffTable()
    ensures Backoff(10) + CONNECT_RETRANSMIT_INTERVAL + 10 * CONNECT_RETRANSMIT_INTERVAL_INCREMENT == 2100000
  {
    assert Backoff(2) == 120000;
    assert Backoff(4) == 420000;
    assert Backoff(6) == 800000;
    assert Backoff(8) == 1260000;
    assert Backoff(10) == 1800000;
  }

  lemma {:induction false} NineSlacks(d: nat)
    ensures Slack(9, d) == 9 * d
  {
    assert Slack(1, d) == d;
    assert Slack(3, d) == 3 * d;
    assert Slack(5, d) == 5 * d;
    assert Slack(7, d) == 7 * d;
  }

  lemma {:induction false} SlackGrows(n: nat, d: nat)
    requires n <= 9
    ensures Slack(n, d) <= 9 * d
    decreases 9 - n
  {
    NineSlacks(d);
    if n < 9 {
      SlackGrows(n + 1, d);
    }
  }

  lemma {:induction false} RetryingPolled(k: Track, d: nat, now: nat)
    requires Retrying(k, d) && !k.gone && k.last <= now < WRAP
    requires k.acts != [] ==> now <= k.last + d
    ensures Retrying(Polled(k, now), d)
  {
    BackoffTable();
    assert Since(now, k.timer.lastTransmit) == now - k.timer.lastTransmit;
    NineSlacks(d);
  }

  lemma {:induction false} RetryingRun(k: Track, d: nat, times: seq<nat>)
    requires Retrying(k, d) && Clock(k.last, times) && Within(d, times)
    requires k.acts != [] && times != [] ==> times[0] <= k.last + d
    ensures Retrying(Run(k, times), d)
    ensures !Run(k, times).gone && times != [] ==> Run(k, times).last == times[|times| - 1]
    decreases |times|
  {
    if times != [] && !k.gone {
      RetryingPolled(k, d, times[0]);
      RetryingRun(Polled(k, times[0]), d, times[1..]);
    }
  }

  /** The first poll only opens the connection and does what the state after it does. */
  lemma {:induction false} Opened(now: nat)
    ensures Polled(Track(NEW, [], 0, false), now) == Polled(Track(NEW.(phase := Initial), [], 0, false), now)
  {
  }

  /** `at` is the first of the polls after `bound`. */
  predicate FirstAfter(times: seq<nat>, bound: nat, at: nat) {
    at in times && at > bound && forall t :: t in times && t > bound ==> at <= t
  }

  /** When transmission `i`, or giving up after the tenth, is due: at the polls after this. */
  function DueAfter(acts: seq<nat>, i: nat): nat
    requires i <= |acts|
  {
    if i == 0 then 100000 else acts[i - 1] + 100000 + 20000 * i
  }

  /** Each transmission came at the first poll at which it was due, and so did giving up, after ten of them;
      and nothing else is due yet. */
  predicate Punctual(k: Track, times: seq<nat>) {
    && |k.acts| <= 10
    && (forall i {:trigger k.acts[i]} :: 0 <= i < |k.acts| ==> FirstAfter(times, DueAfter(k.acts, i), k.acts[i]))
    && (!k.gone ==> forall t :: t in times ==> t <= DueAfter(k.acts, |k.acts|))
    && (k.gone ==> |k.acts| == 10 && FirstAfter(times, DueAfter(k.acts, 10), k.last))
  }

  /** The timer of a connection that is being retried goes with what it has done. */
  predicate InStep(k: Track) {
    && (k.timer.phase == Preconnect || k.timer.phase == Initial)
    && k.timer.ntransmit == |k.acts| && (!k.gone ==> k.timer.lastTransmit == LastSent(0, k.acts))
  }

  lemma {:induction false} StillFirst(times: seq<nat>, bound: nat, at: nat, now: nat)
    requires FirstAfter(times, bound, at) && at <= now
    ensures FirstAfter(times + [now], bound, at)
  {
  }

  lemma {:induction false} StillPunctual(k: Track, times: seq<nat>, now: nat)
    requires Punctual(k, times) && forall t :: t in times ==> t <= now
    requires k.gone || now <= DueAfter(k.acts, |k.acts|)
    ensures Punctual(k, times + [now])
  {
    forall i | 0 <= i < |k.acts| ensures FirstAfter(times + [now], DueAfter(k.acts, i), k.acts[i]) {
      StillFirst(times, DueAfter(k.acts, i), k.acts[i], now);
    }
    if k.gone {
      StillFirst(times, DueAfter(k.acts, 10), k.last, now);
    }
  }

  /** What one more poll does to such a track. */
  lemma {:induction false} InStepPolled(k: Track, now: nat)
    requires InStep(k) && !k.gone && |k.acts| <= 10 && LastSent(0, k.acts) <= now < WRAP
    ensures Polled(k, now) ==
      if now <= DueAfter(k.acts, |k.acts|) then Track(k.timer.(phase := Initial), k.acts, now, false)
      else if |k.acts| < 10 then
        Track(Timer(Initial, now, k.timer.lastReceive, |k.acts| + 1), k.acts + [now], now, false)
      else Track(k.timer.(phase := Initial, lastTransmit := now), k.acts, now, true)
  {
    assert Since(now, k.timer.lastTransmit) == now - k.timer.lastTransmit;
  }

  /** One more transmission: it and those before it came at the first polls at which they were due. */
  lemma {:induction false} OneMoreSent(acts: seq<nat>, times: seq<nat>, now: nat, i: nat)
    requires i <= |acts| && forall t :: t in times ==> t <= now
    requires if i < |acts| then FirstAfter(times, DueAfter(acts, i), acts[i])
             else now > DueAfter(acts, i) && forall t :: t in times ==> t <= DueAfter(acts, i)
    ensures FirstAfter(times + [now], DueAfter(acts + [now], i), (acts + [now])[i])
  {
    assert DueAfter(acts + [now], i) == DueAfter(acts, i);
    if i < |acts| {
      StillFirst(times, DueAfter(acts, i), acts[i], now);
    }
  }

  lemma {:induction false} PunctualSent(k: Track, times: seq<nat>, now: nat, k1: Track)
    requires Punctual(k, times) && !k.gone && |k.acts| < 10 && forall t :: t in times ==> t <= now
    requires now > DueAfter(k.acts, |k.acts|) && k1.acts == k.acts + [now] && !k1.gone
    ensures Punctual(k1, times + [now])
  {
    forall i | 0 <= i < |k1.acts| ensures FirstAfter(times + [now], DueAfter(k1.acts, i), k1.acts[i]) {
      OneMoreSent(k.acts, times, now, i);
    }
  }

  lemma {:induction false} PunctualGone(k: Track, times: seq<nat>, now: nat, k1: Track)
    requires Punctual(k, times) && !k.gone && |k.acts| == 10 && forall t :: t in times ==> t <= now
    requires now > DueAfter(k.acts, 10) && k1.acts == k.acts && k1.gone && k1.last == now
    ensures Punctual(k1, times + [now])
  {
    forall i | 0 <= i < |k.acts| ensures FirstAfter(times + [now], DueAfter(k.acts, i), k.acts[i]) {
      StillFirst(times, DueAfter(k.acts, i), k.acts[i], now);
    }
    OneMoreSent(k.acts, times, now, 10);
  }

  lemma {:induction false} PunctualPolled(k: Track, times: seq<nat>, now: nat)
    requires Punctual(k, times) && InStep(k) && !k.gone && now < WRAP && forall t :: t in times ==> t <= now
    ensures Punctual(Polled(k, now), times + [now]) && InStep(Polled(k, now))
  {
    var n, k1 := |k.acts|, Polled(k, now);
    assert k.acts != [] ==> FirstAfter(times, DueAfter(k.acts, n - 1), k.acts[n - 1]);
    InStepPolled(k, now);
    if now <= DueAfter(k.acts, n) {
      StillPunctual(k, times, now);
    } else if n < 10 {
      PunctualSent(k, times, now, k1);
    } else {
      PunctualGone(k, times, now, k1);
    }
  }

  lemma {:induction false} ClockParts(times: seq<nat>, n: nat)
    requires Clock(0, times) && n + 1 == |times|
    ensures Clock(0, times[..n]) && times[n] < WRAP && times == times[..n] + [times[n]]
    ensures forall t :: t in times[..n] ==> t <= times[n]
  {
  }

  /** However a connection that nobody answers is polled, it is first sent at the first poll after 100,000, then
      each time at the first poll more than 100,000 and 20,000 for each time it was sent after it was last sent,
      and given up instead when it has been sent ten times. */
  lemma {:induction false} SentOnTime(times: seq<nat>)
    requires Clock(0, times)
    ensures var k := Run(Track(Timer(Preconnect, 0, 0, 0), [], 0, false), times);
            Punctual(k, times) && InStep(k)
    decreases |times|
  {
    if times != [] {
      var start, n := Track(Timer(Preconnect, 0, 0, 0), [], 0, false), |times| - 1;
      ClockParts(times, n);
      SentOnTime(times[..n]);
      RunOneMore(start, times[..n], times[n]);
      var k := Run(start, times[..n]);
      if k.gone {
        StillPunctual(k, times[..n], times[n]);
      } else {
        PunctualPolled(k, times[..n], times[n]);
      }
    }
  }

  /** A connection that nobody answers: it is sent, and in the end given up, at the first poll at which that is
      due; so polled at least every `d` microseconds, it is sent at most ten times, and given up no earlier than
      2,100,010 and no later than 2,100,000 + 10 * `d` microseconds after it was first sent. */
  lemma {:induction false} RetransmitSchedule(times: seq<nat>, d: nat)
    requires Clock(0, times) && Within(d, times)
    ensures var k := Run(Track(NEW, [], 0, false), times);
            && Punctual(k, times)
            && |k.acts| <= 10
            && (k.gone ==> |k.acts| == 10 && k.acts[0] + 2100010 <= k.last <= k.acts[0] + 2100000 + 10 * d)
            && (!k.gone && times != [] ==> k.last == times[|times| - 1])
            && (!k.gone && k.acts != [] ==> k.last <= k.acts[0] + 2100000 + 9 * d)
  {
    var fresh0 := Track(NEW, [], 0, false);
    var open := Track(NEW.(phase := Initial), [], 0, false);
    SentOnTime(times);
    if times != [] {
      Opened(times[0]);
      assert Run(fresh0, times) == Run(Polled(open, times[0]), times[1..]) == Run(open, times);
      RetryingRun(open, d, times);
      if !Run(open, times).gone && Run(open, times).acts != [] {
        BackoffBound(Run(open, times), d);
      }
    }
  }

  lemma {:induction false} BackoffBound(k: Track, d: nat)
    requires Retrying(k, d) && !k.gone && k.acts != []
    ensures k.last <= k.acts[0] + 2100000 + 9 * d
  {
    BackoffTable();
    BackoffGrows(|k.acts|);
    SlackGrows(|k.acts| - 1, d);
  }

  lemma {:induction false} BackoffGrows(n: nat)
    requires 1 <= n <= 10
    ensures Backoff(n) + CONNECT_RETRANSMIT_INTERVAL + n * CONNECT_RETRANSMIT_INTERVAL_INCREMENT <= 2100000
    decreases 10 - n
  {
    BackoffTable();
    if n < 10 {
      BackoffGrows(n + 1);
    }
  }

  // ------------------------------------------------------------------------------------ silence

  /** What is known of a connected peer that has not been heard of since `r`. */
  predicate Quiet(k: Track, r: nat) {
    && k.timer.phase == Connected && k.timer.lastReceive == r
    && r <= k.last < WRAP && k.timer.lastTransmit <= k.last
    && (k.acts != [] ==>
          r + (|k.acts| - 1) * (IDLE_RETRANSMIT_INTERVAL + 1) <= k.timer.lastTransmit <= r + IDLE_TIMEOUT_INTERVAL)
  }

  lemma {:induction false} QuietPolled(k: Track, r: nat, now: nat)
    requires Quiet(k, r) && !k.gone && k.last <= now < WRAP
    ensures Quiet(Polled(k, now), r)
    ensures Polled(k, now).gone <==> now > r + IDLE_TIMEOUT_INTERVAL
  {
  }

  /** The place of the first poll after the peer has been silent for too long. */
  function Deadline(times: seq<nat>, r: nat): (i: nat)
    ensures i <= |times|
    ensures i < |times| ==> times[i] > r + 5000000
    ensures forall j :: 0 <= j < i ==> times[j] <= r + 5000000
  {
    if times == [] || times[0] > r + IDLE_TIMEOUT_INTERVAL then 0 else
    var i := Deadline(times[1..], r);
    assert forall j :: 0 < j < i + 1 ==> times[j] == times[1..][j - 1];
    1 + i
  }

  lemma {:induction false} QuietRun(k: Track, r: nat, times: seq<nat>)
    requires Quiet(k, r) && !k.gone && Clock(k.last, times)
    ensures Quiet(Run(k, times), r)
    ensures Run(k, times).gone <==> Deadline(times, r) < |times|
    ensures Run(k, times).gone ==> Run(k, times).last == times[Deadline(times, r)]
    decreases |times|
  {
    if times != [] {
      QuietPolled(k, r, times[0]);
      if !Polled(k, times[0]).gone {
        QuietRun(Polled(k, times[0]), r, times[1..]);
      }
    }
  }

  /** A connected peer that stays silent: at most nine idle packets are queued for it, and it is given up at
      the first poll more than 5,000,000 microseconds after it was last heard of, and not before. */
  lemma {:induction false} IdleSchedule(t: Timer, start: nat, times: seq<nat>)
    requires t.phase == Connected && t.lastTransmit <= start < WRAP && t.lastReceive <= start
    requires Clock(start, times)
    ensures var k := Run(Track(t, [], start, false), times);
            && |k.acts| <= 9
            && (k.gone <==> exists now :: now in times && now > t.lastReceive + 5000000)
            && (k.gone ==> FirstAfter(times, t.lastReceive + 5000000, k.last))
  {
    QuietRun(Track(t, [], start, false), t.lastReceive, times);
    var i := Deadline(times, t.lastReceive);
    if i < |times| {
      assert times[i] in times;
    }
  }

  /** More than 600,000 microseconds lie between one of these and the next, the first of them coming after `before`. */
  predicate Spaced(before: nat, acts: seq<nat>) {
    forall i {:trigger acts[i]} :: 0 <= i < |acts| ==>
      acts[i] > (if i == 0 then before else acts[i - 1]) + 600000
  }

  /** The last time the peer was sent to, `before` being the last time before the polls. */
  function LastSent(before: nat, acts: seq<nat>): nat {
    if acts == [] then before else acts[|acts| - 1]
  }

  lemma {:induction false} IdlePolled(k: Track, r: nat, before: nat, now: nat)
    requires Quiet(k, r) && !k.gone && k.last <= now < WRAP
    requires Spaced(before, k.acts) && k.timer.lastTransmit == LastSent(before, k.acts)
    ensures var k1 := Polled(k, now);
            && Spaced(before, k1.acts) && k1.timer.lastTransmit == LastSent(before, k1.acts)
            && (!k1.gone ==> k1.last == now <= k1.timer.lastTransmit + 600000)
  {
    assert Since(now, k.timer.lastTransmit) == now - k.timer.lastTransmit;
  }

  lemma {:induction false} LastPolled(k: Track, times: seq<nat>)
    ensures !Run(k, times).gone && times != [] ==> Run(k, times).last == times[|times| - 1]
    decreases |times|
  {
    if times != [] && !k.gone {
      LastPolled(Polled(k, times[0]), times[1..]);
    }
  }

  lemma {:induction false} IdleRun(k: Track, r: nat, before: nat, times: seq<nat>)
    requires Quiet(k, r) && !k.gone && Clock(k.last, times)
    requires Spaced(before, k.acts) && k.timer.lastTransmit == LastSent(before, k.acts)
    ensures var k1 := Run(k, times);
            && Spaced(before, k1.acts)
            && (!k1.gone && times != [] ==> k1.last <= LastSent(before, k1.acts) + 600000)
    decreases |times|
  {
    if times != [] {
      var k1, rest := Polled(k, times[0]), times[1..];
      QuietPolled(k, r, times[0]);
      IdlePolled(k, r, before, times[0]);
      if !k1.gone {
        IdleRun(k1, r, before, rest);
      }
    }
  }

  /** In every run of polls of a connected peer that stays silent, packets are more than 600,000 microseconds
      apart, and by the last poll, if it has kept the peer, the last packet is no older than that. Every start
      of a run being a run, this is so at every poll. */
  lemma {:induction false} IdleKeepsTalking(t: Timer, start: nat, times: seq<nat>)
    requires t.phase == Connected && t.lastTransmit <= start < WRAP && t.lastReceive <= start
    requires Clock(start, times)
    ensures var k := Run(Track(t, [], start, false), times);
            && Spaced(t.lastTransmit, k.acts)
            && (!k.gone && times != [] ==> times[|times| - 1] <= LastSent(t.lastTransmit, k.acts) + 600000)
  {
    IdleRun(Track(t, [], start, false), t.lastReceive, t.lastTransmit, times);
    LastPolled(Track(t, [], start, false), times);
  }

  lemma {:induction false} RunOneMore(k: Track, times: seq<nat>, now: nat)
    ensures Run(k, times + [now]) == if Run(k, times).gone then Run(k, times) else Polled(Run(k, times), now)
    decreases |times|
  {
    if times == [] {
      assert [] + [now] == [now] && [now][1..] == [];
    } else if !k.gone {
      assert (times + [now])[1..] == times[1..] + [now];
      RunOneMore(Polled(k, times[0]), times[1..], now);
    }
  }

  /** Polls at the soonest times at which an idle packet is due, from `r` on. */
  function Due(r: nat, n: nat): (times: seq<nat>)
    ensures |times| == n
    ensures n > 0 ==> times[n - 1] == r + (n - 1) * 600001
  {
    if n == 0 then [] else Due(r, n - 1) + [r + (n - 1) * (IDLE_RETRANSMIT_INTERVAL + 1)]
  }

  lemma {:induction false} OneMoreIdle(k: Track, r: nat, now: nat)
    requires k.timer.phase == Connected && k.timer.lastReceive == r
    requires r <= now <= r + IDLE_TIMEOUT_INTERVAL && now < WRAP
    requires k.timer.lastTransmit + IDLE_RETRANSMIT_INTERVAL < now
    ensures Polled(k, now) == Track(k.timer.(lastTransmit := now), k.acts + [now], now, false)
  {
    assert Since(now, r) == now - r;
    assert Since(now, k.timer.lastTransmit) == now - k.timer.lastTransmit;
  }

  /** Nine is exact: a peer silent since `r`, which was last sent to well before, can be sent nine idle packets. */
  lemma {:induction false} NineIdlePackets(t: Timer, r: nat, n: nat)
    requires t.phase == Connected && t.lastReceive == r && t.lastTransmit + IDLE_RETRANSMIT_INTERVAL < r
    requires r + IDLE_TIMEOUT_INTERVAL < WRAP && n <= 9
    ensures Run(Track(t, [], r, false), Due(r, n))
         == if n == 0 then Track(t, [], r, false)
            else Track(t.(lastTransmit := Due(r, n)[n - 1]), Due(r, n), Due(r, n)[n - 1], false)
  {
    if n > 0 {
      var k, times := Track(t, [], r, false), Due(r, n - 1);
      var now := r + (n - 1) * (IDLE_RETRANSMIT_INTERVAL + 1);
      NineIdlePackets(t, r, n - 1);
      RunOneMore(k, times, now);
      OneMoreIdle(Run(k, times), r, now);
    }
  }

  /** When a connected peer is given up. The subtraction is unsigned: a peer heard of after `now` counts as
      silent for long, unless the difference comes near the wrap. */
  lemma {:induction false} AheadOfTheClock(t: Timer, now: nat)
    requires t.phase == Connected && now < WRAP && t.lastReceive < WRAP
    ensures React(t, now, Luck(true, true, 0)).verdict == -1 <==>
              if t.lastReceive <= now then now > t.lastReceive + 5000000
              else t.lastReceive - now < 18446744073704551616
  {
    assert Since(now, t.lastReceive) == if t.lastReceive <= now then now - t.lastReceive else now - t.lastReceive + WRAP;
  }
}
