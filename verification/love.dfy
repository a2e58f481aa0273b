/**
 * The cancellable dialogue loop of server/src/love.ts.
 *
 * The completion service is an oracle: call number c returns `replies[c]`
 * when c < |replies| and rejects otherwise. The stop flag of the optional
 * `LoveController` is sampled at four points per round; since nothing ever
 * resets it, the samples are described by the index of the first check that
 * sees it set (`stopAt`, `None` when there is no controller or nobody stops
 * it). Clock readings and `Math.random()` draws are parameters indexed by
 * the message they belong to.
 */
module Love {
  import opened Text
  import opened Dialogue

  /** `LoveController`: a flag that `stop()` sets and nothing clears. */
  class LoveController {
    var stopped: bool

    constructor ()
      ensures !stopped
    {
      stopped := false;
    }

    /** `stop()`: afterwards the flag is set; on a stopped controller it changes nothing. */
    method Stop()
      modifies this
      ensures stopped
      ensures old(stopped) ==> unchanged(this)
    {
      stopped := true;
    }
  }

  /** Whether stop-flag check number `check` (counted from 0) sees the flag set. */
  predicate StoppedAt(stopAt: Option<nat>, check: nat) {
    stopAt.Some? && check >= stopAt.value
  }

  /** Once a check sees the flag set, every later check does too. */
  lemma StoppedAtMonotone(stopAt: Option<nat>, c1: nat, c2: nat)
    requires c1 <= c2 && StoppedAt(stopAt, c1)
    ensures StoppedAt(stopAt, c2)
  {
  }

  /** `getRandomWaitTimeMs(wordCount)`: a draw from [40w, 50w] capped at 2000. */
  function RandomWaitTimeMs(wordCount: nat, u: Unit): (ms: int)
    ensures ms <= 2000
    ensures ms >= MinInt(40 * wordCount, 2000)
    ensures ms == 2000 || 40 * wordCount <= ms <= 50 * wordCount
    ensures ms <= MinInt(50 * wordCount, 2000)
  {
    MinInt(RandomInt(wordCount * 40, wordCount * 50, u), 2000)
  }

  /** The argument of `sleep` after a reply: the wait time minus the time
      already spent on the completion call, never negative. */
  function LoveDelay(reply: string, u: Unit, elapsedMs: int): (ms: int)
    ensures ms >= 0
    ensures elapsedMs >= 0 ==> ms <= 2000
    ensures ms == 0 || ms == RandomWaitTimeMs(WordCount(reply), u) - elapsedMs
    ensures ms >= RandomWaitTimeMs(WordCount(reply), u) - elapsedMs
  {
    MaxInt(0, RandomWaitTimeMs(WordCount(reply), u) - elapsedMs)
  }

  /** How many entries the stop flag lets the loop push: the entry with
      index m needs checks 2m and 2m + 1 to pass. */
  function StopCut(stopAt: Option<nat>): nat {
    match stopAt
    case None => MessageLimit
    case Some(k) => k / 2
  }

  /** A run that pushed L entries, whose last pushed entry passed its checks,
      and that ended by reaching the limit, running out of replies or seeing
      the flag at the check of entry L, pushed exactly as many entries as the
      limit, the oracle and the flag allow together. */
  lemma RunLength(stopAt: Option<nat>, replies: seq<string>, L: nat)
    requires L <= MessageLimit && L <= |replies|
    requires L == 0 || !StoppedAt(stopAt, 2 * L - 1)
    requires L == MessageLimit || L == |replies| || StoppedAt(stopAt, 2 * L + 1)
    ensures L == MinNat(MinNat(MessageLimit, |replies|), StopCut(stopAt))
  {
  }

  /** The `sleep` arguments for the first n replies. */
  function LoveDelays(replies: seq<string>, uniform: nat -> Unit, elapsedMs: nat -> int, n: nat): (ds: seq<int>)
    requires n <= |replies|
    ensures |ds| == n
  {
    if n == 0 then []
    else LoveDelays(replies, uniform, elapsedMs, n - 1) + [LoveDelay(replies[n - 1], uniform(n - 1), elapsedMs(n - 1))]
  }

  /** Every `sleep` argument is non-negative, at most 2000 when the clock
      did not run backwards, and belongs to the reply it follows. */
  lemma {:induction false} LoveDelaysAt(replies: seq<string>, uniform: nat -> Unit, elapsedMs: nat -> int, n: nat, k: nat)
    requires n <= |replies| && k < n
    ensures |LoveDelays(replies, uniform, elapsedMs, n)| == n
    ensures LoveDelays(replies, uniform, elapsedMs, n)[k] == LoveDelay(replies[k], uniform(k), elapsedMs(k))
    ensures LoveDelays(replies, uniform, elapsedMs, n)[k] >= 0
    ensures elapsedMs(k) >= 0 ==> LoveDelays(replies, uniform, elapsedMs, n)[k] <= 2000
  {
    if k < n - 1 {
      LoveDelaysAt(replies, uniform, elapsedMs, n - 1, k);
    }
  }

  /** The record of a `simulateLove` run: the shared dialogue record, and
      one `sleep` per accepted reply. */
  ghost predicate LoveRecord(girl: Lover, boy: Lover, startMessage: string, temperature: real,
                             replies: seq<string>, elapsedMs: nat -> int, uniform: nat -> Unit,
                             transcript: seq<LoverMessage>, emitted: seq<Emission>,
                             requests: seq<ChatRequest>, sleeps: seq<int>)
  {
    && Record(girl, boy, startMessage, temperature, replies, transcript, emitted, requests)
    && sleeps == LoveDelays(replies, uniform, elapsedMs, |transcript|)
  }

  /** How a run that pushed n entries and made c completion calls ended early:
      the flag stopped it at check 2n (before call n) or at check 2n + 1
      (after a call that succeeded), or call n was rejected. */
  predicate Halted(stopAt: Option<nat>, replies: seq<string>, n: nat, c: nat, outcome: Outcome) {
    && outcome != Finished
    && (n == 0 || !StoppedAt(stopAt, 2 * n - 1))
    && (outcome == Stopped <==> StoppedAt(stopAt, 2 * n) || (n < |replies| && StoppedAt(stopAt, 2 * n + 1)))
    && (outcome == Failed <==> !StoppedAt(stopAt, 2 * n) && n == |replies|)
    && c == (if StoppedAt(stopAt, 2 * n) then n else n + 1)
  }

  /** A run that halted before the limit pushed as many entries as the oracle
      and the flag allow, failed exactly when the replies ran out before the
      flag was seen, and made one call more than it pushed entries unless the
      flag was seen before that call. */
  lemma HaltedRun(stopAt: Option<nat>, replies: seq<string>, n: nat, c: nat, outcome: Outcome)
    requires n < MessageLimit && n <= |replies| && Halted(stopAt, replies, n, c, outcome)
    ensures n == MinNat(MinNat(MessageLimit, |replies|), StopCut(stopAt))
    ensures outcome == Failed <==> n == |replies| && !StoppedAt(stopAt, 2 * n)
    ensures c == if StoppedAt(stopAt, 2 * n) then n else n + 1
  {
    RunLength(stopAt, replies, n);
  }

  /** How a run that pushed n entries and made c completion calls ended:
      it reached the limit with every check passed, or it halted early. */
  predicate Ended(stopAt: Option<nat>, replies: seq<string>, n: nat, c: nat, outcome: Outcome) {
    || (outcome == Finished && n == MessageLimit && c == n && !StoppedAt(stopAt, 2 * n - 1))
    || (n < MessageLimit && Halted(stopAt, replies, n, c, outcome))
  }

  /** Whichever way a run ended, it pushed as many entries as the limit, the
      oracle and the flag allow; it finished exactly when it reached the
      limit, failed exactly when the replies ran out before the flag was seen,
      and made one call more than it pushed entries only when it stopped
      early after the flag was last passed. */
  lemma RunSummary(stopAt: Option<nat>, replies: seq<string>, n: nat, c: nat, outcome: Outcome)
    requires n <= |replies| && Ended(stopAt, replies, n, c, outcome)
    ensures n == MinNat(MinNat(MessageLimit, |replies|), StopCut(stopAt))
    ensures outcome == Finished <==> n == MessageLimit
    ensures outcome == Failed <==> n < MessageLimit && n == |replies| && !StoppedAt(stopAt, 2 * n)
    ensures c == if outcome == Finished || StoppedAt(stopAt, 2 * n) then n else n + 1
  {
    if outcome == Finished {
      RunLength(stopAt, replies, n);
    } else {
      HaltedRun(stopAt, replies, n, c, outcome);
    }
  }

  /** The steps after an accepted reply: push it (flipping the roles on the
      girl's turn), sleep, and report it through `onMessage`. */
  method Accept(messages: Transcript, girl: Lover, boy: Lover, startMessage: string, temperature: real,
                replies: seq<string>, elapsedMs: nat -> int, uniform: nat -> Unit,
                emitted: seq<Emission>, requests: seq<ChatRequest>, sleeps: seq<int>, response: string)
    returns (emitted': seq<Emission>, sleeps': seq<int>)
    requires |messages.entries| < |replies| && response == replies[|messages.entries|]
    requires LoveRecord(girl, boy, startMessage, temperature, replies, elapsedMs, uniform,
                        messages.entries, emitted, requests, sleeps)
    modifies messages
    ensures |messages.entries| == |old(messages.entries)| + 1
    ensures LoveRecord(girl, boy, startMessage, temperature, replies, elapsedMs, uniform,
                       messages.entries, emitted', requests, sleeps')
  {
    var n := |messages.entries|;
    Speak(messages, girl, boy, replies, response);
    sleeps' := sleeps + [LoveDelay(response, uniform(n), elapsedMs(n))];
    emitted' := emitted + [Emission(response, if n % 2 == 0 then girl.name else boy.name)];
  }

  /** One half of a round of `simulateLove`: with n entries pushed so far,
      the girl speaks when n is even and the boy when n is odd. The stop flag
      is checked before the completion call (check 2n) and after it (check
      2n + 1); the girl's trailing check in the source is the boy's leading
      one here. A rejected call ends the run with the request already made. */
  method Turn(messages: Transcript, girl: Lover, boy: Lover, startMessage: string, temperature: real,
              replies: seq<string>, stopAt: Option<nat>, elapsedMs: nat -> int, uniform: nat -> Unit,
              emitted: seq<Emission>, requests: seq<ChatRequest>, sleeps: seq<int>)
    returns (emitted': seq<Emission>, requests': seq<ChatRequest>, sleeps': seq<int>, outcome: Outcome)
    requires |requests| == |messages.entries|
    requires |messages.entries| == 0 || !StoppedAt(stopAt, 2 * |messages.entries| - 1)
    requires LoveRecord(girl, boy, startMessage, temperature, replies, elapsedMs, uniform,
                        messages.entries, emitted, requests, sleeps)
    modifies messages
    ensures LoveRecord(girl, boy, startMessage, temperature, replies, elapsedMs, uniform,
                       messages.entries, emitted', requests', sleeps')
    ensures var n := |old(messages.entries)|;
            if outcome == Finished
            then |messages.entries| == n + 1 && |requests'| == n + 1 && !StoppedAt(stopAt, 2 * n + 1)
            else |messages.entries| == n && Halted(stopAt, replies, n, |requests'|, outcome)
  {
    var n := |messages.entries|;
    emitted', requests', sleeps' := emitted, requests, sleeps;
    if StoppedAt(stopAt, 2 * n) { return emitted', requests', sleeps', Stopped; }
    var girlsTurn := n % 2 == 0;
    if girlsTurn {
      GirlRequestIsNext(girl, boy, startMessage, replies, n, temperature);
      requests' := requests' + [GirlRequest(girl, startMessage, messages.entries, temperature)];
    } else {
      BoyRequestIsNext(girl, boy, startMessage, replies, n, temperature);
      requests' := requests' + [BoyRequest(boy, messages.entries, temperature)];
    }
    if n >= |replies| { return emitted', requests', sleeps', Failed; }
    var response := replies[n];
    if StoppedAt(stopAt, 2 * n + 1) { return emitted', requests', sleeps', Stopped; }
    emitted', sleeps' := Accept(messages, girl, boy, startMessage, temperature, replies, elapsedMs, uniform,
                                emitted', requests', sleeps', response);
    outcome := Finished;
  }

  /** One round of the `simulateLove` loop: the girl's turn and, unless the
      run ended there, the boy's turn. */
  method Round(messages: Transcript, girl: Lover, boy: Lover, startMessage: string, temperature: real,
               replies: seq<string>, stopAt: Option<nat>, elapsedMs: nat -> int, uniform: nat -> Unit,
               emitted: seq<Emission>, requests: seq<ChatRequest>, sleeps: seq<int>)
    returns (emitted': seq<Emission>, requests': seq<ChatRequest>, sleeps': seq<int>, outcome: Outcome)
    requires |requests| == |messages.entries|
    requires |messages.entries| == 0 || !StoppedAt(stopAt, 2 * |messages.entries| - 1)
    requires LoveRecord(girl, boy, startMessage, temperature, replies, elapsedMs, uniform,
                        messages.entries, emitted, requests, sleeps)
    modifies messages
    ensures LoveRecord(girl, boy, startMessage, temperature, replies, elapsedMs, uniform,
                       messages.entries, emitted', requests', sleeps')
    ensures var n := |old(messages.entries)|;
            if outcome == Finished
            then |messages.entries| == n + 2 && |requests'| == n + 2 && !StoppedAt(stopAt, 2 * n + 3)
            else n <= |messages.entries| <= n + 1 && Halted(stopAt, replies, |messages.entries|, |requests'|, outcome)
  {
    // The girl answers the opening line and the transcript so far.
    emitted', requests', sleeps', outcome :=
      Turn(messages, girl, boy, startMessage, temperature, replies, stopAt, elapsedMs, uniform, emitted, requests, sleeps);
    if outcome == Finished {
      // The boy answers the transcript.
      emitted', requests', sleeps', outcome :=
        Turn(messages, girl, boy, startMessage, temperature, replies, stopAt, elapsedMs, uniform, emitted', requests', sleeps');
    }
  }

  /** `simulateLove`. Returns the final transcript, the `onMessage` calls,
      the completion requests, the `sleep` arguments and how the loop ended. */
  method SimulateLove(girl: Lover, boy: Lover, startMessage: string, temperature: Option<real>,
                      replies: seq<string>, stopAt: Option<nat>,
                      elapsedMs: nat -> int, uniform: nat -> Unit)
    returns (transcript: seq<LoverMessage>, emitted: seq<Emission>, requests: seq<ChatRequest>,
             sleeps: seq<int>, outcome: Outcome)
    ensures LoveRecord(girl, boy, startMessage, if temperature.Some? then temperature.value else DefaultTemperature,
                       replies, elapsedMs, uniform, transcript, emitted, requests, sleeps)
    ensures |transcript| == MinNat(MinNat(MessageLimit, |replies|), StopCut(stopAt))
    ensures outcome == Finished <==> |transcript| == MessageLimit
    ensures outcome == Failed <==>
              |transcript| < MessageLimit && |transcript| == |replies| && !StoppedAt(stopAt, 2 * |transcript|)
    ensures |requests| == if outcome == Finished || StoppedAt(stopAt, 2 * |transcript|) then |transcript|
                          else |transcript| + 1
  {
    var temp := if temperature.Some? then temperature.value else DefaultTemperature;
    var messages := new Transcript();
    emitted := [Emission(startMessage, boy.name)];
    requests, sleeps, outcome := [], [], Finished;

    ghost var rounds := 0;
    while |messages.entries| < MessageLimit
      invariant |messages.entries| == 2 * rounds && 2 * rounds <= MessageLimit
      invariant rounds == 0 || !StoppedAt(stopAt, 4 * rounds - 1)
      invariant |requests| == 2 * rounds
      invariant LoveRecord(girl, boy, startMessage, temp, replies, elapsedMs, uniform, messages.entries, emitted, requests, sleeps)
      invariant outcome == Finished
      decreases MessageLimit - 2 * rounds
    {
      emitted, requests, sleeps, outcome :=
        Round(messages, girl, boy, startMessage, temp, replies, stopAt, elapsedMs, uniform, emitted, requests, sleeps);
      if outcome != Finished { break; }
      rounds := rounds + 1;
    }
    transcript := messages.entries;
    RunSummary(stopAt, replies, |transcript|, |requests|, outcome);
  }
}
