/**
 * The uncancellable dialogue loop of server/src/lover.ts (`putOn`).
 *
 * As for `simulateLove`, the completion service is an oracle: call number c
 * returns `replies[c]` when c < |replies| and rejects otherwise, which ends
 * the run. Every request uses the fixed temperature 0.4. Clock readings and
 * `Math.random()` draws are parameters indexed by the message they belong to.
 */
module LoverLoop {
  import opened Text
  import opened Dialogue

  /** The argument of `sleep` after a reply: the time already spent on the
      completion call plus a draw from [25w, 50w], never negative. */
  function LoverDelay(reply: string, u: Unit, elapsedMs: int): (ms: int)
    ensures ms >= 0
    ensures ms == 0 || 25 * WordCount(reply) <= ms - elapsedMs <= 50 * WordCount(reply)
    ensures elapsedMs >= 0 ==> 25 * WordCount(reply) <= ms - elapsedMs <= 50 * WordCount(reply)
  {
    var w := WordCount(reply);
    MaxInt(0, elapsedMs + RandomInt(w * 25, w * 50, u))
  }

  /** The `sleep` arguments for the first n replies. */
  function LoverDelays(replies: seq<string>, uniform: nat -> Unit, elapsedMs: nat -> int, n: nat): (ds: seq<int>)
    requires n <= |replies|
    ensures |ds| == n
  {
    if n == 0 then []
    else LoverDelays(replies, uniform, elapsedMs, n - 1) + [LoverDelay(replies[n - 1], uniform(n - 1), elapsedMs(n - 1))]
  }

  /** Every `sleep` argument belongs to the reply it follows and is never negative. */
  lemma {:induction false} LoverDelaysAt(replies: seq<string>, uniform: nat -> Unit, elapsedMs: nat -> int, n: nat, k: nat)
    requires n <= |replies| && k < n
    ensures LoverDelays(replies, uniform, elapsedMs, n)[k] == LoverDelay(replies[k], uniform(k), elapsedMs(k))
    ensures LoverDelays(replies, uniform, elapsedMs, n)[k] >= 0
  {
    if k < n - 1 {
      LoverDelaysAt(replies, uniform, elapsedMs, n - 1, k);
    }
  }

  /** The steps after a reply: push it (flipping the roles on the girl's
      turn), sleep, and report it through `onMessage`. */
  method Accept(messages: Transcript, girl: Lover, boy: Lover, startMessage: string,
                replies: seq<string>, elapsedMs: nat -> int, uniform: nat -> Unit,
                emitted: seq<Emission>, requests: seq<ChatRequest>, sleeps: seq<int>, response: string)
    returns (emitted': seq<Emission>, sleeps': seq<int>)
    requires |messages.entries| < |replies| && response == replies[|messages.entries|]
    requires Record(girl, boy, startMessage, DefaultTemperature, replies, messages.entries, emitted, requests)
    requires sleeps == LoverDelays(replies, uniform, elapsedMs, |messages.entries|)
    modifies messages
    ensures |messages.entries| == |old(messages.entries)| + 1
    ensures Record(girl, boy, startMessage, DefaultTemperature, replies, messages.entries, emitted', requests)
    ensures sleeps' == LoverDelays(replies, uniform, elapsedMs, |messages.entries|)
  {
    var n := |messages.entries|;
    Speak(messages, girl, boy, replies, response);
    sleeps' := sleeps + [LoverDelay(response, uniform(n), elapsedMs(n))];
    emitted' := emitted + [Emission(response, if n % 2 == 0 then girl.name else boy.name)];
  }

  /** One half of a round of `putOn`: with n entries pushed so far, the girl
      speaks when n is even and the boy when n is odd. A rejected call ends
      the run with the request already made. */
  method Turn(messages: Transcript, girl: Lover, boy: Lover, startMessage: string,
              replies: seq<string>, elapsedMs: nat -> int, uniform: nat -> Unit,
              emitted: seq<Emission>, requests: seq<ChatRequest>, sleeps: seq<int>)
    returns (emitted': seq<Emission>, requests': seq<ChatRequest>, sleeps': seq<int>, outcome: Outcome)
    requires |requests| == |messages.entries|
    requires Record(girl, boy, startMessage, DefaultTemperature, replies, messages.entries, emitted, requests)
    requires sleeps == LoverDelays(replies, uniform, elapsedMs, |messages.entries|)
    modifies messages
    ensures Record(girl, boy, startMessage, DefaultTemperature, replies, messages.entries, emitted', requests')
    ensures sleeps' == LoverDelays(replies, uniform, elapsedMs, |messages.entries|)
    ensures var n := |old(messages.entries)|;
            && (outcome == Finished || outcome == Failed)
            && (outcome == Failed <==> n == |replies|)
            && |requests'| == n + 1
            && |messages.entries| == (if outcome == Finished then n + 1 else n)
  {
    var n := |messages.entries|;
    var girlsTurn := n % 2 == 0;
    emitted', requests', sleeps' := emitted, requests, sleeps;
    if girlsTurn {
      GirlRequestIsNext(girl, boy, startMessage, replies, n, DefaultTemperature);
      requests' := requests' + [GirlRequest(girl, startMessage, messages.entries, DefaultTemperature)];
    } else {
      BoyRequestIsNext(girl, boy, startMessage, replies, n, DefaultTemperature);
      requests' := requests' + [BoyRequest(boy, messages.entries, DefaultTemperature)];
    }
    if n >= |replies| { return emitted', requests', sleeps', Failed; }
    var response := replies[n];
    emitted', sleeps' := Accept(messages, girl, boy, startMessage, replies, elapsedMs, uniform,
                                emitted', requests', sleeps', response);
    outcome := Finished;
  }

  /** One round of the `putOn` loop: the girl's turn and, unless her call
      was rejected, the boy's turn. */
  method Round(messages: Transcript, girl: Lover, boy: Lover, startMessage: string,
               replies: seq<string>, elapsedMs: nat -> int, uniform: nat -> Unit,
               emitted: seq<Emission>, requests: seq<ChatRequest>, sleeps: seq<int>)
    returns (emitted': seq<Emission>, requests': seq<ChatRequest>, sleeps': seq<int>, outcome: Outcome)
    requires |requests| == |messages.entries|
    requires Record(girl, boy, startMessage, DefaultTemperature, replies, messages.entries, emitted, requests)
    requires sleeps == LoverDelays(replies, uniform, elapsedMs, |messages.entries|)
    modifies messages
    ensures Record(girl, boy, startMessage, DefaultTemperature, replies, messages.entries, emitted', requests')
    ensures sleeps' == LoverDelays(replies, uniform, elapsedMs, |messages.entries|)
    ensures var n := |old(messages.entries)|;
            if outcome == Finished
            then |messages.entries| == n + 2 && |requests'| == n + 2
            else && outcome == Failed && n <= |replies| <= n + 1
                 && |messages.entries| == |replies| && |requests'| == |replies| + 1
  {
    // The girl answers the opening line and the transcript so far.
    emitted', requests', sleeps', outcome :=
      Turn(messages, girl, boy, startMessage, replies, elapsedMs, uniform, emitted, requests, sleeps);
    if outcome == Finished {
      // The boy answers the transcript.
      emitted', requests', sleeps', outcome :=
        Turn(messages, girl, boy, startMessage, replies, elapsedMs, uniform, emitted', requests', sleeps');
    }
  }

  /** A run that pushed n entries with c calls either reached the limit or
      ended on the first rejected call: it pushed as many entries as the limit
      and the oracle allow, finished exactly when the oracle had 300 replies,
      and made one call more than it pushed entries only when it failed. */
  lemma RunSummary(replies: seq<string>, n: nat, c: nat, outcome: Outcome)
    requires n <= |replies|
    requires || (outcome == Finished && n == MessageLimit && c == n)
             || (outcome == Failed && n < MessageLimit && n == |replies| && c == n + 1)
    ensures n == MinNat(MessageLimit, |replies|)
    ensures outcome != Stopped
    ensures outcome == Finished <==> |replies| >= MessageLimit
    ensures c == if outcome == Finished then n else n + 1
  {
  }

  /** `putOn`. Returns the final transcript, the `onMessage` calls, the
      completion requests, the `sleep` arguments and how the loop ended: it
      reaches 300 entries exactly when the oracle has that many replies, and
      otherwise ends on the first rejected call. */
  method PutOn(girl: Lover, boy: Lover, startMessage: string,
               replies: seq<string>, elapsedMs: nat -> int, uniform: nat -> Unit)
    returns (transcript: seq<LoverMessage>, emitted: seq<Emission>, requests: seq<ChatRequest>,
             sleeps: seq<int>, outcome: Outcome)
    ensures Record(girl, boy, startMessage, DefaultTemperature, replies, transcript, emitted, requests)
    ensures sleeps == LoverDelays(replies, uniform, elapsedMs, |transcript|)
    ensures |transcript| == MinNat(MessageLimit, |replies|)
    ensures outcome != Stopped
    ensures outcome == Finished <==> |replies| >= MessageLimit
    ensures |requests| == if outcome == Finished then |transcript| else |transcript| + 1
  {
    var messages := new Transcript();
    emitted := [Emission(startMessage, boy.name)];
    requests, sleeps, outcome := [], [], Finished;

    ghost var rounds := 0;
    while |messages.entries| < MessageLimit
      invariant |messages.entries| == 2 * rounds && 2 * rounds <= MessageLimit
      invariant |requests| == 2 * rounds
      invariant Record(girl, boy, startMessage, DefaultTemperature, replies, messages.entries, emitted, requests)
      invariant sleeps == LoverDelays(replies, uniform, elapsedMs, |messages.entries|)
      invariant outcome == Finished
      decreases MessageLimit - 2 * rounds
    {
      emitted, requests, sleeps, outcome :=
        Round(messages, girl, boy, startMessage, replies, elapsedMs, uniform, emitted, requests, sleeps);
      if outcome != Finished { break; }
      rounds := rounds + 1;
    }
    transcript := messages.entries;
    RunSummary(replies, |transcript|, |requests|, outcome);
  }
}
