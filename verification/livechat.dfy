/**
 * The audience chat panel of client/src/components/LiveChat.tsx: the
 * `onSubmit` gate (non-blank input, at most one send per second) and the
 * `chat-broadcast` handler that appends incoming entries.
 *
 * The clock is a parameter: each event carries the time it reads. The
 * `chat-in` packets the panel sends are kept in `outgoing`.
 */
module LiveChat {
  import opened Text

  /** Minimum spacing of two accepted submits, in milliseconds. */
  const SendIntervalMs: int := 1000

  /** `{username, message, timestamp}`. */
  datatype ChatEntry = ChatEntry(username: string, message: string, timestamp: int)

  /** Consecutive times are at least `SendIntervalMs` apart. */
  ghost predicate Spaced(ts: seq<int>) {
    forall i :: 0 <= i < |ts| - 1 ==> ts[i + 1] - ts[i] >= SendIntervalMs
  }

  /** In a spaced sequence, times j - i places apart differ by at least
      (j - i) intervals. */
  lemma {:induction false} SpacedApart(ts: seq<int>, i: nat, j: nat)
    requires Spaced(ts) && i <= j < |ts|
    ensures ts[j] - ts[i] >= SendIntervalMs * (j - i)
    decreases j - i
  {
    if i < j {
      SpacedApart(ts, i, j - 1);
    }
  }

  /** Appending a time at least one interval after the last keeps a sequence spaced. */
  lemma SpacedAppend(ts: seq<int>, t: int)
    requires Spaced(ts) && ts != [] && t - ts[|ts| - 1] >= SendIntervalMs
    ensures Spaced(ts + [t])
  {
    var us := ts + [t];
    forall i | 0 <= i < |us| - 1 ensures us[i + 1] - us[i] >= SendIntervalMs {
      if i < |ts| - 1 {
        assert us[i] == ts[i] && us[i + 1] == ts[i + 1];
      }
    }
  }

  class LiveChat {
    var messages: seq<ChatEntry>
    var input: string
    var lastSendTimeMs: int
    /** The `message` of every `chat-in` packet sent, in order. */
    var outgoing: seq<string>
    ghost var mountTimeMs: int
    /** When each accepted submit happened. */
    ghost var sendTimes: seq<int>

    /** `lastSendTimeMs` is the mount time or the time of the last accepted
        submit, and the mount time and the accepted submits are spaced. */
    ghost predicate Valid()
      reads this
    {
      && |sendTimes| == |outgoing|
      && Spaced([mountTimeMs] + sendTimes)
      && lastSendTimeMs == ([mountTimeMs] + sendTimes)[|sendTimes|]
    }

    /** Mounting: no messages, empty input, and `lastSendTimeMs` is the mount time. */
    constructor (nowMs: int)
      ensures Valid()
      ensures messages == [] && input == [] && outgoing == []
      ensures lastSendTimeMs == nowMs && mountTimeMs == nowMs && sendTimes == []
    {
      messages, input, lastSendTimeMs, outgoing := [], [], nowMs, [];
      mountTimeMs, sendTimes := nowMs, [];
    }

    /** Typing into the input box. */
    method SetInput(text: string)
      modifies this
      ensures input == text
      ensures messages == old(messages) && lastSendTimeMs == old(lastSendTimeMs) && outgoing == old(outgoing)
      ensures mountTimeMs == old(mountTimeMs) && sendTimes == old(sendTimes)
    {
      input := text;
    }

    /** `onSubmit`: blank input, or a submit less than a second after the last
        accepted one (or the mount), changes nothing; otherwise the trimmed
        input is sent, the time recorded and the input cleared. */
    method Submit(nowMs: int) returns (accepted: bool)
      requires Valid()
      modifies this
      ensures Valid()
      ensures accepted <==> Trim(old(input)) != [] && nowMs - old(lastSendTimeMs) >= SendIntervalMs
      ensures accepted ==> && lastSendTimeMs == nowMs && input == []
                           && outgoing == old(outgoing) + [Trim(old(input))]
                           && sendTimes == old(sendTimes) + [nowMs]
                           && nowMs - mountTimeMs >= SendIntervalMs * |sendTimes|
      ensures !accepted ==> && lastSendTimeMs == old(lastSendTimeMs) && input == old(input)
                            && outgoing == old(outgoing) && sendTimes == old(sendTimes)
      ensures messages == old(messages) && mountTimeMs == old(mountTimeMs)
    {
      var text := Trim(input);
      if text == [] || nowMs - lastSendTimeMs < SendIntervalMs {
        return false;
      }
      ghost var times := [mountTimeMs] + sendTimes;
      SpacedAppend(times, nowMs);
      assert [mountTimeMs] + (sendTimes + [nowMs]) == times + [nowMs];
      SpacedApart(times + [nowMs], 0, |times|);
      lastSendTimeMs := nowMs;
      outgoing := outgoing + [text];
      sendTimes := sendTimes + [nowMs];
      input := [];
      accepted := true;
    }

    /** The `chat-broadcast` handler: the received entries go after the
        existing ones, in the order received. */
    method OnChatBroadcast(data: seq<ChatEntry>)
      modifies this
      ensures messages == old(messages) + data
      ensures input == old(input) && lastSendTimeMs == old(lastSendTimeMs) && outgoing == old(outgoing)
      ensures mountTimeMs == old(mountTimeMs) && sendTimes == old(sendTimes)
    {
      messages := messages + data;
    }
  }

  /** Any two accepted submits of a valid panel are at least a second apart
      per submit between them, and even the first comes a second after the mount. */
  lemma SendsSpaced(mountTimeMs: int, sendTimes: seq<int>, i: nat, j: nat)
    requires Spaced([mountTimeMs] + sendTimes) && i < j < |sendTimes|
    ensures sendTimes[j] - sendTimes[i] >= SendIntervalMs * (j - i)
    ensures sendTimes[i] - mountTimeMs >= SendIntervalMs * (i + 1)
  {
    var ts := [mountTimeMs] + sendTimes;
    SpacedApart(ts, i + 1, j + 1);
    SpacedApart(ts, 0, i + 1);
  }
}
