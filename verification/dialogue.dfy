/**
 * What the two dialogue loops (server/src/love.ts and server/src/lover.ts)
 * share: the persona and message records, the transcript whose roles are
 * flipped in place, the word count, the integer draw from `Math.random()`,
 * and a closed form of the transcript after n replies that both loops are
 * proved to build.
 */
module Dialogue {
  import opened Text

  /** Both loops stop once the transcript holds this many entries. */
  const MessageLimit: nat := 300
  /** The temperature `putOn` always uses and `simulateLove` defaults to. */
  const DefaultTemperature: real := 0.4

  datatype Option<T> = None | Some(value: T)

  /** A persona: `{name, systemPrompt}`. */
  datatype Lover = Lover(name: string, systemPrompt: string)

  datatype Role = User | Assistant

  /** One transcript entry; its role is the only field ever changed. */
  datatype LoverMessage = LoverMessage(content: string, senderName: string, role: Role)

  /** The completion service's message format: `{role, content}`. */
  datatype ChatRole = SystemRole | UserRole | AssistantRole
  datatype ChatMessage = ChatMessage(role: ChatRole, content: string)
  datatype ChatRequest = ChatRequest(messages: seq<ChatMessage>, temperature: real)

  /** One `onMessage(message, senderName)` call. */
  datatype Emission = Emission(message: string, senderName: string)

  /** How a loop ends: at the message limit, on a stop request, or because a
      completion call rejected. */
  datatype Outcome = Finished | Stopped | Failed

  /** A value returned by `Math.random()`. */
  type Unit = u: real | 0.0 <= u < 1.0

  function MinInt(x: int, y: int): int { if x <= y then x else y }
  function MaxInt(x: int, y: int): int { if x >= y then x else y }
  function MinNat(x: nat, y: nat): nat { if x <= y then x else y }

  // ---------------------------------------------------------------- roles

  /** `role === "user" ? "assistant" : "user"`. */
  function Flip(r: Role): Role { if r == User then Assistant else User }

  /** The whole transcript after `flipMessageRoles`: every role swapped,
      content and sender untouched. */
  function FlipAll(s: seq<LoverMessage>): (r: seq<LoverMessage>)
    ensures |r| == |s|
    ensures forall k :: 0 <= k < |s| ==>
              r[k].content == s[k].content && r[k].senderName == s[k].senderName && r[k].role != s[k].role
  {
    if s == [] then [] else [s[0].(role := Flip(s[0].role))] + FlipAll(s[1..])
  }

  /** Flipping twice restores every entry. */
  lemma FlipAllInvolution(s: seq<LoverMessage>)
    ensures FlipAll(FlipAll(s)) == s
  {
    var r := FlipAll(FlipAll(s));
    forall k | 0 <= k < |s| ensures r[k] == s[k] {
      assert r[k].role != FlipAll(s)[k].role && FlipAll(s)[k].role != s[k].role;
    }
  }

  /** Flipping commutes with appending one entry. */
  lemma {:induction false} FlipAllAppend(s: seq<LoverMessage>, m: LoverMessage)
    ensures FlipAll(s + [m]) == FlipAll(s) + [m.(role := Flip(m.role))]
  {
    var r := FlipAll(s + [m]);
    forall k | 0 <= k < |s| + 1 ensures r[k] == (FlipAll(s) + [m.(role := Flip(m.role))])[k] {
      if k < |s| {
        assert (s + [m])[k] == s[k];
      }
    }
  }

  /** The transcript the loops push into, with `flipMessageRoles` as an
      in-place update of every entry. */
  class Transcript {
    var entries: seq<LoverMessage>

    constructor ()
      ensures entries == []
    {
      entries := [];
    }

    /** `messages.push(m)`. */
    method Push(m: LoverMessage)
      modifies this
      ensures entries == old(entries) + [m]
    {
      entries := entries + [m];
    }

    /** `flipMessageRoles(messages)`: one entry per iteration. */
    method FlipRoles()
      modifies this
      ensures entries == FlipAll(old(entries))
    {
      ghost var before := entries;
      for i := 0 to |entries|
        invariant |entries| == |before|
        invariant forall k :: 0 <= k < i ==> entries[k] == before[k].(role := Flip(before[k].role))
        invariant forall k :: i <= k < |entries| ==> entries[k] == before[k]
      {
        entries := entries[i := entries[i].(role := Flip(entries[i].role))];
      }
      FlipAllElementwise(before, entries);
    }
  }

  lemma FlipAllElementwise(s: seq<LoverMessage>, r: seq<LoverMessage>)
    requires |r| == |s| && forall k :: 0 <= k < |s| ==> r[k] == s[k].(role := Flip(s[k].role))
    ensures r == FlipAll(s)
  {
    var f := FlipAll(s);
    forall k | 0 <= k < |s| ensures r[k] == f[k] {
      assert f[k].role != s[k].role;
    }
  }

  // ----------------------------------------------------------- word count

  /** `text.split(" ").length`. */
  function WordCount(text: string): (n: nat)
    ensures n >= 1
  {
    |Split(text, ' ')|
  }

  /** The word count is one more than the number of spaces, so "" counts as one word. */
  lemma WordCountIsSpacesPlusOne(text: string)
    ensures WordCount(text) == 1 + Count(text, ' ')
  {
    SplitCountsSeparators(text, ' ');
  }

  // ---------------------------------------------------------------- random

  /** `Math.floor(Math.random() * (max - min + 1)) + min` for the draw u. */
  function RandomInt(lo: int, hi: int, u: Unit): (r: int)
    ensures lo <= hi ==> lo <= r <= hi
  {
    var width := (hi - lo + 1) as real;
    var x := u * width;
    assert lo <= hi ==> 0.0 <= x < width by {
      if lo <= hi {
        assert width - x == (1.0 - u) * width;
        assert (1.0 - u) * width > 0.0;
        assert 0.0 <= u * width;
      }
    }
    x.Floor + lo
  }

  // -------------------------------------------------- transcript after n turns

  /** Message k comes from the girl when k is even, from the boy when odd. */
  function SenderAt(girl: Lover, boy: Lover, k: nat): string {
    if k % 2 == 0 then girl.name else boy.name
  }

  /** The role of entry k in a transcript of n entries: the newest pair
      (or lone newest entry) is labelled user, and the label alternates
      pair by pair going back. */
  function RoleAt(n: nat, k: nat): Role
    requires k < n
  {
    if ((n - 1) / 2 - k / 2) % 2 == 0 then User else Assistant
  }

  /** The transcript once the first n replies have been pushed (and flipped). */
  function TranscriptAt(girl: Lover, boy: Lover, replies: seq<string>, n: nat): seq<LoverMessage>
    requires n <= |replies|
  {
    seq(n, k requires 0 <= k < n => LoverMessage(replies[k], SenderAt(girl, boy, k), RoleAt(n, k)))
  }

  /** On the girl's turn every existing label flips and her entry ends up user. */
  lemma RolesOnGirlTurn(n: nat, k: nat)
    requires n % 2 == 0 && k < n
    ensures RoleAt(n + 1, k) != RoleAt(n, k)
    ensures RoleAt(n + 1, n) == User
  {
    var t := n / 2;
    assert n == 2 * t && t >= 1;
    assert (n - 1) / 2 == t - 1 && n / 2 == t;
  }

  /** On the boy's turn no existing label changes and his entry is user. */
  lemma RolesOnBoyTurn(n: nat, k: nat)
    requires n % 2 == 1 && k < n
    ensures RoleAt(n + 1, k) == RoleAt(n, k)
    ensures RoleAt(n + 1, n) == User
  {
    var t := n / 2;
    assert n == 2 * t + 1;
    assert (n - 1) / 2 == t && n / 2 == t;
  }

  /** The girl's turn: push her reply as assistant, then flip everything. */
  lemma GirlTurnStep(girl: Lover, boy: Lover, replies: seq<string>, n: nat)
    requires n % 2 == 0 && n < |replies|
    ensures FlipAll(TranscriptAt(girl, boy, replies, n) + [LoverMessage(replies[n], girl.name, Assistant)])
         == TranscriptAt(girl, boy, replies, n + 1)
  {
    var t := TranscriptAt(girl, boy, replies, n);
    var m := LoverMessage(replies[n], girl.name, Assistant);
    FlipAllAppend(t, m);
    var f := FlipAll(t) + [m.(role := Flip(m.role))];
    var u := TranscriptAt(girl, boy, replies, n + 1);
    forall k | 0 <= k < n + 1 ensures f[k] == u[k] {
      if k < n {
        assert f[k].role != t[k].role;
        RolesOnGirlTurn(n, k);
      } else {
        assert n == 0 || RoleAt(n + 1, n) == User by {
          if n > 0 { RolesOnGirlTurn(n, 0); }
        }
      }
    }
  }

  /** The boy's turn: push his reply as user, without flipping. */
  lemma BoyTurnStep(girl: Lover, boy: Lover, replies: seq<string>, n: nat)
    requires n % 2 == 1 && n < |replies|
    ensures TranscriptAt(girl, boy, replies, n) + [LoverMessage(replies[n], boy.name, User)]
         == TranscriptAt(girl, boy, replies, n + 1)
  {
    var t := TranscriptAt(girl, boy, replies, n) + [LoverMessage(replies[n], boy.name, User)];
    var u := TranscriptAt(girl, boy, replies, n + 1);
    forall k | 0 <= k < n + 1 ensures t[k] == u[k] {
      RolesOnBoyTurn(n, if k < n then k else 0);
    }
  }

  /** Pushing reply n the way the loops do: the girl's reply (n even) as
      assistant followed by a flip of every role, the boy's (n odd) as user. */
  method Speak(messages: Transcript, girl: Lover, boy: Lover, replies: seq<string>, response: string)
    requires |messages.entries| < |replies| && response == replies[|messages.entries|]
    requires messages.entries == TranscriptAt(girl, boy, replies, |messages.entries|)
    modifies messages
    ensures messages.entries == TranscriptAt(girl, boy, replies, |old(messages.entries)| + 1)
  {
    var n := |messages.entries|;
    if n % 2 == 0 {
      GirlTurnStep(girl, boy, replies, n);
      messages.Push(LoverMessage(response, girl.name, Assistant));
      messages.FlipRoles();
    } else {
      BoyTurnStep(girl, boy, replies, n);
      messages.Push(LoverMessage(response, boy.name, User));
    }
  }

  /** Each flip swaps every label, so two entries two apart always carry
      opposite roles, while the two entries of one pair carry the same. */
  lemma RolesAlternateByPair(n: nat, k: nat)
    requires k + 1 < n
    ensures k + 2 < n ==> RoleAt(n, k) != RoleAt(n, k + 2)
    ensures k % 2 == 0 ==> RoleAt(n, k) == RoleAt(n, k + 1)
  {
  }

  // ------------------------------------------------------------- requests

  function AsChat(m: LoverMessage): ChatMessage {
    ChatMessage(if m.role == User then UserRole else AssistantRole, m.content)
  }

  /** `...messages as Message[]`. */
  function ToChat(t: seq<LoverMessage>): seq<ChatMessage> {
    seq(|t|, k requires 0 <= k < |t| => AsChat(t[k]))
  }

  /** The girl's request: her system prompt, the opening line as user, then the transcript. */
  function GirlRequest(girl: Lover, startMessage: string, t: seq<LoverMessage>, temperature: real): ChatRequest {
    ChatRequest([ChatMessage(SystemRole, girl.systemPrompt), ChatMessage(UserRole, startMessage)] + ToChat(t), temperature)
  }

  /** The boy's request: his system prompt, then the transcript. */
  function BoyRequest(boy: Lover, t: seq<LoverMessage>, temperature: real): ChatRequest {
    ChatRequest([ChatMessage(SystemRole, boy.systemPrompt)] + ToChat(t), temperature)
  }

  /** The request of completion call number c (which asks for reply c). */
  function RequestAt(girl: Lover, boy: Lover, startMessage: string, replies: seq<string>, c: nat, temperature: real): ChatRequest
    requires c <= |replies|
  {
    var t := TranscriptAt(girl, boy, replies, c);
    if c % 2 == 0 then GirlRequest(girl, startMessage, t, temperature) else BoyRequest(boy, t, temperature)
  }

  /** Request c carries every earlier reply, in order, after its fixed prefix. */
  lemma RequestCarriesReplies(girl: Lover, boy: Lover, startMessage: string, replies: seq<string>, c: nat, temperature: real)
    requires c <= |replies|
    ensures var r := RequestAt(girl, boy, startMessage, replies, c, temperature);
            var offset := if c % 2 == 0 then 2 else 1;
            && |r.messages| == c + offset
            && r.messages[0] == ChatMessage(SystemRole, if c % 2 == 0 then girl.systemPrompt else boy.systemPrompt)
            && (c % 2 == 0 ==> r.messages[1] == ChatMessage(UserRole, startMessage))
            && (forall k :: 0 <= k < c ==> r.messages[k + offset] == AsChat(TranscriptAt(girl, boy, replies, c)[k]))
            && (forall k :: 0 <= k < c ==> r.messages[k + offset].content == replies[k])
            && r.temperature == temperature
  {
  }

  /** The first c completion requests, in the order they are made. */
  function RequestsUpTo(girl: Lover, boy: Lover, startMessage: string, replies: seq<string>, c: nat, temperature: real): (rs: seq<ChatRequest>)
    requires c <= |replies| + 1
    ensures |rs| == c
  {
    if c == 0 then []
    else RequestsUpTo(girl, boy, startMessage, replies, c - 1, temperature) + [RequestAt(girl, boy, startMessage, replies, c - 1, temperature)]
  }

  /** The girl's request on an even-length transcript is the next in the sequence. */
  lemma GirlRequestIsNext(girl: Lover, boy: Lover, startMessage: string, replies: seq<string>, n: nat, temperature: real)
    requires n % 2 == 0 && n <= |replies|
    ensures RequestsUpTo(girl, boy, startMessage, replies, n, temperature)
              + [GirlRequest(girl, startMessage, TranscriptAt(girl, boy, replies, n), temperature)]
         == RequestsUpTo(girl, boy, startMessage, replies, n + 1, temperature)
  {
  }

  /** The boy's request on an odd-length transcript is the next in the sequence. */
  lemma BoyRequestIsNext(girl: Lover, boy: Lover, startMessage: string, replies: seq<string>, n: nat, temperature: real)
    requires n % 2 == 1 && n <= |replies|
    ensures RequestsUpTo(girl, boy, startMessage, replies, n, temperature)
              + [BoyRequest(boy, TranscriptAt(girl, boy, replies, n), temperature)]
         == RequestsUpTo(girl, boy, startMessage, replies, n + 1, temperature)
  {
  }

  /** Request number i of the sequence is the one `RequestAt` describes. */
  lemma {:induction false} RequestsUpToAt(girl: Lover, boy: Lover, startMessage: string, replies: seq<string>, c: nat, temperature: real, i: nat)
    requires c <= |replies| + 1 && i < c
    ensures |RequestsUpTo(girl, boy, startMessage, replies, c, temperature)| == c
    ensures RequestsUpTo(girl, boy, startMessage, replies, c, temperature)[i] == RequestAt(girl, boy, startMessage, replies, i, temperature)
  {
    if i < c - 1 {
      RequestsUpToAt(girl, boy, startMessage, replies, c - 1, temperature, i);
    }
  }

  /** The `onMessage` calls reporting the first n replies, each with its sender. */
  function Emissions(girl: Lover, boy: Lover, replies: seq<string>, n: nat): (es: seq<Emission>)
    requires n <= |replies|
    ensures |es| == n
  {
    if n == 0 then [] else Emissions(girl, boy, replies, n - 1) + [Emission(replies[n - 1], SenderAt(girl, boy, n - 1))]
  }

  /** Emission k reports reply k, from the girl for even k and the boy for odd k. */
  lemma {:induction false} EmissionsAt(girl: Lover, boy: Lover, replies: seq<string>, n: nat, k: nat)
    requires n <= |replies| && k < n
    ensures |Emissions(girl, boy, replies, n)| == n
    ensures Emissions(girl, boy, replies, n)[k] == Emission(replies[k], if k % 2 == 0 then girl.name else boy.name)
  {
    if k < n - 1 {
      EmissionsAt(girl, boy, replies, n - 1, k);
    }
  }

  // ---------------------------------------------------------------- record

  /** What a dialogue run leaves behind agrees with the oracle: the transcript
      holds the first |transcript| replies with their senders and roles,
      `onMessage` reported the opening line and then every accepted reply,
      and the requests are the first |requests| completion calls. */
  ghost predicate Record(girl: Lover, boy: Lover, startMessage: string, temperature: real, replies: seq<string>,
                         transcript: seq<LoverMessage>, emitted: seq<Emission>, requests: seq<ChatRequest>)
  {
    && |transcript| <= |replies| && |requests| <= |replies| + 1
    && transcript == TranscriptAt(girl, boy, replies, |transcript|)
    && emitted == [Emission(startMessage, boy.name)] + Emissions(girl, boy, replies, |transcript|)
    && requests == RequestsUpTo(girl, boy, startMessage, replies, |requests|, temperature)
  }

  /** The opening line is reported first; after it, report k is reply k - 1,
      the entry pushed just before it, from the girl for odd k and the boy for
      even k, so there is always one report more than entries. */
  lemma RecordEmissionOrder(girl: Lover, boy: Lover, startMessage: string, temperature: real, replies: seq<string>,
                            transcript: seq<LoverMessage>, emitted: seq<Emission>, requests: seq<ChatRequest>)
    requires Record(girl, boy, startMessage, temperature, replies, transcript, emitted, requests)
    ensures |emitted| == |transcript| + 1
    ensures emitted[0] == Emission(startMessage, boy.name)
    ensures forall k :: 1 <= k < |emitted| ==>
              emitted[k] == Emission(transcript[k - 1].content, transcript[k - 1].senderName)
    ensures forall k :: 1 <= k < |emitted| ==>
              emitted[k].senderName == if k % 2 == 1 then girl.name else boy.name
  {
    forall k | 1 <= k < |emitted|
      ensures emitted[k] == Emission(transcript[k - 1].content, transcript[k - 1].senderName)
    {
      EmissionsAt(girl, boy, replies, |transcript|, k - 1);
    }
  }
}
