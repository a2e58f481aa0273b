/**
 * The WebSocket side of server/src/index.ts: the bounded message history,
 * the set of connected clients, the `init` packet sent on connection, the
 * `broadcast` fan-out, and the `onMessage` callback handed to `putOn`.
 *
 * Connections are identified by numbers. What each connection was sent is
 * kept in `outbox` as packet values (their JSON text is not modelled), and
 * which connections are OPEN when a broadcast runs is a parameter.
 */
module Server {

  /** `{ content, senderName }`, as stored in the history. */
  datatype HistoryEntry = HistoryEntry(content: string, senderName: string)

  /** The packets a client receives: `{type: 'init', girl, boy, history}`
      and `{type: 'message', content, senderName}`. */
  datatype Packet =
    | Init(girl: string, boy: string, history: seq<HistoryEntry>)
    | Message(content: string, senderName: string)

  type ConnId = nat

  const MaxHistory: nat := 10
  const GirlName: string := "Vivian"
  const BoyName: string := "Kevin"

  /** The last k elements of s (all of s when it is shorter). */
  function Recent<T>(s: seq<T>, k: nat): (r: seq<T>)
    ensures |r| == if |s| <= k then |s| else k
    ensures r == s[|s| - |r|..]
  {
    if |s| <= k then s else s[|s| - k..]
  }

  /** Pushing an entry and then shifting once when the buffer overflows keeps
      exactly the last k entries of everything ever pushed. */
  lemma RecentAppend<T>(s: seq<T>, e: T, k: nat)
    requires k >= 1
    ensures var pushed := Recent(s, k) + [e];
            Recent(s + [e], k) == if |pushed| > k then pushed[1..] else pushed
  {
    var pushed := Recent(s, k) + [e];
    var r := Recent(s + [e], k);
    if |pushed| > k {
      assert |s| >= k;
      forall i | 0 <= i < |r| ensures r[i] == pushed[1..][i] {
        if i < |r| - 1 {
          assert r[i] == s[|s| - k + 1 + i];
        }
      }
    } else {
      assert |s| < k;
      assert r == s + [e];
    }
  }

  /** Everything connection c has been sent so far. */
  function SentTo(outbox: map<ConnId, seq<Packet>>, c: ConnId): seq<Packet> {
    if c in outbox then outbox[c] else []
  }

  class Server {
    var history: seq<HistoryEntry>
    var clients: set<ConnId>
    var outbox: map<ConnId, seq<Packet>>
    /** Every entry ever passed to the `onMessage` callback, in order. */
    ghost var appended: seq<HistoryEntry>

    /** The history buffer holds the last `MaxHistory` entries appended. */
    ghost predicate Valid()
      reads this
    {
      history == Recent(appended, MaxHistory)
    }

    constructor ()
      ensures Valid()
      ensures history == [] && clients == {} && outbox == map[] && appended == []
    {
      history, clients, outbox := [], {}, map[];
      appended := [];
      new;
      assert Recent(appended, MaxHistory) == [];
    }

    /** The `connection` handler: the connection joins `clients` and is sent
        the persona names and a snapshot of the current history. */
    method Connect(c: ConnId)
      modifies this
      ensures clients == old(clients) + {c}
      ensures outbox == old(outbox)[c := SentTo(old(outbox), c) + [Init(GirlName, BoyName, old(history))]]
      ensures history == old(history) && appended == old(appended)
    {
      clients := clients + {c};
      outbox := outbox[c := SentTo(outbox, c) + [Init(GirlName, BoyName, history)]];
    }

    /** The `close` handler: only that connection leaves `clients`. */
    method Close(c: ConnId)
      modifies this
      ensures clients == old(clients) - {c}
      ensures outbox == old(outbox) && history == old(history) && appended == old(appended)
    {
      clients := clients - {c};
    }

    /** `broadcast`: one message packet to every client that is OPEN, none
        to any other connection. */
    method Broadcast(e: HistoryEntry, open: set<ConnId>)
      modifies this
      ensures forall c :: SentTo(outbox, c) == if c in old(clients) && c in open
                                                then SentTo(old(outbox), c) + [Message(e.content, e.senderName)]
                                                else SentTo(old(outbox), c)
      ensures clients == old(clients) && history == old(history) && appended == old(appended)
    {
      var packet := Message(e.content, e.senderName);
      var remaining := clients;
      while remaining != {}
        invariant remaining <= clients
        invariant clients == old(clients) && history == old(history) && appended == old(appended)
        invariant forall c :: SentTo(outbox, c) == if c in clients && c !in remaining && c in open
                                                   then SentTo(old(outbox), c) + [packet]
                                                   else SentTo(old(outbox), c)
        decreases remaining
      {
        var client :| client in remaining;
        if client in open {
          outbox := outbox[client := SentTo(outbox, client) + [packet]];
        }
        remaining := remaining - {client};
      }
    }

    /** The callback `putOn` reports each message to: store it, drop the
        oldest entry when the buffer overflows, then broadcast it. */
    method OnMessage(message: string, senderName: string, open: set<ConnId>)
      requires Valid()
      modifies this
      ensures Valid()
      ensures appended == old(appended) + [HistoryEntry(message, senderName)]
      ensures var pushed := old(history) + [HistoryEntry(message, senderName)];
              history == if |pushed| > MaxHistory then pushed[1..] else pushed
      ensures forall c :: SentTo(outbox, c) == if c in old(clients) && c in open
                                                then SentTo(old(outbox), c) + [Message(message, senderName)]
                                                else SentTo(old(outbox), c)
      ensures clients == old(clients)
    {
      var entry := HistoryEntry(message, senderName);
      RecentAppend(appended, entry, MaxHistory);
      history := history + [entry];
      if |history| > MaxHistory {
        history := history[1..];
      }
      appended := appended + [entry];
      Broadcast(entry, open);
    }
  }

  /** After any run of the callback the buffer holds at most ten entries:
      the newest ones, the last appended one last, in the order they arrived. */
  lemma HistoryBounded(appended: seq<HistoryEntry>, history: seq<HistoryEntry>)
    requires history == Recent(appended, MaxHistory)
    ensures |history| <= MaxHistory
    ensures |history| == MaxHistory || history == appended
    ensures appended != [] ==> history != [] && history[|history| - 1] == appended[|appended| - 1]
    ensures forall i :: 0 <= i < |history| ==> history[i] == appended[|appended| - |history| + i]
  {
  }
}
