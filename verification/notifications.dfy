/**
 * The notification queue of client/src/components/NotificationCenter.tsx:
 * each `notification` packet gets the next id and is appended; two seconds
 * later the entry with that id is filtered out. The timer is not modelled:
 * `Expire` may be called for any id at any time.
 */
module Notifications {

  /** `{id, text}`. */
  datatype Notification = Notification(id: nat, text: string)

  /** Ids strictly increase along the list (so they are also distinct). */
  predicate IdsIncreasing(s: seq<Notification>) {
    forall i, j :: 0 <= i < j < |s| ==> s[i].id < s[j].id
  }

  /** `prev.filter((n) => n.id !== id)`: the entries with another id, in order. */
  function Without(s: seq<Notification>, id: nat): (r: seq<Notification>)
    ensures |r| <= |s|
    ensures forall n :: n in r <==> n in s && n.id != id
  {
    if s == [] then []
    else if s[0].id == id then Without(s[1..], id)
    else [s[0]] + Without(s[1..], id)
  }

  /** Filtering distributes over appending one entry. */
  lemma {:induction false} WithoutAppend(s: seq<Notification>, n: Notification, id: nat)
    ensures Without(s + [n], id) == Without(s, id) + (if n.id == id then [] else [n])
  {
    if s != [] {
      assert (s + [n])[1..] == s[1..] + [n];
      WithoutAppend(s[1..], n, id);
    }
  }

  /** Removing an id that is absent leaves the list unchanged. */
  lemma {:induction false} WithoutAbsent(s: seq<Notification>, id: nat)
    requires forall k :: 0 <= k < |s| ==> s[k].id != id
    ensures Without(s, id) == s
  {
    if s != [] {
      WithoutAbsent(s[1..], id);
    }
  }

  /** The filtered list keeps the survivors' relative order: it is still
      strictly increasing by id. */
  lemma {:induction false} WithoutKeepsOrder(s: seq<Notification>, id: nat)
    requires IdsIncreasing(s)
    ensures IdsIncreasing(Without(s, id))
  {
    if s != [] {
      assert IdsIncreasing(s[1..]);
      WithoutKeepsOrder(s[1..], id);
      var r := Without(s[1..], id);
      if s[0].id != id {
        forall k | 0 <= k < |r| ensures s[0].id < r[k].id {
          assert r[k] in s[1..];
        }
      }
    }
  }

  class NotificationCenter {
    var nextId: nat
    var notifications: seq<Notification>

    /** Every listed id was handed out, in increasing order. */
    ghost predicate Valid()
      reads this
    {
      IdsIncreasing(notifications) && forall k :: 0 <= k < |notifications| ==> notifications[k].id < nextId
    }

    constructor ()
      ensures Valid() && nextId == 0 && notifications == []
    {
      nextId, notifications := 0, [];
    }

    /** The `notification` handler: the entry gets id `nextId`, the counter
        moves on by one, and the entry goes after all existing ones. */
    method OnNotification(text: string) returns (id: nat)
      requires Valid()
      modifies this
      ensures Valid()
      ensures id == old(nextId) && nextId == old(nextId) + 1
      ensures notifications == old(notifications) + [Notification(id, text)]
    {
      id := nextId;
      nextId := nextId + 1;
      notifications := notifications + [Notification(id, text)];
    }

    /** The timer's callback: drop the entries with that id. */
    method Expire(id: nat)
      requires Valid()
      modifies this
      ensures Valid()
      ensures notifications == Without(old(notifications), id) && nextId == old(nextId)
    {
      WithoutKeepsOrder(notifications, id);
      notifications := Without(notifications, id);
    }
  }

  /** Adding a notification with a fresh id and then expiring that id gives
      back the list as it was. */
  lemma AddThenExpire(s: seq<Notification>, nextId: nat, text: string)
    requires forall k :: 0 <= k < |s| ==> s[k].id < nextId
    ensures Without(s + [Notification(nextId, text)], nextId) == s
  {
    WithoutAppend(s, Notification(nextId, text), nextId);
    WithoutAbsent(s, nextId);
  }
}
