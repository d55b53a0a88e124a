/** Transient XP gain events: each XP change queues one event, and its expiry
    later removes that event by id. */
module Gains {

  type GainId = string

  datatype GainEvent = GainEvent(id: GainId, amount: int)

  predicate IdAbsent(gains: seq<GainEvent>, id: GainId)
  {
    forall j :: 0 <= j < |gains| ==> gains[j].id != id
  }

  /** `xpGains.filter((g) => g.id !== id)`. */
  function WithoutGain(gains: seq<GainEvent>, id: GainId): (r: seq<GainEvent>)
    ensures forall g :: g in r <==> g in gains && g.id != id
    ensures |r| <= |gains|
    ensures IdAbsent(gains, id) ==> r == gains
    decreases |gains|
  {
    if gains == [] then []
    else if gains[0].id == id then WithoutGain(gains[1..], id)
    else [gains[0]] + WithoutGain(gains[1..], id)
  }

  /** Removing keeps the other events in their order: filtering whole lists
      distributes over concatenation. */
  lemma {:induction false} WithoutGainAppend(a: seq<GainEvent>, b: seq<GainEvent>, id: GainId)
    ensures WithoutGain(a + b, id) == WithoutGain(a, id) + WithoutGain(b, id)
    decreases |a|
  {
    if a == [] {
      assert a + b == b;
    } else {
      assert (a + b)[0] == a[0];
      assert (a + b)[1..] == a[1..] + b;
      WithoutGainAppend(a[1..], b, id);
      if a[0].id != id {
        assert WithoutGain(a, id) + WithoutGain(b, id)
            == [a[0]] + (WithoutGain(a[1..], id) + WithoutGain(b, id));
      }
    }
  }

  /** An event queued under a fresh id and then expired leaves the queue as it was. */
  lemma ExpireAfterPush(gains: seq<GainEvent>, g: GainEvent)
    requires IdAbsent(gains, g.id)
    ensures WithoutGain(gains + [g], g.id) == gains
  {
    WithoutGainAppend(gains, [g], g.id);
  }

  /** Expiring one event does not touch an event queued after it under another id. */
  lemma ExpireKeepsLater(gains: seq<GainEvent>, g: GainEvent, id: GainId)
    requires g.id != id
    ensures WithoutGain(gains + [g], id) == WithoutGain(gains, id) + [g]
  {
    WithoutGainAppend(gains, [g], id);
  }

  /** Two expiries give the same queue in either order, so overlapping timers
      cannot remove the wrong event. */
  lemma {:induction false} ExpiriesCommute(gains: seq<GainEvent>, a: GainId, b: GainId)
    ensures WithoutGain(WithoutGain(gains, a), b) == WithoutGain(WithoutGain(gains, b), a)
    decreases |gains|
  {
    if gains != [] {
      ExpiriesCommute(gains[1..], a, b);
    }
  }
}
