/**
 The bounded memory of connections whose close has been accounted for: a map for
 lookups and a ring of slots that decides what is forgotten. The specification is
 the queue of the ids still remembered, oldest first.
 */
module ClosedIdRing {

  predicate Distinct(s: seq<string>) {
    forall i, j :: 0 <= i < j < |s| ==> s[i] != s[j]
  }

  /** Remembering one more id: a known id changes nothing, a full queue forgets its oldest. */
  function Remember(q: seq<string>, id: string, limit: nat): seq<string>
    requires limit > 0
  {
    if id in q then q
    else if |q| < limit then q + [id]
    else q[1..] + [id]
  }

  function RememberAll(ids: seq<string>, limit: nat): seq<string>
    requires limit > 0
  {
    if ids == [] then []
    else Remember(RememberAll(ids[..|ids| - 1], limit), ids[|ids| - 1], limit)
  }

  // ----- What the queue holds -----

  function LastOf(s: seq<string>, limit: nat): seq<string> {
    if |s| <= limit then s else s[|s| - limit..]
  }

  /** The adds that took effect: those of an id not among the last `limit` such adds. */
  function EffectiveAdds(ids: seq<string>, limit: nat): seq<string> {
    if ids == [] then []
    else
      var before := EffectiveAdds(ids[..|ids| - 1], limit);
      var id := ids[|ids| - 1];
      if id in LastOf(before, limit) then before else before + [id]
  }

  lemma LastOfExtended(log: seq<string>, id: string, limit: nat)
    requires limit > 0 && id !in LastOf(log, limit)
    ensures LastOf(log + [id], limit) == Remember(LastOf(log, limit), id, limit)
  {
  }

  lemma RememberKeepsDistinct(q: seq<string>, id: string, limit: nat)
    requires limit > 0 && Distinct(q) && |q| <= limit
    ensures Distinct(Remember(q, id, limit)) && |Remember(q, id, limit)| <= limit
    ensures id in Remember(q, id, limit)
  {
    if id !in q {
      var r := Remember(q, id, limit);
      assert r[|r| - 1] == id;
    }
  }

  /** The queue is the last `limit` effective adds, without repetition. */
  lemma {:induction false} QueueIsLastEffectiveAdds(ids: seq<string>, limit: nat)
    requires limit > 0
    ensures RememberAll(ids, limit) == LastOf(EffectiveAdds(ids, limit), limit)
    ensures Distinct(RememberAll(ids, limit)) && |RememberAll(ids, limit)| <= limit
  {
    if ids != [] {
      var init, id := ids[..|ids| - 1], ids[|ids| - 1];
      QueueIsLastEffectiveAdds(init, limit);
      RememberKeepsDistinct(RememberAll(init, limit), id, limit);
      if id !in RememberAll(init, limit) {
        LastOfExtended(EffectiveAdds(init, limit), id, limit);
      }
    }
  }

  lemma {:induction false} EffectiveAddsGrow(ids: seq<string>, more: seq<string>, limit: nat)
    ensures EffectiveAdds(ids, limit) <= EffectiveAdds(ids + more, limit)
    ensures |EffectiveAdds(ids + more, limit)| <= |EffectiveAdds(ids, limit)| + |more|
  {
    if more == [] {
      assert ids + more == ids;
    } else {
      EffectiveAddsGrow(ids, more[..|more| - 1], limit);
      assert (ids + more)[..|ids + more| - 1] == ids + more[..|more| - 1];
    }
  }

  /** An id just added survives any `limit - 1` further adds, of whatever ids. */
  lemma RememberedFor(ids: seq<string>, id: string, more: seq<string>, limit: nat)
    requires limit > 0 && |more| < limit && id !in RememberAll(ids, limit)
    ensures id in RememberAll(ids + [id] + more, limit)
  {
    var log := EffectiveAdds(ids + [id], limit);
    var longer := EffectiveAdds(ids + [id] + more, limit);
    assert (ids + [id])[..|ids|] == ids;
    QueueIsLastEffectiveAdds(ids, limit);
    assert log[|log| - 1] == id;
    EffectiveAddsGrow(ids + [id], more, limit);
    QueueIsLastEffectiveAdds(ids + [id] + more, limit);
    assert longer[|log| - 1] == id;
    var start := if |longer| <= limit then 0 else |longer| - limit;
    assert LastOf(longer, limit)[|log| - 1 - start] == id;
  }

  // ----- The ring -----

  /** The slots in use, oldest first; a slot holds "" until it is used. */
  function Window(slots: seq<string>, next: nat): seq<string>
    requires next < |slots|
  {
    if slots[next] == "" then slots[..next] else slots[next..] + slots[..next]
  }

  predicate FilledInOrder(slots: seq<string>, next: nat)
    requires next < |slots|
  {
    && (forall i :: 0 <= i < next ==> slots[i] != "")
    && (forall i :: next <= i < |slots| ==> (slots[i] == "" <==> slots[next] == ""))
  }

  function Following(next: nat, length: nat): nat {
    if next + 1 < length then next + 1 else 0
  }

  lemma SlotsAfterAdd(slots: seq<string>, next: nat, id: string)
    requires next < |slots| && FilledInOrder(slots, next) && id != ""
    ensures FilledInOrder(slots[next := id], Following(next, |slots|))
  {
  }

  lemma WindowAfterAdd(slots: seq<string>, next: nat, id: string)
    requires next < |slots| && FilledInOrder(slots, next) && id != "" && id !in Window(slots, next)
    ensures Window(slots[next := id], Following(next, |slots|)) == Remember(Window(slots, next), id, |slots|)
  {
    var after := slots[next := id];
    assert after[..next] == slots[..next] && after[next + 1..] == slots[next + 1..];
    if next + 1 == |slots| {
      assert after == slots[..next] + [id];
      assert slots[next] != "" ==> Window(slots, next)[1..] == slots[..next];
    } else {
      assert after[..next + 1] == slots[..next] + [id];
      if slots[next] != "" {
        assert Window(slots, next)[1..] == slots[next + 1..] + slots[..next];
      }
    }
  }

  class Ring {
    var ids: set<string>
    const order: array<string>
    var next: nat

    ghost predicate Valid()
      reads this, order
    {
      && next < order.Length
      && FilledInOrder(order[..], next)
      && Distinct(Queue())
      && ids == (set id | id in Queue())
    }

    ghost function Queue(): (q: seq<string>)
      reads this, order
      requires next < order.Length
    {
      Window(order[..], next)
    }

    constructor (limit: nat)
      requires limit > 0
      ensures Valid() && fresh(order) && order.Length == limit && Queue() == []
    {
      ids, next := {}, 0;
      order := new string[limit](_ => "");
    }

    predicate Contains(id: string)
      reads this, order
      requires Valid()
      ensures Contains(id) <==> id in Queue()
    {
      id in ids
    }

    method Add(id: string)
      requires Valid() && id != ""
      modifies this, order
      ensures Valid() && Queue() == Remember(old(Queue()), id, order.Length)
    {
      if id in ids {
        return;
      }
      ghost var slots, queue, before := order[..], Queue(), next;
      var evicted := order[next];
      if evicted != "" {
        ids := ids - {evicted};
      }
      order[next] := id;
      next := (next + 1) % order.Length;
      ids := ids + {id};
      assert order[..] == slots[before := id];
      NextSlot(before, order.Length);
      SlotsAfterAdd(slots, before, id);
      WindowAfterAdd(slots, before, id);
      RememberKeepsDistinct(queue, id, order.Length);
      RememberedIds(slots, before, id);
    }
  }

  lemma NextSlot(next: nat, length: nat)
    requires next < length
    ensures (next + 1) % length == Following(next, length)
  {
  }

  /** Dropping what the reused slot held drops exactly the queue's head. */
  lemma RememberedIds(slots: seq<string>, next: nat, id: string)
    requires next < |slots| && FilledInOrder(slots, next)
    requires Distinct(Window(slots, next)) && id !in Window(slots, next)
    ensures var q := Window(slots, next);
      var kept := (set x | x in q) - (if slots[next] == "" then {} else {slots[next]});
      (set x | x in Remember(q, id, |slots|)) == kept + {id}
  {
    var q := Window(slots, next);
    var r := Remember(q, id, |slots|);
    assert r[|r| - 1] == id;
    if slots[next] != "" {
      assert q[0] == slots[next];
      assert forall x <- q[1..] :: x in q && x != q[0];
      assert forall x <- q :: x != q[0] ==> x in q[1..];
    } else {
      assert "" !in q;
    }
  }
}
