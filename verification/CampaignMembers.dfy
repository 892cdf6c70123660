/**
 How a campaign is planned: the canary is picked and moved to the front, the other
 nodes are cut into batches, and the store checks the result before writing it.
 */
module CampaignMembers {
  import opened Common
  import opened CampaignRules

  /** An eligible node, with what decides whether it may be the canary. */
  datatype Eligible = Eligible(node: string, kind: string, online: bool, active: bool)

  datatype Planned = Planned(node: string, kind: string, position: int, batch: int)

  function BatchOf(i: nat, batchSize: nat): nat
    requires batchSize > 0
  {
    if i == 0 then 0 else 1 + (i - 1) / batchSize
  }

  predicate NoOnline(eligible: seq<Eligible>) {
    forall e <- eligible :: !e.online
  }

  /** Prefers a node that is online and active; without one, a node that is online. */
  method PickCanary(eligible: seq<Eligible>) returns (canary: int)
    ensures canary < 0 <==> NoOnline(eligible)
    ensures canary >= 0 ==> canary < |eligible| && eligible[canary].online
    ensures canary >= 0 && !eligible[canary].active ==> forall e <- eligible :: !(e.online && e.active)
  {
    canary := -1;
    var i := 0;
    while i < |eligible| && canary < 0
      invariant 0 <= i <= |eligible| && canary < |eligible|
      invariant if canary < 0 then forall j :: 0 <= j < i ==> !(eligible[j].online && eligible[j].active)
        else eligible[canary].online && eligible[canary].active
    {
      if eligible[i].online && eligible[i].active {
        canary := i;
      }
      i := i + 1;
    }
    if canary >= 0 {
      return;
    }
    i := 0;
    while i < |eligible| && canary < 0
      invariant 0 <= i <= |eligible| && canary < |eligible|
      invariant if canary < 0 then forall j :: 0 <= j < i ==> !eligible[j].online else eligible[canary].online
    {
      if eligible[i].online {
        canary := i;
      }
      i := i + 1;
    }
  }

  function Swapped(s: seq<Eligible>, i: nat): seq<Eligible>
    requires i < |s|
  {
    s[0 := s[i]][i := s[0]]
  }

  /** The plan covers the eligible nodes, each once, with an online canary in front. */
  predicate Plans(eligible: seq<Eligible>, batchSize: nat, members: seq<Planned>)
    requires batchSize > 0
  {
    && |members| == |eligible|
    && (exists canary :: 0 <= canary < |eligible| && eligible[canary].online
          && (eligible[canary].active || forall e <- eligible :: !(e.online && e.active))
          && forall i :: 0 <= i < |members| ==>
               members[i] == Planned(Swapped(eligible, canary)[i].node, Swapped(eligible, canary)[i].kind, i, BatchOf(i, batchSize)))
  }

  /** An online node changed places with the first one. */
  predicate CanaryInFront(eligible: seq<Eligible>, canary: nat, members: seq<Planned>) {
    && canary < |eligible| == |members| && eligible[canary].online
    && members[0].node == eligible[canary].node && members[canary].node == eligible[0].node
    && forall i :: 0 < i < |members| && i != canary ==> members[i].node == eligible[i].node
  }

  method BuildMembers(eligible: array<Eligible>, batchSize: nat) returns (members: Option<seq<Planned>>)
    requires batchSize > 0
    modifies eligible
    ensures members.None? <==> NoOnline(old(eligible[..]))
    ensures members.Some? ==> Plans(old(eligible[..]), batchSize, members.value)
    ensures members.Some? ==> |members.value| == eligible.Length && forall i :: 0 <= i < eligible.Length ==>
      && members.value[i].position == i
      && members.value[i].batch == if i == 0 then 0 else 1 + (i - 1) / batchSize
    ensures members.Some? ==> exists canary: nat :: CanaryInFront(old(eligible[..]), canary, members.value)
  {
    if eligible.Length == 0 {
      return None;
    }
    ghost var was := eligible[..];
    var canary := PickCanary(eligible[..]);
    if canary < 0 {
      return None;
    }
    eligible[0], eligible[canary] := eligible[canary], eligible[0];
    assert eligible[..] == Swapped(was, canary);
    var built: seq<Planned> := [];
    var i := 0;
    while i < eligible.Length
      invariant 0 <= i == |built| <= eligible.Length && eligible[..] == Swapped(was, canary)
      invariant forall j :: 0 <= j < i ==>
        built[j] == Planned(Swapped(was, canary)[j].node, Swapped(was, canary)[j].kind, j, BatchOf(j, batchSize))
    {
      var batch := if i == 0 then 0 else 1 + (i - 1) / batchSize;
      assert eligible[i] == eligible[..][i];
      built := built + [Planned(eligible[i].node, eligible[i].kind, i, batch)];
      i := i + 1;
    }
    assert CanaryInFront(was, canary, built);
    return Some(built);
  }

  // ----- The store's checks -----

  predicate UpdateKind(kind: string) {
    kind == "update.agent" || kind == "update.sing_box" || kind == "update.bundle"
  }

  /** What a stored campaign's members must be. */
  ghost predicate Storable(members: seq<Planned>) {
    && members != []
    && (forall i, j :: 0 <= i < j < |members| ==>
          members[i].node != members[j].node && members[i].position != members[j].position)
    && (forall m <- members :: m.position >= 0 && m.batch >= 0 && UpdateKind(m.kind))
    && |Canaries(members, |members|)| == 1
  }

  /** The members of batch zero among the first `n`. */
  function Canaries(members: seq<Planned>, n: nat): set<nat>
    requires n <= |members|
  {
    set i: nat | i < n && members[i].batch == 0
  }

  lemma OneMoreCanary(members: seq<Planned>, n: nat)
    requires n < |members|
    ensures |Canaries(members, n + 1)| == |Canaries(members, n)| + (if members[n].batch == 0 then 1 else 0)
  {
    assert Canaries(members, n + 1) == Canaries(members, n) + (if members[n].batch == 0 then {n} else {});
  }

  method CheckMembers(members: seq<Planned>) returns (ok: bool)
    ensures ok <==> Storable(members)
  {
    if members == [] {
      return false;
    }
    var seenNodes: set<string>, seenPositions: set<int>, canaries := {}, {}, 0;
    var i := 0;
    while i < |members|
      invariant 0 <= i <= |members|
      invariant seenNodes == set j | 0 <= j < i :: members[j].node
      invariant seenPositions == set j | 0 <= j < i :: members[j].position
      invariant forall k, j :: 0 <= k < j < i ==>
        members[k].node != members[j].node && members[k].position != members[j].position
      invariant forall j :: 0 <= j < i ==> members[j].position >= 0 && members[j].batch >= 0 && UpdateKind(members[j].kind)
      invariant canaries == |Canaries(members, i)|
    {
      hide Canaries, UpdateKind;
      OneMoreCanary(members, i);
      var m := members[i];
      if m.node in seenNodes || m.position in seenPositions || m.position < 0 || m.batch < 0 {
        return false;
      }
      seenNodes, seenPositions := seenNodes + {m.node}, seenPositions + {m.position};
      if m.batch == 0 {
        canaries := canaries + 1;
      }
      if !UpdateKind(m.kind) {
        return false;
      }
      i := i + 1;
    }
    return canaries == 1;
  }

  // ----- What the plan gives -----

  function Batches(members: seq<Planned>): seq<nat>
    requires forall m <- members :: m.batch >= 0
  {
    seq(|members|, i requires 0 <= i < |members| => members[i].batch)
  }

  lemma BatchOfBounds(i: nat, batchSize: nat)
    requires batchSize > 0 && i > 0
    ensures BatchOf(i, batchSize) >= 1
    ensures (BatchOf(i, batchSize) - 1) * batchSize + 1 <= i <= BatchOf(i, batchSize) * batchSize
  {
    var q := (i - 1) / batchSize;
    assert q * batchSize <= i - 1 < (q + 1) * batchSize by {
      assert i - 1 == q * batchSize + (i - 1) % batchSize;
    }
  }

  lemma {:induction false} RangeCardinality(s: set<nat>, lo: nat, size: nat)
    requires forall i <- s :: lo <= i < lo + size
    ensures |s| <= size
  {
    if size == 0 {
      assert s == {};
    } else {
      var last := lo + size - 1;
      RangeCardinality(s - {last}, lo, size - 1);
    }
  }

  lemma BatchesAreStaged(members: seq<Planned>, batchSize: nat)
    requires batchSize > 0 && members != [] && (forall m <- members :: m.batch >= 0)
    requires forall i :: 0 <= i < |members| ==> members[i].batch == BatchOf(i, batchSize)
    ensures WellFormed(Plan(Batches(members), batchSize)) && |Canaries(members, |members|)| == 1
  {
    forall i | 0 < i < |members|
      ensures members[i].batch >= 1
    {
      BatchOfBounds(i, batchSize);
    }
    var plan := Plan(Batches(members), batchSize);
    assert InBatch(plan, 0) == {0} == Canaries(members, |members|);
    forall batch: nat | batch > 0
      ensures |InBatch(plan, batch)| <= batchSize
    {
      forall i <- InBatch(plan, batch)
        ensures (batch - 1) * batchSize + 1 <= i < (batch - 1) * batchSize + 1 + batchSize
      {
        BatchOfBounds(i, batchSize);
        assert batch * batchSize == (batch - 1) * batchSize + batchSize;
      }
      assert (batch - 1) * batchSize >= 0;
      RangeCardinality(InBatch(plan, batch), (batch - 1) * batchSize + 1, batchSize);
    }
  }

  /** A plan built for distinct nodes passes the store's checks and is staged as the
      campaign needs it: one canary in batch zero, at most `batchSize` nodes in any other. */
  lemma BuiltPlansAreStaged(eligible: seq<Eligible>, batchSize: nat, members: seq<Planned>)
    requires batchSize > 0 && Plans(eligible, batchSize, members)
    requires forall i, j :: 0 <= i < j < |eligible| ==> eligible[i].node != eligible[j].node
    requires forall e <- eligible :: e.kind == "update.agent" || e.kind == "update.sing_box" || e.kind == "update.bundle"
    ensures Storable(members)
    ensures WellFormed(Plan(Batches(members), batchSize))
    ensures multiset(seq(|members|, i requires 0 <= i < |members| => members[i].node)) ==
      multiset(seq(|eligible|, i requires 0 <= i < |eligible| => eligible[i].node))
  {
    var canary :| 0 <= canary < |eligible| && eligible[canary].online
      && (eligible[canary].active || forall e <- eligible :: !(e.online && e.active))
      && forall i :: 0 <= i < |members| ==>
           members[i] == Planned(Swapped(eligible, canary)[i].node, Swapped(eligible, canary)[i].kind, i, BatchOf(i, batchSize));
    var swapped := Swapped(eligible, canary);
    forall i, j | 0 <= i < j < |members|
      ensures members[i].node != members[j].node
    {
      assert swapped[i].node != swapped[j].node;
    }
    forall m <- members
      ensures m.position >= 0 && m.batch >= 0 && UpdateKind(m.kind)
    {
      var i :| 0 <= i < |members| && members[i] == m;
      assert swapped[i] in eligible;
    }
    BatchesAreStaged(members, batchSize);
    SwapIsPermutation(eligible, canary, members);
  }

  lemma SwapIsPermutation(eligible: seq<Eligible>, canary: nat, members: seq<Planned>)
    requires canary < |eligible| == |members|
    requires forall i :: 0 <= i < |members| ==> members[i].node == Swapped(eligible, canary)[i].node
    ensures multiset(seq(|members|, i requires 0 <= i < |members| => members[i].node)) ==
      multiset(seq(|eligible|, i requires 0 <= i < |eligible| => eligible[i].node))
  {
    var names := seq(|eligible|, i requires 0 <= i < |eligible| => eligible[i].node);
    var after := seq(|members|, i requires 0 <= i < |members| => members[i].node);
    assert after == names[0 := names[canary]][canary := names[0]];
  }
}
