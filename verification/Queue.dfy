/**
 The bounded reveal queue. `State` is its abstract value: per epoch, the queued
 payloads in insertion order. The class methods are proved against functions on
 states, and the properties over whole runs are proved about those functions.
 */
module Queue {
  import opened FixedPoint
  import opened Reveals

  const MAX_PER_EPOCH: nat := 512
  const EPOCH_WINDOW: int := 2

  datatype State = State(byEpoch: map<int, seq<Payload>>, current: Option<int>)

  const EMPTY: State := State(map[], None)

  predicate Near(a: int, b: int) {
    -EPOCH_WINDOW <= a - b <= EPOCH_WINDOW
  }

  predicate Holds(inner: seq<Payload>, nonce: string) {
    exists i :: 0 <= i < |inner| && inner[i].orderNonce == nonce
  }

  function Inner(s: State, epoch: int): seq<Payload> {
    if epoch in s.byEpoch then s.byEpoch[epoch] else []
  }

  /** Evict every epoch outside the window of the live one. */
  function SetCurrent(s: State, epoch: int): State {
    State(map e | e in s.byEpoch && Near(e, epoch) :: s.byEpoch[e], Some(epoch))
  }

  /** Insert unless the epoch is out of the window, the nonce is taken, or the epoch is full. */
  function Put(s: State, p: Payload): State {
    if s.current.Some? && !Near(p.epochId, s.current.value) then s
    else
      var inner := Inner(s, p.epochId);
      if Holds(inner, p.orderNonce) || |inner| >= MAX_PER_EPOCH then s
      else State(s.byEpoch[p.epochId := inner + [p]], s.current)
  }

  function Take(s: State, epoch: int): State {
    State(s.byEpoch - {epoch}, s.current)
  }

  function PutAll(s: State, ps: seq<Payload>): State {
    if |ps| == 0 then s else Put(PutAll(s, ps[..|ps| - 1]), ps[|ps| - 1])
  }

  /** The (epoch, position) slots in use. */
  function Slots(s: State): set<(int, nat)> {
    set e, i: nat | e in s.byEpoch && i < |s.byEpoch[e]| :: (e, i)
  }

  // ------------------------------------------------------------- the invariant

  ghost predicate NoncesDistinct(inner: seq<Payload>) {
    forall i, j :: 0 <= i < j < |inner| ==> inner[i].orderNonce != inner[j].orderNonce
  }

  /** Held epochs are in the window, non-empty, within the cap, keyed right and duplicate-free. */
  ghost predicate Valid(s: State) {
    forall e :: e in s.byEpoch ==>
      && (s.current.Some? ==> Near(e, s.current.value))
      && 0 < |s.byEpoch[e]| <= MAX_PER_EPOCH
      && NoncesDistinct(s.byEpoch[e])
      && forall i :: 0 <= i < |s.byEpoch[e]| ==> s.byEpoch[e][i].epochId == e
  }

  method AnyOf<T>(s: set<T>) returns (x: T)
    requires |s| > 0
    ensures x in s
  {
    x :| x in s;
  }

  class RevealQueue {
    var byEpoch: map<int, seq<Payload>>
    var currentEpoch: Option<int>

    function Value(): State
      reads this
    {
      State(byEpoch, currentEpoch)
    }

    constructor ()
      ensures Value() == EMPTY
    {
      byEpoch, currentEpoch := map[], None;
    }

    method SetCurrentEpoch(epoch: int)
      modifies this
      ensures Value() == SetCurrent(old(Value()), epoch)
    {
      currentEpoch := Some(epoch);
      var left := byEpoch.Keys;
      while |left| > 0
        invariant left <= old(byEpoch).Keys
        invariant currentEpoch == Some(epoch)
        invariant byEpoch == map e | e in old(byEpoch) && (e in left || Near(e, epoch)) :: old(byEpoch)[e]
        decreases |left|
      {
        var e := AnyOf(left);
        left := left - {e};
        if !Near(e, epoch) {
          byEpoch := byEpoch - {e};
        }
      }
    }

    method Enqueue(p: Payload)
      modifies this
      ensures Value() == Put(old(Value()), p)
    {
      if currentEpoch.Some? && !Near(p.epochId, currentEpoch.value) {
        return;
      }
      var inner := if p.epochId in byEpoch then byEpoch[p.epochId] else [];
      if Holds(inner, p.orderNonce) {
        return;
      }
      if |inner| >= MAX_PER_EPOCH {
        return;
      }
      byEpoch := byEpoch[p.epochId := inner + [p]];
    }

    /** Put payloads back, one by one. */
    method EnqueueAll(ps: seq<Payload>)
      modifies this
      ensures Value() == PutAll(old(Value()), ps)
    {
      for i := 0 to |ps|
        invariant Value() == PutAll(old(Value()), ps[..i])
      {
        assert ps[..i + 1][..i] == ps[..i];
        Enqueue(ps[i]);
      }
      assert ps[..|ps|] == ps;
    }

    method DrainEpoch(epoch: int) returns (out: seq<Payload>)
      modifies this
      ensures out == Inner(old(Value()), epoch)
      ensures Value() == Take(old(Value()), epoch)
    {
      if epoch !in byEpoch {
        assert byEpoch - {epoch} == byEpoch;
        return [];
      }
      out := byEpoch[epoch];
      byEpoch := byEpoch - {epoch};
    }

    method Size() returns (total: nat)
      ensures total == |Slots(Value())|
    {
      total := 0;
      var left := byEpoch.Keys;
      ghost var seen: map<int, seq<Payload>> := map[];
      assert Slots(State(seen, currentEpoch)) == {};
      while |left| > 0
        invariant left <= byEpoch.Keys
        invariant seen == map e | e in byEpoch && e !in left :: byEpoch[e]
        invariant total == |Slots(State(seen, currentEpoch))|
        decreases |left|
      {
        var e := AnyOf(left);
        left := left - {e};
        MoreSlots(State(seen, currentEpoch), e, byEpoch[e]);
        seen := seen[e := byEpoch[e]];
        total := total + |byEpoch[e]|;
      }
      assert seen == byEpoch;
    }

    method SizeForEpoch(epoch: int) returns (n: nat)
      ensures n == |Inner(Value(), epoch)|
    {
      return if epoch in byEpoch then |byEpoch[epoch]| else 0;
    }
  }

  // ------------------------------------------------------------------- sizes

  function Positions(e: int, n: nat): (r: set<(int, nat)>)
    ensures |r| == n
    ensures forall x :: x in r <==> x.0 == e && x.1 < n
  {
    if n == 0 then {} else Positions(e, n - 1) + {(e, n - 1)}
  }

  lemma SomeOf<T>(s: set<T>) returns (x: T)
    requires |s| > 0
    ensures x in s
  {
    x :| x in s;
  }

  lemma MoreSlots(s: State, e: int, inner: seq<Payload>)
    requires e !in s.byEpoch
    ensures |Slots(State(s.byEpoch[e := inner], s.current))| == |Slots(s)| + |inner|
  {
    SplitSlots(s, e, inner);
    assert Slots(s) !! Positions(e, |inner|);
  }

  lemma SplitSlots(s: State, e: int, inner: seq<Payload>)
    requires e !in s.byEpoch
    ensures Slots(State(s.byEpoch[e := inner], s.current)) == Slots(s) + Positions(e, |inner|)
  {
    var s' := State(s.byEpoch[e := inner], s.current);
    forall x
      ensures x in Slots(s') <==> x in Slots(s) || x in Positions(e, |inner|)
    {
      SlotMember(s, x);
      SlotMember(s', x);
    }
  }

  lemma SlotMember(s: State, x: (int, nat))
    ensures x in Slots(s) <==> x.0 in s.byEpoch && x.1 < |s.byEpoch[x.0]|
  {
    if x.0 in s.byEpoch && x.1 < |s.byEpoch[x.0]| {
      var e, i: nat := x.0, x.1;
      assert (e, i) in Slots(s);
    }
  }

  lemma {:induction false} EpochsInRange(ks: set<int>, lo: int, n: nat)
    requires forall e :: e in ks ==> lo <= e < lo + n
    ensures |ks| <= n
  {
    if n == 0 {
      if |ks| > 0 {
        var e := SomeOf(ks);
      }
    } else {
      EpochsInRange(ks - {lo + n - 1}, lo, n - 1);
    }
  }

  lemma {:induction false} SlotsPerEpoch(m: map<int, seq<Payload>>, current: Option<int>)
    requires forall e :: e in m ==> |m[e]| <= MAX_PER_EPOCH
    ensures |Slots(State(m, current))| <= MAX_PER_EPOCH * |m.Keys|
    decreases |m.Keys|
  {
    if |m.Keys| == 0 {
      assert Slots(State(m, current)) == {};
    } else {
      var e := SomeOf(m.Keys);
      var rest := m - {e};
      assert rest.Keys == m.Keys - {e};
      SlotsPerEpoch(rest, current);
      MoreSlots(State(rest, current), e, m[e]);
      assert rest[e := m[e]] == m;
    }
  }

  /** Once an epoch is known, at most five epochs of at most 512 reveals are held. */
  lemma SizeIsBounded(s: State)
    requires Valid(s) && s.current.Some?
    ensures |s.byEpoch.Keys| <= 5 && |Slots(s)| <= 5 * MAX_PER_EPOCH
  {
    var c := s.current.value;
    EpochsInRange(s.byEpoch.Keys, c - 2, 5);
    SlotsPerEpoch(s.byEpoch, s.current);
  }

  // -------------------------------------------------------------------- runs

  datatype Op = SetEpoch(epoch: int) | Arrive(p: Payload) | Drain(epoch: int)

  function Apply(s: State, op: Op): State {
    match op
    case SetEpoch(e) => SetCurrent(s, e)
    case Arrive(p) => Put(s, p)
    case Drain(e) => Take(s, e)
  }

  function Run(s: State, ops: seq<Op>): State {
    if |ops| == 0 then s else Apply(Run(s, ops[..|ops| - 1]), ops[|ops| - 1])
  }

  lemma ApplyKeepsValid(s: State, op: Op)
    requires Valid(s)
    ensures Valid(Apply(s, op))
    ensures s.current.Some? || op.SetEpoch? ==> Apply(s, op).current.Some?
  {
    match op
    case SetEpoch(e) =>
    case Drain(e) =>
    case Arrive(p) =>
      var s' := Put(s, p);
      forall e | e in s'.byEpoch
        ensures NoncesDistinct(s'.byEpoch[e])
      {}
  }

  /** Every run keeps the invariant; after the first known epoch the size is bounded. */
  lemma {:induction false} RunKeepsValid(s: State, ops: seq<Op>)
    requires Valid(s)
    ensures Valid(Run(s, ops))
    ensures s.current.Some? || (exists i :: 0 <= i < |ops| && ops[i].SetEpoch?) ==>
      Run(s, ops).current.Some? && |Slots(Run(s, ops))| <= 5 * MAX_PER_EPOCH
  {
    hide Valid, Apply, Slots;
    if |ops| > 0 {
      var init := ops[..|ops| - 1];
      RunKeepsValid(s, init);
      ApplyKeepsValid(Run(s, init), ops[|ops| - 1]);
      if exists i :: 0 <= i < |ops| && ops[i].SetEpoch? {
        var i :| 0 <= i < |ops| && ops[i].SetEpoch?;
        assert i < |init| ==> init[i].SetEpoch?;
      }
    }
    if Run(s, ops).current.Some? {
      SizeIsBounded(Run(s, ops));
    }
  }

  ghost predicate Stored(s: State, p: Payload) {
    p in Inner(s, p.epochId)
  }

  /** The operation neither drains nor evicts the epoch. */
  predicate Spares(op: Op, epoch: int) {
    match op
    case SetEpoch(e) => Near(epoch, e)
    case Arrive(_) => true
    case Drain(e) => e != epoch
  }

  /** First write wins: a stored payload stays, unaltered, until its epoch is drained or evicted. */
  lemma {:induction false} StoredPayloadStays(s: State, ops: seq<Op>, p: Payload)
    requires Stored(s, p)
    requires forall i :: 0 <= i < |ops| ==> Spares(ops[i], p.epochId)
    ensures Stored(Run(s, ops), p)
    ensures Inner(s, p.epochId) <= Inner(Run(s, ops), p.epochId)
  {
    if |ops| > 0 {
      var init := ops[..|ops| - 1];
      StoredPayloadStays(s, init, p);
      var mid, op := Run(s, init), ops[|ops| - 1];
      assert Spares(op, p.epochId);
      assert Inner(mid, p.epochId) <= Inner(Apply(mid, op), p.epochId);
    }
  }

  /**
   What an arriving reveal does: it goes to the end of its epoch exactly when no live epoch
   is known or its epoch is at most two away, its nonce is new there, and fewer than 512
   are held; no other epoch changes, and without that nothing does.
   */
  lemma ArrivalIsStored(s: State, p: Payload, epoch: int)
    ensures
      var before, after := Inner(s, p.epochId), Inner(Put(s, p), p.epochId);
      var room := (s.current.Some? ==> s.current.value - 2 <= p.epochId <= s.current.value + 2)
                  && (forall i :: 0 <= i < |before| ==> before[i].orderNonce != p.orderNonce) && |before| < 512;
      && after == (if room then before + [p] else before)
      && (epoch != p.epochId ==> Inner(Put(s, p), epoch) == Inner(s, epoch)) && Put(s, p).current == s.current
  {}

  /** A new live epoch keeps the reveals of the epochs at most two away, and drops every other. */
  lemma WindowIsKept(s: State, live: int, epoch: int)
    ensures Inner(SetCurrent(s, live), epoch) == if live - 2 <= epoch <= live + 2 then Inner(s, epoch) else []
    ensures SetCurrent(s, live).current == Some(live)
  {}

  // ---------------------------------------------------- drain and re-enqueue

  /** Re-enqueueing what was just drained restores the queue exactly. */
  lemma RequeueRestores(s: State, epoch: int)
    requires Valid(s)
    ensures PutAll(Take(s, epoch), Inner(s, epoch)) == s
  {
    if epoch in s.byEpoch {
      RequeuePrefix(s, epoch, |s.byEpoch[epoch]|);
      assert s.byEpoch[epoch][..|s.byEpoch[epoch]|] == s.byEpoch[epoch];
      assert (s.byEpoch - {epoch})[epoch := s.byEpoch[epoch]] == s.byEpoch;
    } else {
      assert s.byEpoch - {epoch} == s.byEpoch;
    }
  }

  lemma {:induction false} RequeuePrefix(s: State, epoch: int, n: nat)
    requires Valid(s) && epoch in s.byEpoch && 0 < n <= |s.byEpoch[epoch]|
    ensures PutAll(Take(s, epoch), s.byEpoch[epoch][..n])
         == State((s.byEpoch - {epoch})[epoch := s.byEpoch[epoch][..n]], s.current)
  {
    hide Put;
    var inner := s.byEpoch[epoch];
    var init, p := inner[..n - 1], inner[n - 1];
    assert inner[..n][..n - 1] == init && inner[..n] == init + [p];
    assert !Holds(init, p.orderNonce);
    if n > 1 {
      RequeuePrefix(s, epoch, n - 1);
    } else {
      assert init == [];
    }
    var mid := PutAll(Take(s, epoch), init);
    assert Inner(mid, epoch) == init;
    PutNext(mid, s.byEpoch - {epoch}, init, p);
  }

  lemma PutNext(t: State, others: map<int, seq<Payload>>, init: seq<Payload>, p: Payload)
    requires Inner(t, p.epochId) == init && |init| < MAX_PER_EPOCH && !Holds(init, p.orderNonce)
    requires t.current.Some? ==> Near(p.epochId, t.current.value)
    requires p.epochId !in others && (t.byEpoch == others || t.byEpoch == others[p.epochId := init])
    ensures Put(t, p) == State(others[p.epochId := init + [p]], t.current)
  {}

  /**
   Re-enqueueing into a queue that moved on meanwhile loses nothing silently: each
   drained nonce is held afterwards, unless its epoch left the window or is full.
   */
  lemma {:induction false} RequeueLosesNothing(s: State, ps: seq<Payload>, i: nat)
    requires Valid(s) && i < |ps|
    ensures
      var s', p := PutAll(s, ps), ps[i];
      || Holds(Inner(s', p.epochId), p.orderNonce)
      || (s.current.Some? && !Near(p.epochId, s.current.value))
      || |Inner(s', p.epochId)| >= MAX_PER_EPOCH
    ensures PutAll(s, ps).current == s.current && Valid(PutAll(s, ps))
  {
    var init, last := ps[..|ps| - 1], ps[|ps| - 1];
    if |init| > 0 {
      RequeueLosesNothing(s, init, if i < |init| then i else 0);
    }
    var mid := PutAll(s, init);
    ApplyKeepsValid(mid, Arrive(last));
    PutGrows(mid, last, ps[i].epochId);
    if i == |init| {
      PutHolds(mid, last);
    }
  }

  lemma PutAllKeepsValid(s: State, ps: seq<Payload>)
    requires Valid(s)
    ensures Valid(PutAll(s, ps)) && PutAll(s, ps).current == s.current
  {
    hide Valid;
    if |ps| > 0 {
      RequeueLosesNothing(s, ps, 0);
    }
  }

  lemma PutGrows(s: State, p: Payload, epoch: int)
    ensures Inner(s, epoch) <= Inner(Put(s, p), epoch)
    ensures forall nonce :: Holds(Inner(s, epoch), nonce) ==> Holds(Inner(Put(s, p), epoch), nonce)
  {
    forall nonce | Holds(Inner(s, epoch), nonce)
      ensures Holds(Inner(Put(s, p), epoch), nonce)
    {
      var i :| 0 <= i < |Inner(s, epoch)| && Inner(s, epoch)[i].orderNonce == nonce;
      assert Inner(Put(s, p), epoch)[i].orderNonce == nonce;
    }
  }

  lemma PutHolds(s: State, p: Payload)
    ensures
      || Holds(Inner(Put(s, p), p.epochId), p.orderNonce)
      || (s.current.Some? && !Near(p.epochId, s.current.value))
      || |Inner(Put(s, p), p.epochId)| >= MAX_PER_EPOCH
  {
    var inner := Inner(s, p.epochId);
    if !(s.current.Some? && !Near(p.epochId, s.current.value)) && |inner| < MAX_PER_EPOCH
       && !Holds(inner, p.orderNonce) {
      assert Inner(Put(s, p), p.epochId)[|inner|] == p;
    }
  }
}
