/**
 Bounded fan-out to a subscriber that may be too slow.  Any number of publishers
 and a receiver interleave one queue operation at a time.  A published value is
 known by its number in the order of publication.
 */
module Broadcast {
  import opened Capture

  datatype Policy = DropOldest | DropIncoming

  /** Where a publisher stands in delivering one value to the subscriber. */
  datatype Place =
    | Idle
    | Sending(number: nat)
    | Evicting(number: nat)
    | Retrying(number: nat, evicted: nat)
    | Accounting(amount: nat)
  {
    /** The value still in the publisher's hands. */
    function Held(): multiset<nat>
    {
      if Sending? || Evicting? || Retrying? then multiset{number} else multiset{}
    }

    /** Losses the publisher has caused and not yet added to the counter. */
    function Owed(): nat
    {
      match this
      case Retrying(_, evicted) => evicted
      case Accounting(amount) => amount
      case _ => 0
    }
  }

  datatype State = State(
    policy: Policy,
    capacity: nat,
    owners: seq<nat>,
    places: seq<Place>,
    queue: seq<nat>,
    received: seq<nat>,
    lost: seq<nat>,
    dropped: nat)
  {
    function At(p: nat, place: Place): State
      requires p < |places|
    {
      this.(places := places[p := place])
    }

    /** What the receiver has and will still get, in order. */
    function Delivered(): seq<nat>
    {
      received + queue
    }
  }

  function Subscribe(capacity: nat, policy: Policy, publishers: nat): State
  {
    State(policy, if capacity == 0 then 1 else capacity, [], seq(publishers, i => Idle), [], [], [], 0)
  }

  datatype Action =
    | Publish(p: nat)
    | TrySend(p: nat)
    | Evict(p: nat)
    | Retry(p: nat)
    | Account(p: nat)
    | Receive

  /** Whether the action is the next of the thread that takes it. */
  predicate Enabled(s: State, a: Action)
  {
    if a.Receive? then s.queue != []
    else a.p < |s.places| && match a
      case Publish(p) => s.places[p].Idle?
      case TrySend(p) => s.places[p].Sending?
      case Evict(p) => s.places[p].Evicting?
      case Retry(p) => s.places[p].Retrying?
      case Account(p) => s.places[p].Accounting?
  }

  function Step(s: State, a: Action): State
    requires Enabled(s, a)
  {
    match a
    case Publish(p) => s.(owners := s.owners + [p]).At(p, Sending(|s.owners|))
    case TrySend(p) =>
      var n := s.places[p].number;
      if |s.queue| < s.capacity then s.(queue := s.queue + [n]).At(p, Idle)
      else if s.policy.DropOldest? then s.At(p, Evicting(n))
      else s.(lost := s.lost + [n]).At(p, Accounting(1))
    case Evict(p) =>
      var n := s.places[p].number;
      if s.queue == [] then s.At(p, Retrying(n, 0))
      else s.(queue := s.queue[1..], lost := s.lost + [s.queue[0]]).At(p, Retrying(n, 1))
    case Retry(p) =>
      var n, evicted := s.places[p].number, s.places[p].evicted;
      if |s.queue| < s.capacity then s.(queue := s.queue + [n]).At(p, Accounting(evicted))
      else s.(lost := s.lost + [n]).At(p, Accounting(evicted + 1))
    case Account(p) => s.(dropped := s.dropped + s.places[p].amount).At(p, Idle)
    case Receive => s.(queue := s.queue[1..], received := s.received + [s.queue[0]])
  }

  /** An interleaving: each action is taken if its thread is ready for it. */
  function Run(s: State, actions: seq<Action>): State
    decreases |actions|
  {
    if actions == [] then s
    else
      var before := Run(s, actions[..|actions| - 1]);
      var a := actions[|actions| - 1];
      if Enabled(before, a) then Step(before, a) else before
  }

  // ---------------------------------------------------------------------
  // Conservation
  // ---------------------------------------------------------------------

  function Numbers(n: nat): (all: multiset<nat>)
    ensures |all| == n
    ensures forall k :: all[k] == if 0 <= k < n then 1 else 0
  {
    if n == 0 then multiset{} else Numbers(n - 1) + multiset{n - 1}
  }

  function AllHeld(places: seq<Place>): multiset<nat>
  {
    if places == [] then multiset{} else AllHeld(places[..|places| - 1]) + places[|places| - 1].Held()
  }

  function AllOwed(places: seq<Place>): nat
  {
    if places == [] then 0 else AllOwed(places[..|places| - 1]) + places[|places| - 1].Owed()
  }

  lemma MovedPlace(places: seq<Place>, p: nat, place: Place)
    requires p < |places|
    ensures AllHeld(places[p := place]) + places[p].Held() == AllHeld(places) + place.Held()
    ensures AllOwed(places[p := place]) + places[p].Owed() == AllOwed(places) + place.Owed()
  {
    MovedHeld(places, p, place, places[p := place]);
    MovedOwed(places, p, place, places[p := place]);
  }

  lemma {:induction false} MovedOwed(places: seq<Place>, p: nat, place: Place, moved: seq<Place>)
    requires p < |places| && moved == places[p := place]
    ensures AllOwed(moved) + places[p].Owed() == AllOwed(places) + place.Owed()
  {
    var n := |places| - 1;
    if p == n {
      assert moved[..n] == places[..n];
    } else {
      MovedOwed(places[..n], p, place, moved[..n]);
    }
  }

  lemma {:induction false} MovedHeld(places: seq<Place>, p: nat, place: Place, moved: seq<Place>)
    requires p < |places| && moved == places[p := place]
    ensures AllHeld(moved) + places[p].Held() == AllHeld(places) + place.Held()
  {
    var n := |places| - 1;
    var rest, rest' := places[..n], moved[..n];
    if p == n {
      assert rest' == rest;
      LastMoved(AllHeld(rest), AllHeld(places), AllHeld(moved), places[n].Held(), place.Held());
    } else {
      MovedHeld(rest, p, place, rest');
      EarlierMoved(AllHeld(rest), AllHeld(rest'), AllHeld(places), AllHeld(moved), places[n].Held(), places[p].Held(),
                   place.Held());
    }
  }

  lemma LastMoved(rest: multiset<nat>, all: multiset<nat>, all': multiset<nat>, one: multiset<nat>, one': multiset<nat>)
    requires all == rest + one && all' == rest + one'
    ensures all' + one == all + one'
  {
  }

  lemma EarlierMoved(
    rest: multiset<nat>, rest': multiset<nat>, all: multiset<nat>, all': multiset<nat>, last: multiset<nat>,
    one: multiset<nat>, one': multiset<nat>)
    requires rest' + one == rest + one' && all == rest + last && all' == rest' + last
    ensures all' + one == all + one'
  {
    forall n: nat ensures (all' + one)[n] == (all + one')[n] {
      assert (rest' + one)[n] == (rest + one')[n];
    }
  }

  lemma {:induction false} AllIdle(places: seq<Place>)
    requires forall p :: 0 <= p < |places| ==> places[p].Idle?
    ensures AllHeld(places) == multiset{} && AllOwed(places) == 0
  {
    if places != [] {
      AllIdle(places[..|places| - 1]);
    }
  }

  function Settled(s: State): multiset<nat>
  {
    multiset(s.received) + multiset(s.queue) + multiset(s.lost)
  }

  /** Each value ever published is in exactly one place, and the counter is short only by what is owed. */
  ghost predicate Conserved(s: State)
  {
    && Settled(s) + AllHeld(s.places) == Numbers(|s.owners|)
    && s.dropped + AllOwed(s.places) == |s.lost|
    && |s.queue| <= s.capacity && s.capacity >= 1
  }

  /** Replacing one publisher's place keeps the balance if the queue and the losses made up for it. */
  lemma BalanceMoves(s: State, t: State, p: nat)
    requires Conserved(s) && p < |s.places| == |t.places| && t.places == s.places[p := t.places[p]]
    requires t.owners == s.owners
    requires Settled(t) + t.places[p].Held() == Settled(s) + s.places[p].Held()
    requires t.dropped + t.places[p].Owed() + |s.lost| == s.dropped + s.places[p].Owed() + |t.lost|
    requires |t.queue| <= t.capacity == s.capacity
    ensures Conserved(t)
  {
    MovedPlace(s.places, p, t.places[p]);
    Balance(Settled(s), Settled(t), AllHeld(s.places), AllHeld(t.places), s.places[p].Held(), t.places[p].Held(),
            Numbers(|s.owners|));
  }

  lemma Balance(
    a: multiset<nat>, b: multiset<nat>, all: multiset<nat>, all': multiset<nat>, one: multiset<nat>,
    one': multiset<nat>, total: multiset<nat>)
    requires a + all == total && all' + one == all + one' && b + one' == a + one
    ensures b + all' == total
  {
    forall n: nat ensures (b + all')[n] == total[n] {
      assert (a + all)[n] == total[n] && (all' + one)[n] == (all + one')[n];
      assert (b + one')[n] == (a + one)[n];
    }
  }

  lemma StepConserves(s: State, a: Action)
    requires Conserved(s) && Enabled(s, a)
    ensures Conserved(Step(s, a))
  {
    match a {
      case Publish(p) => PublishConserves(s, p);
      case TrySend(p) => TrySendConserves(s, p);
      case Evict(p) => EvictConserves(s, p);
      case Retry(p) => RetryConserves(s, p);
      case Account(p) => AccountConserves(s, p);
      case Receive => ReceiveSettles(s);
    }
  }

  lemma PublishConserves(s: State, p: nat)
    requires Conserved(s) && Enabled(s, Publish(p))
    ensures Conserved(Step(s, Publish(p)))
  {
    PublishHolds(s, p, Step(s, Publish(p)));
    OneMoreKept(s, Step(s, Publish(p)));
  }

  /** One value more is published, and it is held. */
  ghost predicate OneMore(s: State, t: State)
  {
    && AllHeld(t.places) + multiset{} == AllHeld(s.places) + multiset{|s.owners|}
    && AllOwed(t.places) == AllOwed(s.places) && Settled(t) == Settled(s) && |t.owners| == |s.owners| + 1
    && t.dropped == s.dropped && t.lost == s.lost && t.queue == s.queue && t.capacity == s.capacity
  }

  lemma PublishHolds(s: State, p: nat, t: State)
    requires Enabled(s, Publish(p)) && t == Step(s, Publish(p))
    ensures OneMore(s, t)
  {
    var n := |s.owners|;
    var moved := s.places[p := Sending(n)];
    assert t.places == moved && s.places[p].Held() == multiset{} && Sending(n).Held() == multiset{n};
    MovedPlace(s.places, p, Sending(n));
  }

  lemma OneMoreKept(s: State, t: State)
    requires Conserved(s) && OneMore(s, t)
    ensures Conserved(t)
  {
    var n := |s.owners|;
    OneMoreHeld(Settled(s), AllHeld(s.places), AllHeld(t.places), multiset{n}, Numbers(n), Numbers(n + 1));
  }

  lemma OneMoreHeld(
    settled: multiset<nat>, all: multiset<nat>, all': multiset<nat>, one: multiset<nat>, total: multiset<nat>,
    total': multiset<nat>)
    requires settled + all == total && all' + multiset{} == all + one && total' == total + one
    ensures settled + all' == total'
  {
    forall n: nat ensures (settled + all')[n] == total'[n] {
      assert (settled + all)[n] == total[n] && (all' + multiset{})[n] == (all + one)[n];
    }
  }

  lemma TrySendConserves(s: State, p: nat)
    requires Conserved(s) && Enabled(s, TrySend(p))
    ensures Conserved(Step(s, TrySend(p)))
  {
    var t := Step(s, TrySend(p));
    SendSettles(s, t, p);
    BalanceMoves(s, t, p);
  }

  lemma RetryConserves(s: State, p: nat)
    requires Conserved(s) && Enabled(s, Retry(p))
    ensures Conserved(Step(s, Retry(p)))
  {
    var t := Step(s, Retry(p));
    SendSettles(s, t, p);
    BalanceMoves(s, t, p);
  }

  lemma EvictConserves(s: State, p: nat)
    requires Conserved(s) && Enabled(s, Evict(p))
    ensures Conserved(Step(s, Evict(p)))
  {
    var t := Step(s, Evict(p));
    EvictSettles(s, p, t);
    assert t.places[p].Held() == s.places[p].Held();
    BalanceMoves(s, t, p);
  }

  lemma AccountConserves(s: State, p: nat)
    requires Conserved(s) && Enabled(s, Account(p))
    ensures Conserved(Step(s, Account(p)))
  {
    BalanceMoves(s, Step(s, Account(p)), p);
  }

  lemma ReceiveSettles(s: State)
    requires s.queue != []
    ensures Settled(Step(s, Receive)) == Settled(s)
  {
    var n := s.queue[0];
    assert s.queue == [n] + s.queue[1..];
    assert multiset(s.queue) == multiset{n} + multiset(s.queue[1..]);
    assert multiset(s.received + [n]) == multiset(s.received) + multiset{n};
  }

  /** Sending moves the value to the queue, to the losses, or nowhere yet. */
  lemma SendSettles(s: State, t: State, p: nat)
    requires p < |s.places| && (s.places[p].Sending? || s.places[p].Retrying?)
    requires t == Step(s, if s.places[p].Sending? then TrySend(p) else Retry(p))
    ensures Settled(t) + t.places[p].Held() == Settled(s) + s.places[p].Held()
  {
    var n := s.places[p].number;
    if |s.queue| < s.capacity {
      assert multiset(t.queue) == multiset(s.queue) + multiset{n};
    } else if t.lost != s.lost {
      assert multiset(t.lost) == multiset(s.lost) + multiset{n};
    }
  }

  lemma EvictSettles(s: State, p: nat, t: State)
    requires p < |s.places| && s.places[p].Evicting? && t == Step(s, Evict(p))
    ensures Settled(t) == Settled(s)
  {
    if s.queue != [] {
      var n := s.queue[0];
      assert s.queue == [n] + s.queue[1..];
      assert multiset(s.queue) == multiset(t.queue) + multiset{n} && multiset(t.lost) == multiset(s.lost) + multiset{n};
      MovedToLost(multiset(s.received), multiset(t.queue), multiset(s.lost), multiset{n});
    }
  }

  lemma MovedToLost(received: multiset<nat>, queue: multiset<nat>, lost: multiset<nat>, one: multiset<nat>)
    ensures received + queue + (lost + one) == received + (queue + one) + lost
  {
  }

  /** Published = received + queued + lost + in flight, over every interleaving. */
  lemma {:induction false} RunConserves(capacity: nat, policy: Policy, publishers: nat, actions: seq<Action>)
    ensures Conserved(Run(Subscribe(capacity, policy, publishers), actions))
    decreases |actions|
  {
    var s := Subscribe(capacity, policy, publishers);
    if actions == [] {
      AllIdle(s.places);
    } else {
      var before := Run(s, actions[..|actions| - 1]);
      RunConserves(capacity, policy, publishers, actions[..|actions| - 1]);
      if Enabled(before, actions[|actions| - 1]) {
        StepConserves(before, actions[|actions| - 1]);
      }
    }
  }

  /** With every publisher at rest the counter is exact. */
  lemma QuiescentCount(s: State)
    requires Conserved(s) && forall p :: 0 <= p < |s.places| ==> s.places[p].Idle?
    ensures |s.owners| == |s.received| + |s.queue| + s.dropped
  {
    AllIdle(s.places);
    assert |multiset(s.received) + multiset(s.queue) + multiset(s.lost)| == |Numbers(|s.owners|)|;
  }

  // ---------------------------------------------------------------------
  // Order
  // ---------------------------------------------------------------------

  /** Every value is known, and those of one owner come in the order of publication. */
  ghost predicate Ordered(delivered: seq<nat>, owners: seq<nat>)
  {
    && (forall i :: 0 <= i < |delivered| ==> delivered[i] < |owners|)
    && (forall i, j :: 0 <= i < j < |delivered| && owners[delivered[i]] == owners[delivered[j]] ==>
          delivered[i] < delivered[j])
  }

  /** Value `n` is its owner's, and newer than all its owner has delivered. */
  ghost predicate Newest(delivered: seq<nat>, owners: seq<nat>, p: nat, n: nat)
    requires Ordered(delivered, owners)
  {
    n < |owners| && owners[n] == p && forall i :: 0 <= i < |delivered| && owners[delivered[i]] == p ==> delivered[i] < n
  }

  ghost predicate InOrder(s: State)
  {
    && Ordered(s.Delivered(), s.owners)
    && (forall n :: 0 <= n < |s.owners| ==> s.owners[n] < |s.places|)
    && (forall p :: 0 <= p < |s.places| && s.places[p].Held() != multiset{} ==>
          Newest(s.Delivered(), s.owners, p, s.places[p].number))
  }

  /** Taking one value away keeps the order of the others. */
  lemma RemovedInOrder(was: seq<nat>, now: seq<nat>, at: nat, owners: seq<nat>)
    requires Ordered(was, owners) && at < |was| && now == was[..at] + was[at + 1..]
    ensures Ordered(now, owners)
    ensures forall p, n :: Newest(was, owners, p, n) ==> Newest(now, owners, p, n)
  {
    assert forall i :: 0 <= i < |now| ==> now[i] == if i < at then was[i] else was[i + 1];
  }

  lemma StepKeepsOrder(s: State, a: Action)
    requires InOrder(s) && Enabled(s, a)
    ensures InOrder(Step(s, a))
  {
    if a.Evict? && s.queue != [] {
      EvictKeepsOrder(s, a.p);
    } else if a.Publish? {
      PublishKeepsOrder(s, a.p);
    } else if a.TrySend? || a.Retry? {
      SendKeepsOrder(s, a);
    } else {
      assert Step(s, a).Delivered() == s.Delivered();
    }
  }

  lemma EvictKeepsOrder(s: State, p: nat)
    requires InOrder(s) && Enabled(s, Evict(p)) && s.queue != []
    ensures InOrder(Step(s, Evict(p)))
  {
    RemovedInOrder(s.Delivered(), Step(s, Evict(p)).Delivered(), |s.received|, s.owners);
  }

  lemma SendKeepsOrder(s: State, a: Action)
    requires InOrder(s) && Enabled(s, a) && (a.TrySend? || a.Retry?)
    ensures InOrder(Step(s, a))
  {
    if |s.queue| < s.capacity {
      SentKeepsOrder(s, a);
    } else {
      assert Step(s, a).Delivered() == s.Delivered();
    }
  }

  lemma SentKeepsOrder(s: State, a: Action)
    requires InOrder(s) && Enabled(s, a) && (a.TrySend? || a.Retry?) && |s.queue| < s.capacity
    ensures InOrder(Step(s, a))
  {
    var n := s.places[a.p].number;
    assert n in s.places[a.p].Held();
    assert Step(s, a).Delivered() == s.Delivered() + [n];
    AppendedInOrder(s.Delivered(), s.owners, a.p, n);
  }

  lemma PublishKeepsOrder(s: State, p: nat)
    requires InOrder(s) && Enabled(s, Publish(p))
    ensures InOrder(Step(s, Publish(p)))
  {
    assert Step(s, Publish(p)).Delivered() == s.Delivered();
    PublishedInOrder(s.Delivered(), s.owners, p);
  }

  lemma AppendedInOrder(was: seq<nat>, owners: seq<nat>, p: nat, n: nat)
    requires Ordered(was, owners) && Newest(was, owners, p, n)
    ensures Ordered(was + [n], owners)
    ensures forall q, m :: q != p && Newest(was, owners, q, m) ==> Newest(was + [n], owners, q, m)
  {
  }

  lemma PublishedInOrder(was: seq<nat>, owners: seq<nat>, p: nat)
    requires Ordered(was, owners)
    ensures Ordered(was, owners + [p]) && Newest(was, owners + [p], p, |owners|)
    ensures forall q, m :: Newest(was, owners, q, m) ==> Newest(was, owners + [p], q, m)
  {
    assert forall i :: 0 <= i < |was| ==> (owners + [p])[was[i]] == owners[was[i]];
  }

  lemma {:induction false} RunKeepsOrder(capacity: nat, policy: Policy, publishers: nat, actions: seq<Action>)
    ensures InOrder(Run(Subscribe(capacity, policy, publishers), actions))
    ensures var s := Run(Subscribe(capacity, policy, publishers), actions);
      |s.places| == publishers && s.policy == policy
    decreases |actions|
  {
    if actions != [] {
      var before := Run(Subscribe(capacity, policy, publishers), actions[..|actions| - 1]);
      RunKeepsOrder(capacity, policy, publishers, actions[..|actions| - 1]);
      if Enabled(before, actions[|actions| - 1]) {
        StepKeepsOrder(before, actions[|actions| - 1]);
      }
    }
  }

  /** With one publisher, what is received is an in-order selection of what was published. */
  lemma OnePublisherSelects(capacity: nat, policy: Policy, actions: seq<Action>, run: seq<SampleBlock>)
    requires |run| == |Run(Subscribe(capacity, policy, 1), actions).owners|
    ensures Selection(run, Run(Subscribe(capacity, policy, 1), actions).received)
  {
    var s := Run(Subscribe(capacity, policy, 1), actions);
    RunKeepsOrder(capacity, policy, 1, actions);
    forall i, j | 0 <= i < j < |s.received| ensures s.received[i] < s.received[j] {
      assert s.Delivered()[i] == s.received[i] && s.Delivered()[j] == s.received[j];
    }
    forall i | 0 <= i < |s.received| ensures s.received[i] < |run| {
      assert s.Delivered()[i] == s.received[i];
    }
  }

  /**
   Loss is never hidden, whatever the policy, the capacity and the interleaving:
   a consumer that finds every block from its i-th to its j-th received to
   follow the one before holds everything published between the two.
   */
  lemma LossIsNeverHidden(capacity: nat, policy: Policy, actions: seq<Action>, run: seq<SampleBlock>, i: nat, j: nat)
    requires |run| == |Run(Subscribe(capacity, policy, 1), actions).owners| && Disciplined(run)
    requires var got := Run(Subscribe(capacity, policy, 1), actions).received;
      i <= j < |got| && Selection(run, got) && forall k :: i < k <= j ==> Follows(run[got[k - 1]], run[got[k]])
    ensures var got := Run(Subscribe(capacity, policy, 1), actions).received;
      forall k :: i <= k <= j ==> got[k] == got[i] + (k - i)
  {
    var got := Run(Subscribe(capacity, policy, 1), actions).received;
    OnePublisherSelects(capacity, policy, actions, run);
    forall k | i <= k <= j ensures got[k] == got[i] + (k - i) {
      ObservedRunIsWhole(run, got, i, k);
    }
  }

  // ---------------------------------------------------------------------
  // The newest value
  // ---------------------------------------------------------------------

  /** The lone publisher has room to retry, and between deliveries its newest value is the last delivered. */
  ghost predicate NewestKept(s: State)
  {
    && |s.places| == 1 && s.policy.DropOldest? && s.capacity >= 1 && |s.queue| <= s.capacity
    && (s.places[0].Retrying? ==> |s.queue| < s.capacity)
    && (forall n <- s.places[0].Held() :: n == |s.owners| - 1)
    && (s.places[0].Held() == multiset{} && s.owners != [] ==>
          s.Delivered() != [] && s.Delivered()[|s.Delivered()| - 1] == |s.owners| - 1)
  }

  lemma StepKeepsNewest(s: State, a: Action)
    requires NewestKept(s) && Enabled(s, a)
    ensures NewestKept(Step(s, a))
  {
    if a.Receive? {
      assert Step(s, a).Delivered() == s.Delivered();
    } else if a.TrySend? || a.Retry? {
      SendKeepsNewest(s, a);
    } else {
      OthersKeepNewest(s, a);
    }
  }

  lemma OthersKeepNewest(s: State, a: Action)
    requires NewestKept(s) && Enabled(s, a) && (a.Publish? || a.Evict? || a.Account?)
    ensures NewestKept(Step(s, a))
  {
    if a.Evict? {
      assert s.places[0].number in s.places[0].Held();
    } else if a.Account? {
      assert Step(s, a).Delivered() == s.Delivered();
    }
  }

  lemma SendKeepsNewest(s: State, a: Action)
    requires NewestKept(s) && Enabled(s, a) && (a.TrySend? || a.Retry?)
    ensures NewestKept(Step(s, a))
  {
    var n := s.places[0].number;
    assert n in s.places[0].Held();
    if |s.queue| < s.capacity {
      assert Step(s, a).Delivered() == s.Delivered() + [n];
    }
  }

  /** One publisher dropping oldest: once a publication ends, its value is queued or received. */
  lemma {:induction false} NewestIsDelivered(capacity: nat, actions: seq<Action>)
    ensures NewestKept(Run(Subscribe(capacity, DropOldest, 1), actions))
    decreases |actions|
  {
    if actions != [] {
      var before := Run(Subscribe(capacity, DropOldest, 1), actions[..|actions| - 1]);
      NewestIsDelivered(capacity, actions[..|actions| - 1]);
      if Enabled(before, actions[|actions| - 1]) {
        StepKeepsNewest(before, actions[|actions| - 1]);
      }
    }
  }

  lemma RunTwo(s: State, actions: seq<Action>, now: State, a: Action, b: Action)
    requires now == Run(s, actions) && Enabled(now, a) && Enabled(Step(now, a), b)
    ensures Run(s, actions + [a, b]) == Step(Step(now, a), b)
  {
    var both := actions + [a, b];
    assert both[..|both| - 1] == actions + [a];
    assert (actions + [a])[..|actions|] == actions;
  }

  /** Every publisher is done, and the newest value published will not reach the receiver. */
  ghost predicate NewestLost(s: State)
  {
    && (forall p :: 0 <= p < |s.places| ==> s.places[p].Idle?)
    && s.owners != [] && |s.owners| - 1 !in s.Delivered()
  }

  function Counting(n: nat): seq<nat> { seq(n, i => i) }

  function AllFrom(p: nat, n: nat): seq<nat> { seq(n, i => p) }

  function Resting(publishers: nat): seq<Place> { seq(publishers, i => Idle) }

  /** One publisher fills the queue. */
  function Filled(capacity: nat, publishers: nat, n: nat): State
  {
    State(DropOldest, capacity, AllFrom(0, n), Resting(publishers), Counting(n), [], [], 0)
  }

  lemma {:induction false} Fill(capacity: nat, publishers: nat, n: nat) returns (actions: seq<Action>)
    requires publishers >= 1 && n <= capacity && capacity >= 1
    ensures Run(Subscribe(capacity, DropOldest, publishers), actions) == Filled(capacity, publishers, n)
  {
    if n == 0 {
      actions := [];
      assert AllFrom(0, 0) == [] && Counting(0) == [];
    } else {
      var before := Filled(capacity, publishers, n - 1);
      actions := Fill(capacity, publishers, n - 1);
      RunTwo(Subscribe(capacity, DropOldest, publishers), actions, before, Publish(0), TrySend(0));
      assert AllFrom(0, n) == AllFrom(0, n - 1) + [0] && Counting(n) == Counting(n - 1) + [n - 1];
      assert Resting(publishers)[0 := Sending(n - 1)][0 := Idle] == Resting(publishers);
      actions := actions + [Publish(0), TrySend(0)];
    }
  }

  /** The other publisher refills the room that one made for the newest value. */
  lemma OthersRefill(s: State, c: nat)
    requires c >= 1 && |s.places| >= 2 && s == Filled(c, |s.places|, c)
    ensures Enabled(s, Publish(0)) && Enabled(Step(s, Publish(0)), Publish(1))
    ensures var both := Step(Step(s, Publish(0)), Publish(1));
      && Enabled(both, TrySend(1)) && Enabled(Step(both, TrySend(1)), Evict(1))
      && both.places[0] == Sending(c) && both.places[1] == Sending(c + 1)
      && var evicted := Step(Step(both, TrySend(1)), Evict(1));
         && evicted.queue == Counting(c)[1..] && evicted.places[0] == Sending(c)
               && evicted.places[1] == Retrying(c + 1, 1)
         && evicted == State(DropOldest, c, AllFrom(0, c) + [0] + [1],
               s.places[0 := Sending(c)][1 := Retrying(c + 1, 1)],
                             Counting(c)[1..], [], [0], 0)
  {
    assert s.places[0 := Sending(c)][1 := Sending(c + 1)][1 := Evicting(c + 1)][1 := Retrying(c + 1, 1)]
        == s.places[0 := Sending(c)][1 := Retrying(c + 1, 1)];
  }

  lemma NewestRejected(s: State, c: nat)
    requires c >= 1 && |s.places| >= 2 && s.places[0] == Sending(c) && s.places[1] == Retrying(c + 1, 1)
    requires s.capacity == c && s.queue == Counting(c)[1..] && s.received == [] && |s.owners| == c + 2
    requires forall p :: 2 <= p < |s.places| ==> s.places[p].Idle?
    ensures Enabled(s, TrySend(0)) && Enabled(Step(s, TrySend(0)), Retry(1))
    ensures Enabled(Step(Step(s, TrySend(0)), Retry(1)), Account(1))
    ensures NewestLost(Step(Step(Step(s, TrySend(0)), Retry(1)), Account(1)))
  {
    assert Step(s, TrySend(0)).queue == Counting(c)[1..] + [c];
  }

  /** With two or more publishers, whatever the capacity, the newest value can be lost. */
  lemma NewestCanBeLost(capacity: nat, publishers: nat) returns (actions: seq<Action>)
    requires publishers >= 2
    ensures NewestLost(Run(Subscribe(capacity, DropOldest, publishers), actions))
  {
    var c := if capacity == 0 then 1 else capacity;
    var start := Subscribe(capacity, DropOldest, publishers);
    assert start == Subscribe(c, DropOldest, publishers);
    actions := Fill(c, publishers, c);
    var full := Filled(c, publishers, c);
    OthersRefill(full, c);
    RunTwo(start, actions, full, Publish(0), Publish(1));
    actions := actions + [Publish(0), Publish(1)];
    var both := Run(start, actions);
    RunTwo(start, actions, both, TrySend(1), Evict(1));
    actions := actions + [TrySend(1), Evict(1)];
    var evicted := Run(start, actions);
    NewestRejected(evicted, c);
    RunTwo(start, actions, evicted, TrySend(0), Retry(1));
    actions := actions + [TrySend(0), Retry(1)];
    assert (actions + [Account(1)])[..|actions|] == actions;
    actions := actions + [Account(1)];
  }

  ghost predicate AlwaysDelivers(capacity: nat, publishers: nat)
  {
    forall actions :: !NewestLost(Run(Subscribe(capacity, DropOldest, publishers), actions))
  }

  /** The newest value always gets through exactly when there is at most one publisher. */
  lemma NewestKeptIffOnePublisher(capacity: nat, publishers: nat)
    ensures AlwaysDelivers(capacity, publishers) <==> publishers <= 1
  {
    if publishers >= 2 {
      var actions := NewestCanBeLost(capacity, publishers);
      assert NewestLost(Run(Subscribe(capacity, DropOldest, publishers), actions));
    } else {
      forall actions ensures !NewestLost(Run(Subscribe(capacity, DropOldest, publishers), actions)) {
        var s := Run(Subscribe(capacity, DropOldest, publishers), actions);
        RunKeepsOrder(capacity, DropOldest, publishers, actions);
        if s.owners != [] {
          assert s.owners[0] < |s.places|;
          NewestIsDelivered(capacity, actions);
          assert s.places[0].Idle? ==> s.Delivered()[|s.Delivered()| - 1] in s.Delivered();
        }
      }
    }
  }

  // ---------------------------------------------------------------------
  // Publishing without interruption
  // ---------------------------------------------------------------------

  /** What becomes of a queue that is offered a value while nobody else touches it. */
  function Offered(queue: seq<nat>, capacity: nat, policy: Policy, n: nat): (after: seq<nat>)
    requires |queue| <= capacity && capacity >= 1
    ensures |after| <= capacity && |queue| <= |after|
    ensures policy.DropOldest? ==> after != [] && after[|after| - 1] == n
  {
    if |queue| < capacity then queue + [n]
    else if policy.DropOldest? then queue[1..] + [n]
    else queue
  }

  /** `k` values in a row, with nobody receiving. */
  function OfferedAll(capacity: nat, policy: Policy, k: nat): (queue: seq<nat>)
    requires capacity >= 1
    ensures |queue| <= capacity
  {
    if k == 0 then [] else Offered(OfferedAll(capacity, policy, k - 1), capacity, policy, k - 1)
  }

  /** The newest are kept, or the oldest, as the policy says; and as many as there is room for. */
  lemma {:induction false} KeptOfMany(capacity: nat, policy: Policy, k: nat)
    requires capacity >= 1
    ensures var queue := OfferedAll(capacity, policy, k);
      && |queue| == (if k < capacity then k else capacity)
      && forall i :: 0 <= i < |queue| ==> queue[i] == if policy.DropOldest? then k - |queue| + i else i
  {
    if k > 0 {
      KeptOfMany(capacity, policy, k - 1);
    }
  }

  /** A value is given up only for want of room, and otherwise the oldest queued makes way for a newer one. */
  lemma LossNeedsFullQueue(s: State, a: Action)
    requires Enabled(s, a) && Step(s, a).lost != s.lost
    ensures a.Evict? ==> s.queue != [] && Step(s, a).lost == s.lost + [s.queue[0]] && s.queue[1..] == Step(s, a).queue
    ensures !a.Evict? ==>
      (a.TrySend? || a.Retry?) && |s.queue| >= s.capacity && Step(s, a).lost == s.lost + [s.places[a.p].number]
    ensures a.TrySend? ==> s.policy.DropIncoming?
  {
  }

  /** A publisher makes room only after it found the queue full. */
  lemma EvictionNeedsFullQueue(s: State, a: Action, p: nat)
    requires Enabled(s, a) && p < |s.places| && !s.places[p].Evicting? && Step(s, a).places[p].Evicting?
    ensures a == TrySend(p) && |s.queue| >= s.capacity && s.policy.DropOldest?
  {
  }

  /** The steps of one delivery, taken without interruption, come to exactly that. */
  lemma UninterruptedDelivery(s: State, p: nat) returns (actions: seq<Action>)
    requires p < |s.places| && s.places[p].Idle? && |s.queue| <= s.capacity && s.capacity >= 1
    ensures var t := Run(s, actions);
      && t.queue == Offered(s.queue, s.capacity, s.policy, |s.owners|)
      && t.dropped == s.dropped + (|s.queue| + 1 - |t.queue|)
      && t.owners == s.owners + [p] && t.places == s.places
  {
    RunTwo(s, [], s, Publish(p), TrySend(p));
    actions := [] + [Publish(p), TrySend(p)];
    var sent := Run(s, actions);
    if sent.places[p].Evicting? {
      RunTwo(s, actions, sent, Evict(p), Retry(p));
      actions := actions + [Evict(p), Retry(p)];
      sent := Run(s, actions);
    }
    if sent.places[p].Accounting? {
      assert (actions + [Account(p)])[..|actions|] == actions;
      actions := actions + [Account(p)];
    }
  }

  class Subscriber {
    const policy: Policy
    const capacity: nat
    var queue: seq<nat>
    var dropped: nat

    ghost predicate Valid()
      reads this
    {
      capacity >= 1 && |queue| <= capacity
    }

    constructor (capacity: nat, policy: Policy)
      ensures Valid() && queue == [] && dropped == 0 && this.policy == policy
      ensures this.capacity == if capacity == 0 then 1 else capacity
    {
      this.capacity := if capacity == 0 then 1 else capacity;
      this.policy := policy;
      queue, dropped := [], 0;
    }

    method TrySend(n: nat) returns (sent: bool)
      requires Valid()
      modifies this`queue
      ensures Valid() && sent == (|old(queue)| < capacity)
      ensures queue == if sent then old(queue) + [n] else old(queue)
    {
      sent := |queue| < capacity;
      if sent {
        queue := queue + [n];
      }
    }

    method TryReceive() returns (n: nat, got: bool)
      requires Valid()
      modifies this`queue
      ensures Valid() && got == (old(queue) != [])
      ensures if got then [n] + queue == old(queue) else queue == old(queue)
    {
      n, got := 0, queue != [];
      if got {
        n := queue[0];
        queue := queue[1..];
      }
    }

    method Offer(n: nat)
      requires Valid()
      modifies this
      ensures Valid() && queue == Offered(old(queue), capacity, policy, n)
      ensures dropped + |queue| == old(dropped) + |old(queue)| + 1
    {
      var sent := TrySend(n);
      if !sent {
        if policy.DropOldest? {
          var _, evicted := TryReceive();
          var again := TrySend(n);
          dropped := dropped + (if evicted then 1 else 0) + (if again then 0 else 1);
        } else {
          dropped := dropped + 1;
        }
      }
    }
  }

  class Broadcaster {
    var subscribers: seq<Subscriber>

    ghost predicate Valid()
      reads this, subscribers
    {
      && (forall i :: 0 <= i < |subscribers| ==> subscribers[i].Valid())
      && (forall i, j :: 0 <= i < j < |subscribers| ==> subscribers[i] != subscribers[j])
    }

    constructor ()
      ensures Valid() && subscribers == []
    {
      subscribers := [];
    }

    method Subscribe(capacity: nat, policy: Policy) returns (subscriber: Subscriber)
      requires Valid()
      modifies this
      ensures Valid() && fresh(subscriber) && subscribers == old(subscribers) + [subscriber]
      ensures subscriber.queue == [] && subscriber.policy == policy
    {
      subscriber := new Subscriber(capacity, policy);
      subscribers := subscribers + [subscriber];
    }

    /** Subscriber `i` has been offered value `n`. */
    ghost predicate Took(i: nat, queue: seq<nat>, dropped: nat, n: nat)
      requires i < |subscribers| && |queue| <= subscribers[i].capacity && subscribers[i].capacity >= 1
      reads this, subscribers
    {
      && subscribers[i].queue == Offered(queue, subscribers[i].capacity, subscribers[i].policy, n)
      && subscribers[i].dropped + |subscribers[i].queue| == dropped + |queue| + 1
    }

    /** Every subscriber is offered the value, whatever became of it at the others. */
    method Publish(n: nat)
      requires Valid()
      modifies subscribers
      ensures Valid() && subscribers == old(subscribers)
      ensures forall i :: 0 <= i < |subscribers| ==> Took(i, old(subscribers[i].queue), old(subscribers[i].dropped), n)
    {
      ghost var queues := seq(|subscribers|, i requires 0 <= i < |subscribers| reads this,
                              subscribers => subscribers[i].queue);
      ghost var drops := seq(|subscribers|, i requires 0 <= i < |subscribers| reads this,
                             subscribers => subscribers[i].dropped);
      for k := 0 to |subscribers|
        invariant Valid()
        invariant forall i :: 0 <= i < k ==> Took(i, queues[i], drops[i], n)
        invariant forall i ::
          k <= i < |subscribers| ==> subscribers[i].queue == queues[i] && subscribers[i].dropped == drops[i]
      {
        subscribers[k].Offer(n);
      }
    }
  }
}
