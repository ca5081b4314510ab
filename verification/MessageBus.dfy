/** The message bus under any interleaving of its threads.  A step is what the source does at once:
    one exchange of Dispose, the work under one lock, the look at one weak reference.  One message
    type is modelled; the types share nothing. */
module MessageBus {
  /** A call of Dispose on the token of subscription `sub`: `step` counts what it has done (the two
      exchanges, the release, the removal). */
  datatype DisposeCall = DisposeCall(sub: nat, step: nat)

  /** A call of Publish, from its snapshot on. */
  datatype PublishCall = PublishCall(snapshot: seq<nat>, pos: nat, delivered: seq<nat>, dead: seq<nat>)

  /** Subscriptions are numbered in the order in which they were added. */
  datatype State = State(
    next: nat,                 // how many were added
    list: seq<nat>,
    removed: set<nat>,         // taken out of the list again
    released: set<nat>,        // StrongRef is cleared
    collected: set<nat>,       // the weak reference has expired
    busBy: map<nat, nat>,      // which call got the bus out of a token
    subBy: map<nat, nat>,      // which call got the subscription out of it
    disposes: seq<DisposeCall>,
    publishes: seq<PublishCall>)

  datatype Event =
    | Add
    | BeginDispose(sub: nat)
    | DisposeStep(d: nat)
    | Collect(sub: nat)        // the garbage collector
    | BeginPublish
    | Look(p: nat)             // one turn of the delivery loop
    | CleanUp(p: nat)

  /** List.Remove: the first occurrence. */
  function Without<T(==)>(list: seq<T>, k: T): seq<T>
  {
    if list == [] then [] else if list[0] == k then list[1..] else [list[0]] + Without(list[1..], k)
  }

  function WithoutAll<T(==)>(list: seq<T>, ks: seq<T>): seq<T>
    decreases |ks|
  {
    if ks == [] then list else WithoutAll(Without(list, ks[0]), ks[1..])
  }

  function Elements(ks: seq<nat>): set<nat> { set k | k in ks }

  function AtOrNew(m: map<nat, nat>, k: nat, d: nat): map<nat, nat>
  {
    if k in m then m else m[k := d]
  }

  /** The call that emptied the token alone. */
  predicate Won(s: State, k: nat, d: nat)
  {
    k in s.busBy && k in s.subBy && s.busBy[k] == d && s.subBy[k] == d
  }

  predicate Enabled(s: State, e: Event)
  {
    match e
    case Add => true
    case BeginDispose(k) => k < s.next
    case DisposeStep(d) => d < |s.disposes| && s.disposes[d].step < 4
    case Collect(k) => k in s.released
    case BeginPublish => true
    case Look(p) => p < |s.publishes| && s.publishes[p].pos < |s.publishes[p].snapshot|
    case CleanUp(p) => p < |s.publishes| && s.publishes[p].pos == |s.publishes[p].snapshot|
  }

  function DisposeNext(s: State, d: nat): State
    requires Enabled(s, DisposeStep(d))
  {
    var k, step := s.disposes[d].sub, s.disposes[d].step;
    var won := Won(s, k, d);
    var s' := s.(disposes := s.disposes[d := DisposeCall(k, if step == 2 && !won then 4 else step + 1)]);
    if step == 0 then s'.(busBy := AtOrNew(s.busBy, k, d))
    else if step == 1 then s'.(subBy := AtOrNew(s.subBy, k, d))
    else if !won then s'
    else if step == 2 then s'.(released := s.released + {k})
    else s'.(list := Without(s.list, k), removed := s.removed + {k})
  }

  function LookNext(s: State, c: PublishCall): PublishCall
    requires c.pos < |c.snapshot|
  {
    var k := c.snapshot[c.pos];
    if k in s.collected then c.(pos := c.pos + 1, dead := c.dead + [k])
    else c.(pos := c.pos + 1, delivered := c.delivered + [k])
  }

  function Step(s: State, e: Event): State
    requires Enabled(s, e)
  {
    match e
    case Add => s.(next := s.next + 1, list := s.list + [s.next])
    case BeginDispose(k) => s.(disposes := s.disposes + [DisposeCall(k, 0)])
    case DisposeStep(d) => DisposeNext(s, d)
    case Collect(k) => s.(collected := s.collected + {k})
    case BeginPublish => s.(publishes := s.publishes + [PublishCall(s.list, 0, [], [])])
    case Look(p) => s.(publishes := s.publishes[p := LookNext(s, s.publishes[p])])
    case CleanUp(p) =>
      var dead := s.publishes[p].dead;
      s.(list := WithoutAll(s.list, dead), removed := s.removed + Elements(dead))
  }

  // --- The invariant, part by part ---

  ghost predicate Increasing(list: seq<nat>)
  {
    forall i, j | 0 <= i < j < |list| :: list[i] < list[j]
  }

  /** The list is what was added and not removed, in order. */
  ghost predicate ListOk(next: nat, list: seq<nat>, removed: set<nat>)
  {
    Increasing(list) && forall k: nat :: k in list <==> k < next && k !in removed
  }

  /** Only a released subscription is collected or removed. */
  ghost predicate ReleasedOk(s: State)
  {
    s.removed <= s.released && s.collected <= s.released && forall k | k in s.released :: k < s.next
  }

  ghost predicate DisposeOk(s: State, d: nat)
    requires d < |s.disposes|
  {
    var c := s.disposes[d];
    && c.sub < s.next && c.step <= 4
    && (c.step >= 1 ==> c.sub in s.busBy) && (c.step >= 2 ==> c.sub in s.subBy)
    && (Won(s, c.sub, d) && c.step >= 3 ==> c.sub in s.released)
    && (Won(s, c.sub, d) && c.step == 4 ==> c.sub in s.removed)
    && (c.step == 3 ==> Won(s, c.sub, d))
  }

  /** The exchanges were made by calls on that very token. */
  ghost predicate TokenOk(s: State, k: nat)
  {
    && (k in s.busBy ==> s.busBy[k] < |s.disposes| && s.disposes[s.busBy[k]].sub == k && s.disposes[s.busBy[k]].step >= 1)
    && (k in s.subBy ==> s.subBy[k] < |s.disposes| && s.disposes[s.subBy[k]].sub == k && s.disposes[s.subBy[k]].step >= 2)
    && (k in s.released ==> k in s.busBy && Won(s, k, s.busBy[k]) && s.disposes[s.busBy[k]].step >= 3)
  }

  /** Each look went to delivery or to the dead, in order. */
  ghost predicate PublishOk(s: State, c: PublishCall)
  {
    && c.pos <= |c.snapshot| && Increasing(c.snapshot)
    && Increasing(c.delivered) && (forall k | k in c.delivered :: k in c.snapshot[..c.pos])
    && (forall k | k in c.snapshot[..c.pos] :: k in c.delivered || k in c.dead)
    && (forall k | k in c.dead :: k in s.collected && k in c.snapshot[..c.pos] && k !in c.delivered)
  }

  ghost predicate Inv(s: State)
  {
    && ListOk(s.next, s.list, s.removed) && ReleasedOk(s)
    && (forall d | 0 <= d < |s.disposes| :: DisposeOk(s, d))
    && (forall k: nat :: TokenOk(s, k))
    && (forall p | 0 <= p < |s.publishes| :: PublishOk(s, s.publishes[p]))
  }

  // --- Every step keeps it ---

  lemma HeadIsLess(list: seq<nat>)
    requires Increasing(list) && list != []
    ensures Increasing(list[1..]) && forall k | k in list[1..] :: list[0] < k
  {
  }

  lemma ConsIncreasing(h: nat, r: seq<nat>)
    requires Increasing(r) && forall k | k in r :: h < k
    ensures Increasing([h] + r)
  {
    forall i, j | 0 <= i < j < |[h] + r| ensures ([h] + r)[i] < ([h] + r)[j] {
      assert r[j - 1] in r;
    }
  }

  lemma SnocIncreasing(list: seq<nat>, k: nat)
    requires Increasing(list) && forall x | x in list :: x < k
    ensures Increasing(list + [k])
  {
    forall i, j | 0 <= i < j < |list + [k]| ensures (list + [k])[i] < (list + [k])[j] {
      assert list[i] in list;
    }
  }

  lemma {:induction false} WithoutIs(list: seq<nat>, x: nat)
    requires Increasing(list)
    ensures Increasing(Without(list, x)) && forall k: nat :: k in Without(list, x) <==> k in list && k != x
    decreases |list|
  {
    if list != [] {
      hide Increasing;
      HeadIsLess(list);
      assert list == [list[0]] + list[1..];
      if list[0] != x {
        WithoutIs(list[1..], x);
        ConsIncreasing(list[0], Without(list[1..], x));
      }
    }
  }

  lemma {:induction false} WithoutAllIs(list: seq<nat>, ks: seq<nat>)
    requires Increasing(list)
    ensures Increasing(WithoutAll(list, ks)) && forall k: nat :: k in WithoutAll(list, ks) <==> k in list && k !in ks
    decreases |ks|
  {
    if ks != [] {
      WithoutIs(list, ks[0]);
      WithoutAllIs(Without(list, ks[0]), ks[1..]);
      assert ks == [ks[0]] + ks[1..];
    }
  }

  /** Nothing is ever undone. */
  ghost predicate Grows(s: State, s': State)
  {
    && s.next <= s'.next && s.removed <= s'.removed && s.released <= s'.released && s.collected <= s'.collected
    && (forall k | k in s.busBy :: k in s'.busBy && s'.busBy[k] == s.busBy[k])
    && (forall k | k in s.subBy :: k in s'.subBy && s'.subBy[k] == s.subBy[k])
    && |s.disposes| <= |s'.disposes|
    && forall d | 0 <= d < |s.disposes| :: s'.disposes[d].sub == s.disposes[d].sub && s'.disposes[d].step >= s.disposes[d].step
  }

  lemma StepGrows(s: State, e: Event)
    requires Enabled(s, e)
    ensures Grows(s, Step(s, e))
  {
  }

  lemma DisposeGrows(s: State, s': State, d: nat)
    requires Grows(s, s') && d < |s.disposes| && DisposeOk(s, d) && s'.disposes[d] == s.disposes[d]
    ensures DisposeOk(s', d)
  {
  }

  lemma TokenGrows(s: State, s': State, k: nat)
    requires Grows(s, s') && TokenOk(s, k)
    requires (k in s'.busBy ==> k in s.busBy) && (k in s'.subBy ==> k in s.subBy) && (k in s'.released ==> k in s.released)
    ensures TokenOk(s', k)
  {
  }

  lemma PublishGrows(s: State, s': State, c: PublishCall)
    requires Grows(s, s') && PublishOk(s, c)
    ensures PublishOk(s', c)
  {
  }

  /** One look. */
  lemma LookKeeps(s: State, c: PublishCall)
    requires PublishOk(s, c) && c.pos < |c.snapshot|
    ensures PublishOk(s, LookNext(s, c))
  {
    var k := c.snapshot[c.pos];
    var c' := LookNext(s, c);
    assert c.snapshot[..c.pos + 1] == c.snapshot[..c.pos] + [k];
    forall x | x in c.snapshot[..c.pos] ensures x < k {
      var i :| 0 <= i < c.pos && c.snapshot[..c.pos][i] == x;
      assert c.snapshot[i] < c.snapshot[c.pos];
    }
    SnocIncreasing(c.delivered, k);
  }

  lemma ListKept(s: State, e: Event)
    requires Enabled(s, e) && Inv(s)
    ensures var s' := Step(s, e); ListOk(s'.next, s'.list, s'.removed)
  {
    match e
    case Add =>
      SnocIncreasing(s.list, s.next);
      assert s.next !in s.removed;
    case DisposeStep(d) => WithoutIs(s.list, s.disposes[d].sub);
    case CleanUp(p) => WithoutAllIs(s.list, s.publishes[p].dead);
    case _ =>
  }

  lemma ReleasedKept(s: State, e: Event)
    requires Enabled(s, e) && Inv(s)
    ensures ReleasedOk(Step(s, e))
  {
    match e
    case DisposeStep(d) => assert DisposeOk(s, d);
    case CleanUp(p) => assert PublishOk(s, s.publishes[p]);
    case _ =>
  }

  lemma DisposeKept(s: State, e: Event, d: nat)
    requires Enabled(s, e) && Inv(s) && d < |Step(s, e).disposes|
    ensures DisposeOk(Step(s, e), d)
  {
    var s' := Step(s, e);
    StepGrows(s, e);
    if d == |s.disposes| {
    } else if e == DisposeStep(d) {
      assert DisposeOk(s, d);
    } else {
      assert DisposeOk(s, d);
      DisposeGrows(s, s', d);
    }
  }

  lemma TokenKept(s: State, e: Event, k: nat)
    requires Enabled(s, e) && Inv(s)
    ensures TokenOk(Step(s, e), k)
  {
    StepGrows(s, e);
    assert TokenOk(s, k);
    if e.DisposeStep? && s.disposes[e.d].sub == k {
      assert DisposeOk(s, e.d);
    } else {
      TokenGrows(s, Step(s, e), k);
    }
  }

  lemma PublishKept(s: State, e: Event, p: nat)
    requires Enabled(s, e) && Inv(s) && p < |Step(s, e).publishes|
    ensures PublishOk(Step(s, e), Step(s, e).publishes[p])
  {
    var s' := Step(s, e);
    StepGrows(s, e);
    if p == |s.publishes| {
      assert s'.publishes[p].snapshot[..0] == [];
    } else {
      assert PublishOk(s, s.publishes[p]);
      if e == Look(p) {
        LookKeeps(s, s.publishes[p]);
      }
      PublishGrows(s, s', s'.publishes[p]);
    }
  }

  lemma InvKept(s: State, e: Event)
    requires Enabled(s, e) && Inv(s)
    ensures Inv(Step(s, e))
  {
    hide Step;
    var s' := Step(s, e);
    ListKept(s, e);
    ReleasedKept(s, e);
    forall d | 0 <= d < |s'.disposes| ensures DisposeOk(s', d) { DisposeKept(s, e, d); }
    forall k: nat ensures TokenOk(s', k) { TokenKept(s, e, k); }
    forall p | 0 <= p < |s'.publishes| ensures PublishOk(s', s'.publishes[p]) { PublishKept(s, e, p); }
  }

  // --- Runs ---

  function Start(): State { State(0, [], {}, {}, {}, map[], map[], [], []) }

  ghost predicate Run(states: seq<State>, events: seq<Event>)
  {
    && |states| == |events| + 1 && states[0] == Start()
    && forall k | 0 <= k < |events| :: StepAt(states, events, k)
  }

  ghost predicate StepAt(states: seq<State>, events: seq<Event>, k: nat)
    requires |states| == |events| + 1 && k < |events|
  {
    Enabled(states[k], events[k]) && states[k + 1] == Step(states[k], events[k])
  }

  /** Whatever has happened: a subscription can be added and a publish begun at any time, a subscription
      that exists can be disposed of, and a publish looks at the next entry of its snapshot until it is
      through, and then, and only then, cleans up. */
  lemma GoesOn(states: seq<State>, events: seq<Event>, e: Event)
    requires Run(states, events)
    ensures var s := states[|events|];
            match e
            case Add => Run(states + [Step(s, e)], events + [e])
            case BeginPublish => Run(states + [Step(s, e)], events + [e])
            case BeginDispose(k) => k < s.next <==> Enabled(s, e) && Run(states + [Step(s, e)], events + [e])
            case Look(p) =>
              p < |s.publishes| && s.publishes[p].pos < |s.publishes[p].snapshot|
              <==> Enabled(s, e) && Run(states + [Step(s, e)], events + [e])
            case CleanUp(p) =>
              p < |s.publishes| && s.publishes[p].pos == |s.publishes[p].snapshot|
              <==> Enabled(s, e) && Run(states + [Step(s, e)], events + [e])
            case _ => true
  {
    if Enabled(states[|events|], e) {
      var states', events' := states + [Step(states[|events|], e)], events + [e];
      forall k | 0 <= k < |events'| ensures StepAt(states', events', k) {
        if k < |events| {
          assert StepAt(states, events, k);
        }
      }
    }
  }

  /** In every run the list holds what was added and not removed, in the order of adding, and only
      subscriptions whose Dispose has begun were removed or collected. */
  lemma {:induction false} RunKeepsInv(states: seq<State>, events: seq<Event>, k: nat)
    requires Run(states, events) && k < |states|
    ensures Inv(states[k])
    decreases k
  {
    if k != 0 {
      RunKeepsInv(states, events, k - 1);
      assert StepAt(states, events, k - 1);
      InvKept(states[k - 1], events[k - 1]);
    }
  }

  lemma {:induction false} RunGrows(states: seq<State>, events: seq<Event>, k: nat, n: nat)
    requires Run(states, events) && k <= n < |states|
    ensures Grows(states[k], states[n]) && |states[k].publishes| <= |states[n].publishes|
    ensures forall p | 0 <= p < |states[k].publishes| :: states[n].publishes[p].snapshot == states[k].publishes[p].snapshot
    decreases n - k
  {
    if k < n {
      assert StepAt(states, events, k);
      StepGrows(states[k], events[k]);
      RunGrows(states, events, k + 1, n);
    }
  }

  /** Every subscription is in the list of the next snapshot until its release. */
  lemma LiveIsListed(s: State, x: nat)
    requires Inv(s) && x < s.next && x !in s.released
    ensures x in s.list
  {
  }

  /** What a finished publish delivered: it goes through the list as it was when the publish began, in
      its order, and reaches each subscription at most once; of all that were added before, it misses
      none whose Dispose has not got as far as the release by the time the publish is through. */
  lemma PublishReachesAllLive(states: seq<State>, events: seq<Event>, k: nat, n: nat, p: nat)
    requires Run(states, events) && k < n < |states| && events[k] == BeginPublish && p == |states[k].publishes|
    ensures p < |states[n].publishes|
    ensures var c := states[n].publishes[p];
            && c.snapshot == states[k].list && Increasing(c.delivered)
            && (forall x | x in c.delivered :: x in states[k].list)
            && (c.pos == |c.snapshot| ==> forall x: nat | x < states[k].next && x !in states[n].released :: x in c.delivered)
  {
    assert StepAt(states, events, k);
    RunGrows(states, events, k + 1, n);
    RunKeepsInv(states, events, n);
    var c := states[n].publishes[p];
    assert PublishOk(states[n], c);
    if c.pos == |c.snapshot| {
      assert c.snapshot[..c.pos] == c.snapshot;
      RunKeepsInv(states, events, k);
      RunGrows(states, events, k, n);
      forall x: nat | x < states[k].next && x !in states[n].released ensures x in c.snapshot {
        LiveIsListed(states[k], x);
      }
    }
  }

  /** What a publish has seen it does not forget. */
  lemma {:induction false} LooksStay(states: seq<State>, events: seq<Event>, k: nat, n: nat, p: nat)
    requires Run(states, events) && k <= n < |states| && p < |states[k].publishes|
    ensures p < |states[n].publishes|
    ensures states[k].publishes[p].delivered <= states[n].publishes[p].delivered
    ensures states[k].publishes[p].dead <= states[n].publishes[p].dead
    decreases n - k
  {
    if k < n {
      assert StepAt(states, events, k);
      LooksStay(states, events, k + 1, n, p);
    }
  }

  /** A look calls the handler exactly if it is still there, and that is settled for good. */
  lemma LookedAtExactly(states: seq<State>, events: seq<Event>, j: nat, n: nat, p: nat, x: nat)
    requires Run(states, events) && j < n < |states| && events[j] == Look(p)
    requires p < |states[j].publishes| && states[j].publishes[p].pos < |states[j].publishes[p].snapshot|
    requires x == states[j].publishes[p].snapshot[states[j].publishes[p].pos]
    ensures p < |states[n].publishes|
    ensures if x in states[j].collected then x in states[n].publishes[p].dead && x !in states[n].publishes[p].delivered
            else x in states[n].publishes[p].delivered && x !in states[n].publishes[p].dead
  {
    assert StepAt(states, events, j);
    LooksStay(states, events, j + 1, n, p);
    RunKeepsInv(states, events, n);
    assert PublishOk(states[n], states[n].publishes[p]);
    var c := states[j + 1].publishes[p];
    if x in states[j].collected {
      assert c.dead[|c.dead| - 1] == x && c.dead[|c.dead| - 1] in states[n].publishes[p].dead;
    } else {
      assert c.delivered[|c.delivered| - 1] == x && c.delivered[|c.delivered| - 1] in states[n].publishes[p].delivered;
    }
  }

  /** A handler that was collected before a publish looked at it is not called by it, and is out of the
      list for good when the publish has cleaned up. */
  lemma ExpiredIsTakenOut(states: seq<State>, events: seq<Event>, i: nat, j: nat, k: nat, n: nat, p: nat, x: nat)
    requires Run(states, events) && i < j < k < n < |states|
    requires events[i] == Collect(x) && events[j] == Look(p) && events[k] == CleanUp(p)
    requires p < |states[j].publishes| && states[j].publishes[p].pos < |states[j].publishes[p].snapshot|
    requires x == states[j].publishes[p].snapshot[states[j].publishes[p].pos]
    ensures p < |states[n].publishes| && x !in states[n].publishes[p].delivered && x !in states[n].list
  {
    assert StepAt(states, events, i) && StepAt(states, events, k);
    RunGrows(states, events, i + 1, j);
    LookedAtExactly(states, events, j, k, p, x);
    LookedAtExactly(states, events, j, n, p, x);
    RunGrows(states, events, k + 1, n);
    RunKeepsInv(states, events, n);
    assert x in states[k + 1].removed;
  }

  /** All calls of Dispose on a token are through. */
  ghost predicate Quiet(s: State, k: nat)
  {
    forall d | 0 <= d < |s.disposes| && s.disposes[d].sub == k :: s.disposes[d].step == 4
  }

  ghost predicate SomeWinner(s: State, k: nat)
  {
    exists d :: 0 <= d < |s.disposes| && s.disposes[d].sub == k && Won(s, k, d)
  }

  /** When the calls of Dispose on a token are through, its subscription is removed and released if
      and only if a single one of them made both exchanges. */
  lemma RemovedExactly(s: State, k: nat)
    requires Inv(s) && k < s.next && Quiet(s, k)
    ensures k in s.released <==> SomeWinner(s, k)
    ensures k !in s.list <==> SomeWinner(s, k)
  {
    assert TokenOk(s, k);
    if SomeWinner(s, k) {
      var d :| 0 <= d < |s.disposes| && s.disposes[d].sub == k && Won(s, k, d);
      assert DisposeOk(s, d);
    }
  }

  /** A call of Dispose that makes both its exchanges before any other call makes one removes the
      subscription, whatever happens meanwhile and afterwards. */
  lemma FirstAloneRemoves(states: seq<State>, events: seq<Event>, k: nat, n: nat, d: nat)
    requires Run(states, events) && k <= n < |states| && d < |states[k].disposes| && states[k].disposes[d].step >= 2
    requires forall c | 0 <= c < |states[k].disposes| && c != d && states[k].disposes[c].sub == states[k].disposes[d].sub ::
               states[k].disposes[c].step == 0
    requires Quiet(states[n], states[k].disposes[d].sub)
    ensures states[k].disposes[d].sub !in states[n].list
  {
    var s, x := states[k], states[k].disposes[d].sub;
    RunKeepsInv(states, events, k);
    RunKeepsInv(states, events, n);
    RunGrows(states, events, k, n);
    assert DisposeOk(s, d) && TokenOk(s, x) && DisposeOk(states[n], d);
    assert Won(s, x, d);
  }

  /** Two exchanges that went to different calls are never made good. */
  lemma {:induction false} LostForever(states: seq<State>, events: seq<Event>, k: nat, n: nat, x: nat)
    requires Run(states, events) && k <= n < |states|
    requires x in states[k].busBy && x in states[k].subBy && states[k].busBy[x] != states[k].subBy[x]
    ensures x in states[n].list && x !in states[n].released
  {
    RunGrows(states, events, k, n);
    RunKeepsInv(states, events, n);
    assert TokenOk(states[n], x);
    assert DisposeOk(states[n], states[n].busBy[x]);
  }

  /** It happens: two threads dispose of the same token; the first gets the bus out of it and the
      second the subscription, so that neither removes it. */
  lemma DisposeRace() returns (states: seq<State>, events: seq<Event>)
    ensures Run(states, events) && |states| == 10
    ensures Quiet(states[9], 0) && |states[9].disposes| == 2 && states[9].disposes[0].sub == 0
    ensures 0 in states[9].list && 0 !in states[9].released
  {
    var s0 := Start();
    var s1 := Step(s0, Add);
    var s2 := Step(s1, BeginDispose(0));
    var s3 := Step(s2, BeginDispose(0));
    var s4 := Step(s3, DisposeStep(0));
    var s5 := Step(s4, DisposeStep(1));
    var s6 := Step(s5, DisposeStep(1));
    var s7 := Step(s6, DisposeStep(0));
    var s8 := Step(s7, DisposeStep(0));
    var s9 := Step(s8, DisposeStep(1));
    events := [Add, BeginDispose(0), BeginDispose(0), DisposeStep(0), DisposeStep(1), DisposeStep(1), DisposeStep(0),
               DisposeStep(0), DisposeStep(1)];
    states := [s0, s1, s2, s3, s4, s5, s6, s7, s8, s9];
    assert s7.busBy[0] == 0 && s7.subBy[0] == 1;
    assert s9.disposes == [DisposeCall(0, 4), DisposeCall(0, 4)];
  }

  // --- The objects, one operation at a time ---

  /** A subscription: whether its StrongRef is set, and whether its weak reference still has a target. */
  class Subscription {
    var strong: bool
    var alive: bool

    constructor ()
      ensures strong && alive
    {
      strong, alive := true, true;
    }
  }

  /** The subscriptions whose handler is still there, in order. */
  ghost function Alive(list: seq<Subscription>): seq<Subscription>
    reads list
  {
    if list == [] then [] else Alive(list[..|list| - 1]) + (if list[|list| - 1].alive then [list[|list| - 1]] else [])
  }

  ghost function Dead(list: seq<Subscription>): seq<Subscription>
    reads list
  {
    if list == [] then [] else Dead(list[..|list| - 1]) + (if list[|list| - 1].alive then [] else [list[|list| - 1]])
  }

  lemma OneMoreLook(list: seq<Subscription>, i: nat)
    requires i < |list|
    ensures Alive(list[..i + 1]) == Alive(list[..i]) + (if list[i].alive then [list[i]] else [])
    ensures Dead(list[..i + 1]) == Dead(list[..i]) + (if list[i].alive then [] else [list[i]])
  {
    assert list[..i + 1][..i] == list[..i];
  }

  lemma {:induction false} WithoutPrefix(before: seq<Subscription>, x: Subscription, after: seq<Subscription>)
    requires x !in before
    ensures Without(before + [x] + after, x) == before + after
    ensures x !in after ==> Without(before + after, x) == before + after
    decreases |before|
  {
    if before == [] {
      assert (before + [x] + after)[1..] == after && before + after == after;
      NotThere(after, x);
    } else {
      assert (before + [x] + after)[1..] == before[1..] + [x] + after && (before + after)[1..] == before[1..] + after;
      WithoutPrefix(before[1..], x, after);
    }
  }

  lemma {:induction false} NotThere(list: seq<Subscription>, x: Subscription)
    ensures x !in list ==> Without(list, x) == list
    decreases |list|
  {
    if list != [] {
      NotThere(list[1..], x);
    }
  }

  class Bus {
    var list: seq<Subscription>

    constructor ()
      ensures list == []
    {
      list := [];
    }

    method AddSubscription() returns (sub: Subscription)
      modifies this
      ensures list == old(list) + [sub] && fresh(sub) && sub.strong
    {
      sub := new Subscription();
      list := list + [sub];
    }

    /** List.Remove. */
    method RemoveSubscription(sub: Subscription)
      modifies this
      ensures list == Without(old(list), sub)
    {
      var i := 0;
      while i < |list| && list[i] != sub
        invariant i <= |list| && sub !in list[..i] && list == old(list)
      {
        i := i + 1;
      }
      if i < |list| {
        assert list == list[..i] + [sub] + list[i + 1..];
        WithoutPrefix(list[..i], sub, list[i + 1..]);
        list := list[..i] + list[i + 1..];
      } else {
        assert list == list[..i];
        NotThere(list, sub);
      }
    }

    /** InvokeSubscribers, undisturbed: every handler still there is called once and in order, and the
        expired subscriptions are taken out. */
    method InvokeSubscribers() returns (delivered: seq<Subscription>)
      modifies this
      ensures delivered == Alive(old(list)) && list == WithoutAll(old(list), Dead(old(list)))
    {
      var snapshot, dead := list, [];
      delivered := [];
      for i := 0 to |snapshot|
        invariant list == snapshot == old(list)
        invariant delivered == Alive(snapshot[..i]) && dead == Dead(snapshot[..i])
      {
        OneMoreLook(snapshot, i);
        if snapshot[i].alive {
          delivered := delivered + [snapshot[i]];
        } else {
          dead := dead + [snapshot[i]];
        }
      }
      assert snapshot[..|snapshot|] == snapshot;
      for j := 0 to |dead|
        invariant WithoutAll(snapshot, dead) == WithoutAll(list, dead[j..])
      {
        RemoveSubscription(dead[j]);
        assert dead[j..][1..] == dead[j + 1..];
      }
    }
  }
}
