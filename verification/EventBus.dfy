/**
 The publish/subscribe bus of pkg/utils/bus.go as a transition system: any number of goroutines
 subscribing, unsubscribing, publishing and receiving. Sections under the lock, the atomic
 counter, and each channel operation are single steps.
 */
module EventBus {

  type Event = nat

  /** A subscriber's channel: capacity, all events ever sent to it, how many still wait in it, how
      often it was closed, and how many receivers are blocked on it. */
  datatype Chan = Chan(cap: nat, log: seq<Event>, waiting: nat, closes: nat, parked: nat)

  /** A Subscribe call owns channel number `c` equal to its own number: it has made the channel;
      it has drawn an id; it has entered the map. */
  datatype Subscriber = Made | Drawn(id: nat) | Entered(id: nat)

  /** A Publish call after its snapshot, with the channels it has not yet tried. */
  datatype Publisher = Publisher(event: Event, pending: seq<nat>)

  datatype State = State(
    nextId: nat, subs: map<nat, nat>, chans: seq<Chan>, subscribers: seq<Subscriber>,
    publishers: seq<Publisher>, published: seq<Event>, panicked: bool)

  datatype Action =
    | Make(cap: nat)                           // make(chan T, buf)
    | Draw(c: nat)                             // nextID.Add(1)
    | Enter(c: nat)                            // subs[id] = c
    | Unsubscribe(c: nat)                      // the returned closure
    | Snapshot(event: Event, order: seq<nat>)  // Publish, under the read lock, in map order
    | TrySend(p: nat)                          // Publish, one select
    | Receive(c: nat)
    | Park(c: nat)                             // a receiver finds the channel empty and blocks

  function Init(): State {
    State(0, map[], [], [], [], [], false)
  }

  ghost predicate NoRepeats(xs: seq<nat>) {
    forall i, j :: 0 <= i < j < |xs| ==> xs[i] != xs[j]
  }

  ghost predicate Enabled(s: State, a: Action) {
    && !s.panicked && |s.chans| == |s.subscribers|
    && match a
       case Make(_) => true
       case Draw(c) => c < |s.chans| && s.subscribers[c] == Made
       case Enter(c) => c < |s.chans| && s.subscribers[c].Drawn?
       case Unsubscribe(c) => c < |s.chans| && s.subscribers[c].Entered?
       case Snapshot(_, order) => NoRepeats(order) && forall c :: c in order <==> c in s.subs.Values
       case TrySend(p) => p < |s.publishers| && s.publishers[p].pending != [] && s.publishers[p].pending[0] < |s.chans|
       case Receive(c) => c < |s.chans| && s.chans[c].waiting > 0
       case Park(c) => c < |s.chans| && s.chans[c].waiting == 0 && s.chans[c].closes == 0
  }

  /** A send in a select with a default: a blocked receiver gets the event at once, whatever the
      capacity; else it waits in the channel if there is room; else it is dropped. */
  function Offer(ch: Chan, e: Event): Chan {
    if ch.parked > 0 then ch.(log := ch.log + [e], parked := ch.parked - 1)
    else if ch.waiting < ch.cap then ch.(log := ch.log + [e], waiting := ch.waiting + 1)
    else ch
  }

  /** Closing wakes all blocked receivers. */
  function Closed(ch: Chan): Chan {
    ch.(closes := ch.closes + 1, parked := 0)
  }

  function Apply(s: State, a: Action): State
    requires Enabled(s, a)
  {
    match a
    case Make(cap) => s.(chans := s.chans + [Chan(cap, [], 0, 0, 0)], subscribers := s.subscribers + [Made])
    case Draw(c) => s.(nextId := s.nextId + 1, subscribers := s.subscribers[c := Drawn(s.nextId + 1)])
    case Enter(c) =>
      var id := s.subscribers[c].id;
      s.(subs := s.subs[id := c], subscribers := s.subscribers[c := Entered(id)])
    case Unsubscribe(c) =>
      var id := s.subscribers[c].id;
      if id !in s.subs || s.subs[id] >= |s.chans| then s else
      var ch := s.subs[id];
      s.(subs := s.subs - {id}, chans := s.chans[ch := Closed(s.chans[ch])])
    case Snapshot(e, order) =>
      s.(publishers := s.publishers + [Publisher(e, order)], published := s.published + [e])
    case TrySend(p) =>
      var pub := s.publishers[p];
      var c := pub.pending[0];
      if s.chans[c].closes > 0 then s.(panicked := true) else
      s.(publishers := s.publishers[p := pub.(pending := pub.pending[1..])],
         chans := s.chans[c := Offer(s.chans[c], pub.event)])
    case Receive(c) => s.(chans := s.chans[c := s.chans[c].(waiting := s.chans[c].waiting - 1)])
    case Park(c) => s.(chans := s.chans[c := s.chans[c].(parked := s.chans[c].parked + 1)])
  }

  ghost predicate IsRun(actions: seq<Action>, states: seq<State>) {
    && |states| == |actions| + 1
    && states[0] == Init()
    && forall k :: 0 <= k < |actions| ==>
         Enabled(states[k], actions[k]) && states[k + 1] == Apply(states[k], actions[k])
  }

  // ----- every interleaving --------------------------------------------------------------------

  predicate HasId(s: State, c: nat, id: nat) {
    c < |s.subscribers| && !s.subscribers[c].Made? && s.subscribers[c].id == id
  }

  /** Ids are unique and at most the counter; the map leads an id to the channel of the subscriber
      that drew it. */
  ghost predicate IdsInv(s: State) {
    && |s.chans| == |s.subscribers|
    && (forall c: nat, d: nat, id: nat :: HasId(s, c, id) && HasId(s, d, id) ==> c == d)
    && (forall c: nat, id: nat :: HasId(s, c, id) ==> id <= s.nextId)
    && (forall id :: id in s.subs ==> HasId(s, s.subs[id], id) && s.subscribers[s.subs[id]].Entered?)
  }

  /** A channel in the map is open and one that has left it was closed once. */
  predicate ChanInv(s: State, c: nat)
    requires c < |s.chans| == |s.subscribers|
  {
    var ch := s.chans[c];
    && ch.waiting <= ch.cap && ch.waiting <= |ch.log| && (ch.parked > 0 ==> ch.waiting == 0 && ch.closes == 0)
    && ch.closes == (if s.subscribers[c].Entered? && s.subscribers[c].id !in s.subs then 1 else 0)
  }

  ghost predicate PendingInv(s: State, p: nat)
    requires p < |s.publishers|
  {
    var pending := s.publishers[p].pending;
    && NoRepeats(pending)
    && forall i :: 0 <= i < |pending| ==> pending[i] < |s.subscribers| && s.subscribers[pending[i]].Entered?
  }

  ghost predicate Inv(s: State) {
    && IdsInv(s)
    && (forall c: nat :: c < |s.chans| ==> ChanInv(s, c))
    && (forall p: nat :: p < |s.publishers| ==> PendingInv(s, p))
  }

  lemma StepIds(s: State, a: Action)
    requires IdsInv(s) && Enabled(s, a)
    ensures IdsInv(Apply(s, a))
  {
    var s' := Apply(s, a);
    assert forall c: nat, id: nat :: HasId(s', c, id) ==> HasId(s, c, id) || (a == Draw(c) && id == s.nextId + 1);
    assert forall c: nat, id: nat :: HasId(s, c, id) ==> HasId(s', c, id);
  }

  lemma StepChan(s: State, a: Action, c: nat)
    requires IdsInv(s) && Enabled(s, a) && c < |Apply(s, a).chans| == |Apply(s, a).subscribers|
    requires c < |s.chans| ==> ChanInv(s, c)
    ensures ChanInv(Apply(s, a), c)
  {
    if a.Unsubscribe? && s.subscribers[a.c].id in s.subs {
      assert HasId(s, a.c, s.subscribers[a.c].id);
    }
    if a.Enter? {
      assert HasId(s, a.c, s.subscribers[a.c].id);
      assert c < |s.chans| && c != a.c && s.subscribers[c].Entered? ==> HasId(s, c, s.subscribers[c].id);
    }
    if a.Unsubscribe? && c < |s.chans| && s.subscribers[c].Entered? {
      assert HasId(s, c, s.subscribers[c].id);
    }
  }

  lemma StepPending(s: State, a: Action, p: nat)
    requires IdsInv(s) && Enabled(s, a) && p < |Apply(s, a).publishers|
    requires p < |s.publishers| ==> PendingInv(s, p)
    ensures PendingInv(Apply(s, a), p)
  {
    var s' := Apply(s, a);
    assert forall c: nat :: c < |s.chans| && s.subscribers[c].Entered? ==> c < |s'.chans| && s'.subscribers[c].Entered?;
    if a.Snapshot? && p == |s.publishers| {
      forall i | 0 <= i < |a.order|
        ensures a.order[i] < |s.chans| && s.subscribers[a.order[i]].Entered?
      {
        assert a.order[i] in s.subs.Values;
      }
    }
  }

  lemma StepInv(s: State, a: Action)
    requires Inv(s) && Enabled(s, a)
    ensures Inv(Apply(s, a))
  {
    StepIds(s, a);
    forall c: nat | c < |Apply(s, a).chans|
      ensures ChanInv(Apply(s, a), c)
    {
      StepChan(s, a, c);
    }
    forall p: nat | p < |Apply(s, a).publishers|
      ensures PendingInv(Apply(s, a), p)
    {
      StepPending(s, a, p);
    }
  }

  lemma {:induction false} RunInv(actions: seq<Action>, states: seq<State>, k: nat)
    requires IsRun(actions, states) && k < |states|
    ensures Inv(states[k])
  {
    if k > 0 {
      RunInv(actions, states, k - 1);
      StepInv(states[k - 1], actions[k - 1]);
    }
  }

  /** In every interleaving, with any number of publishers: two subscribers never have the same
      id, a channel in the map is open, no channel is closed twice, and no more events wait in a
      channel than it has room for. */
  lemma BusSafety(actions: seq<Action>, states: seq<State>, k: nat)
    requires IsRun(actions, states) && k < |states|
    ensures var s := states[k];
            && (forall c: nat, d: nat, id: nat :: HasId(s, c, id) && HasId(s, d, id) ==> c == d)
            && (forall id :: id in s.subs ==> s.subs[id] < |s.chans| && s.chans[s.subs[id]].closes == 0)
            && (forall c :: 0 <= c < |s.chans| ==> s.chans[c].closes <= 1 && s.chans[c].waiting <= s.chans[c].cap)
  {
    RunInv(actions, states, k);
    var s := states[k];
    forall id | id in s.subs
      ensures s.subs[id] < |s.chans| && s.chans[s.subs[id]].closes == 0
    {
      assert HasId(s, s.subs[id], id) && ChanInv(s, s.subs[id]);
    }
    forall c: nat | c < |s.chans|
      ensures s.chans[c].closes <= 1 && s.chans[c].waiting <= s.chans[c].cap
    {
      assert ChanInv(s, c);
    }
  }

  // ----- publishing -------------------------------------------------------------------------------

  /** No unsubscribe of a channel that a Publish call still holds in its snapshot. */
  predicate NoRace(s: State, a: Action) {
    a.Unsubscribe? ==> forall p :: 0 <= p < |s.publishers| ==> a.c !in s.publishers[p].pending
  }

  /** At most one Publish call at a time. */
  predicate OneByOne(s: State, a: Action) {
    a.Snapshot? ==> forall p :: 0 <= p < |s.publishers| ==> s.publishers[p].pending == []
  }

  ghost predicate PendingOpen(s: State) {
    forall p, i :: 0 <= p < |s.publishers| && 0 <= i < |s.publishers[p].pending| ==>
      s.publishers[p].pending[i] < |s.chans| && s.chans[s.publishers[p].pending[i]].closes == 0
  }

  lemma StepOpen(s: State, a: Action)
    requires Inv(s) && PendingOpen(s) && Enabled(s, a) && NoRace(s, a)
    ensures PendingOpen(Apply(s, a)) && !Apply(s, a).panicked
  {
    var s' := Apply(s, a);
    if a.Unsubscribe? && s.subscribers[a.c].id in s.subs {
      assert HasId(s, a.c, s.subscribers[a.c].id);
      assert s.subs[s.subscribers[a.c].id] == a.c;
    }
    if a.Snapshot? {
      forall i | 0 <= i < |a.order|
        ensures a.order[i] < |s.chans| && s.chans[a.order[i]].closes == 0
      {
        assert a.order[i] in s.subs.Values;
        var id :| id in s.subs && s.subs[id] == a.order[i];
        assert HasId(s, s.subs[id], id) && ChanInv(s, s.subs[id]);
      }
    }
  }

  lemma {:induction false} RunOpen(actions: seq<Action>, states: seq<State>, k: nat)
    requires IsRun(actions, states) && k < |states|
    requires forall j :: 0 <= j < k ==> NoRace(states[j], actions[j])
    ensures PendingOpen(states[k]) && !states[k].panicked
  {
    if k > 0 {
      RunOpen(actions, states, k - 1);
      RunInv(actions, states, k - 1);
      StepOpen(states[k - 1], actions[k - 1]);
    }
  }

  /** A Publish call panics exactly when the channel it is about to try was unsubscribed after the
      snapshot was taken: channels of a snapshot are open when it is taken. */
  lemma PanicIffUnsubscribed(actions: seq<Action>, states: seq<State>, k: nat, p: nat)
    requires IsRun(actions, states) && k < |actions| && actions[k] == TrySend(p)
    ensures p < |states[k].publishers| && states[k].publishers[p].pending != []
    ensures var c := states[k].publishers[p].pending[0];
            && c < |states[k].subscribers| && states[k].subscribers[c].Entered?
            && (states[k + 1].panicked <==> states[k].subscribers[c].id !in states[k].subs)
  {
    RunInv(actions, states, k);
    var s := states[k];
    assert Enabled(s, actions[k]);
    assert PendingInv(s, p) && ChanInv(s, s.publishers[p].pending[0]);
  }

  /** `xs` arises from `ys` by leaving elements out. */
  predicate Subsequence(xs: seq<Event>, ys: seq<Event>)
    decreases |ys|
  {
    if xs == [] || ys == [] then xs == [] else
    || (xs[|xs| - 1] == ys[|ys| - 1] && Subsequence(xs[..|xs| - 1], ys[..|ys| - 1]))
    || Subsequence(xs, ys[..|ys| - 1])
  }

  /** The events channel `c` may already have been offered: all published ones, without the one
      that is being published and has not yet been tried on it. */
  function Offered(s: State, c: nat): seq<Event> {
    if s.publishers != [] && s.published != [] && c in s.publishers[|s.publishers| - 1].pending
    then s.published[..|s.published| - 1] else s.published
  }

  ghost predicate DeliveryInv(s: State) {
    var n := |s.publishers|;
    && n == |s.published|
    && (forall p :: 0 <= p < n - 1 ==> s.publishers[p].pending == [])
    && (forall p :: 0 <= p < n ==> s.publishers[p].event == s.published[p])
    && (forall c: nat :: c < |s.chans| ==> Subsequence(s.chans[c].log, Offered(s, c)))
  }

  lemma Rest(pending: seq<nat>, c: nat)
    requires pending != [] && NoRepeats(pending)
    ensures c in pending[1..] <==> c in pending && c != pending[0]
  {
  }

  /** What a send without panic does to channel `c`: the channel tried gets the last event published. */
  lemma TrySendEffect(s: State, p: nat, c: nat)
    requires Enabled(s, TrySend(p)) && !Apply(s, TrySend(p)).panicked && c < |s.chans|
    requires p == |s.publishers| - 1 == |s.published| - 1 && PendingInv(s, p)
    requires s.publishers[p].event == s.published[p]
    ensures var s', tried := Apply(s, TrySend(p)), s.publishers[p].pending[0] == c;
            && s'.published == s.published && s'.subs == s.subs && s'.subscribers == s.subscribers
            && s'.chans[c] == (if tried then Offer(s.chans[c], s.published[p]) else s.chans[c])
            && (tried ==> Offered(s, c) == s.published[..p] && Offered(s', c) == s.published)
            && (!tried ==> Offered(s', c) == Offered(s, c))
  {
    var s', pending := Apply(s, TrySend(p)), s.publishers[p].pending;
    Rest(pending, c);
    assert s'.publishers[p].pending == pending[1..];
  }

  lemma SubsequenceGrows(xs: seq<Event>, ys: seq<Event>, e: Event)
    requires Subsequence(xs, ys)
    ensures Subsequence(xs, ys + [e]) && Subsequence(xs + [e], ys + [e])
  {
    assert (ys + [e])[..|ys|] == ys && (xs + [e])[..|xs|] == xs;
  }

  lemma TrySendOn(s: State, p: nat, c: nat)
    requires Enabled(s, TrySend(p)) && !Apply(s, TrySend(p)).panicked && c < |s.chans|
    requires p == |s.publishers| - 1 == |s.published| - 1 && PendingInv(s, p)
    requires s.publishers[p].event == s.published[p] && Subsequence(s.chans[c].log, Offered(s, c))
    ensures Subsequence(Apply(s, TrySend(p)).chans[c].log, Offered(Apply(s, TrySend(p)), c))
  {
    TrySendEffect(s, p, c);
    if s.publishers[p].pending[0] == c {
      SubsequenceGrows(s.chans[c].log, s.published[..p], s.published[p]);
      assert s.published == s.published[..p] + [s.published[p]];
    }
  }

  lemma TrySendDelivers(s: State, p: nat)
    requires DeliveryInv(s) && Enabled(s, TrySend(p)) && PendingInv(s, p)
    ensures DeliveryInv(Apply(s, TrySend(p)))
  {
    var s' := Apply(s, TrySend(p));
    assert p == |s.publishers| - 1;
    forall c: nat | c < |s'.chans|
      ensures Subsequence(s'.chans[c].log, Offered(s', c))
    {
      if s'.panicked {
        assert Offered(s', c) == Offered(s, c);
      } else {
        TrySendOn(s, p, c);
      }
    }
  }

  lemma SnapshotOn(s: State, e: Event, order: seq<nat>, c: nat)
    requires DeliveryInv(s) && Enabled(s, Snapshot(e, order)) && OneByOne(s, Snapshot(e, order)) && c < |s.chans|
    ensures Subsequence(s.chans[c].log, Offered(Apply(s, Snapshot(e, order)), c))
  {
    var s' := Apply(s, Snapshot(e, order));
    assert Subsequence(s.chans[c].log, Offered(s, c)) && Offered(s, c) == s.published;
    assert s'.published[..|s'.published| - 1] == s.published;
  }

  lemma SnapshotDelivers(s: State, e: Event, order: seq<nat>)
    requires DeliveryInv(s) && Enabled(s, Snapshot(e, order)) && OneByOne(s, Snapshot(e, order))
    ensures DeliveryInv(Apply(s, Snapshot(e, order)))
  {
    var s' := Apply(s, Snapshot(e, order));
    forall c: nat | c < |s'.chans|
      ensures Subsequence(s'.chans[c].log, Offered(s', c))
    {
      SnapshotOn(s, e, order, c);
    }
  }

  lemma StepDelivers(s: State, a: Action)
    requires Inv(s) && DeliveryInv(s) && Enabled(s, a) && OneByOne(s, a)
    ensures DeliveryInv(Apply(s, a))
  {
    match a {
      case TrySend(p) => TrySendDelivers(s, p);
      case Snapshot(e, order) => SnapshotDelivers(s, e, order);
      case _ =>
        SameLogs(s, a);
        QuietDelivers(s, Apply(s, a));
    }
  }

  /** A step outside Publish touches neither the events published nor what a channel has got. */
  lemma SameLogs(s: State, a: Action)
    requires Enabled(s, a) && !a.TrySend? && !a.Snapshot?
    ensures Apply(s, a).publishers == s.publishers && Apply(s, a).published == s.published
    ensures |s.chans| <= |Apply(s, a).chans|
    ensures forall c :: 0 <= c < |Apply(s, a).chans| ==>
              Apply(s, a).chans[c].log == if c < |s.chans| then s.chans[c].log else []
  {
  }

  lemma QuietDelivers(s: State, s': State)
    requires DeliveryInv(s) && s'.publishers == s.publishers && s'.published == s.published && |s.chans| <= |s'.chans|
    requires forall c :: 0 <= c < |s'.chans| ==> s'.chans[c].log == if c < |s.chans| then s.chans[c].log else []
    ensures DeliveryInv(s')
  {
  }

  lemma {:induction false} RunDelivers(actions: seq<Action>, states: seq<State>, k: nat)
    requires IsRun(actions, states) && k < |states|
    requires forall j :: 0 <= j < k ==> OneByOne(states[j], actions[j])
    ensures DeliveryInv(states[k])
  {
    if k > 0 {
      RunDelivers(actions, states, k - 1);
      RunInv(actions, states, k - 1);
      StepDelivers(states[k - 1], actions[k - 1]);
    }
  }

  lemma {:induction false} PrefixSubsequence(xs: seq<Event>, ys: seq<Event>, k: nat)
    requires k <= |xs| && Subsequence(xs, ys)
    ensures Subsequence(xs[..k], ys)
    decreases |ys|, |xs|
  {
    if k == |xs| {
      assert xs[..k] == xs;
    } else if k > 0 {
      var x, y := xs[..|xs| - 1], ys[..|ys| - 1];
      if xs[|xs| - 1] == ys[|ys| - 1] && Subsequence(x, y) {
        PrefixSubsequence(x, y, k);
        assert x[..k] == xs[..k];
      } else {
        PrefixSubsequence(xs, y, k);
      }
    }
  }

  /** With Publish calls one by one and no unsubscribe between a snapshot and its sends: nothing
      panics, a Publish call can always go on, and what a subscriber has received is a
      subsequence of what was published. */
  lemma DeliversSubsequence(actions: seq<Action>, states: seq<State>, k: nat)
    requires IsRun(actions, states) && k < |states|
    requires forall j :: 0 <= j < k ==> OneByOne(states[j], actions[j]) && NoRace(states[j], actions[j])
    ensures var s := states[k];
            && !s.panicked
            && (forall p :: 0 <= p < |s.publishers| && s.publishers[p].pending != [] ==> Enabled(s, TrySend(p)))
            && (forall c :: 0 <= c < |s.chans| ==>
                  && s.chans[c].waiting <= |s.chans[c].log|
                  && Subsequence(s.chans[c].log[..|s.chans[c].log| - s.chans[c].waiting], s.published))
  {
    var s := states[k];
    RunOpen(actions, states, k);
    RunDelivers(actions, states, k);
    RunInv(actions, states, k);
    forall p: nat | p < |s.publishers| && s.publishers[p].pending != []
      ensures Enabled(s, TrySend(p))
    {
      assert PendingInv(s, p);
    }
    forall c: nat | c < |s.chans|
      ensures s.chans[c].waiting <= |s.chans[c].log|
      ensures Subsequence(s.chans[c].log[..|s.chans[c].log| - s.chans[c].waiting], s.published)
    {
      assert ChanInv(s, c);
      PrefixSubsequence(s.chans[c].log, s.published, |s.chans[c].log| - s.chans[c].waiting);
    }
  }

  // ----- nothing is lost while there is room ------------------------------------------------------

  /** The channel of `c` is in the map and has got every event offered to it from number `since` on. */
  ghost predicate GotAll(s: State, c: nat, since: nat) {
    && c < |s.chans| == |s.subscribers|
    && s.subscribers[c].Entered? && s.subscribers[c].id in s.subs && s.subs[s.subscribers[c].id] == c
    && since <= |Offered(s, c)| && s.chans[c].log == Offered(s, c)[since..]
  }

  /** Whether `c` stays subscribed, and has room or a blocked receiver if this step offers it an event. */
  predicate RoomFor(s: State, a: Action, c: nat) {
    && a != Unsubscribe(c)
    && (a.TrySend? && a.p < |s.publishers| && [c] <= s.publishers[a.p].pending && c < |s.chans| ==>
          s.chans[c].waiting < s.chans[c].cap || s.chans[c].parked > 0)
  }

  lemma TrySendGotAll(s: State, p: nat, c: nat, since: nat)
    requires Enabled(s, TrySend(p)) && !Apply(s, TrySend(p)).panicked && c < |s.chans|
    requires p == |s.publishers| - 1 == |s.published| - 1 && PendingInv(s, p)
    requires s.publishers[p].event == s.published[p] && GotAll(s, c, since) && RoomFor(s, TrySend(p), c)
    ensures GotAll(Apply(s, TrySend(p)), c, since)
  {
    TrySendEffect(s, p, c);
    if s.publishers[p].pending[0] == c {
      assert s.published[since..] == s.published[..p][since..] + [s.published[p]];
    }
  }

  lemma SnapshotGotAll(s: State, e: Event, order: seq<nat>, c: nat, since: nat)
    requires DeliveryInv(s) && GotAll(s, c, since)
    requires Enabled(s, Snapshot(e, order)) && OneByOne(s, Snapshot(e, order))
    ensures GotAll(Apply(s, Snapshot(e, order)), c, since)
  {
    var s' := Apply(s, Snapshot(e, order));
    assert c in s.subs.Values;
    assert Offered(s, c) == s.published && s'.published[..|s.published|] == s.published;
    assert s'.publishers[|s.publishers|].pending == order;
  }

  /** A step outside Publish neither touches what `c` has got nor takes it out of the map. */
  lemma QuietGotAll(s: State, a: Action, c: nat, since: nat)
    requires IdsInv(s) && GotAll(s, c, since) && Enabled(s, a) && !a.TrySend? && !a.Snapshot? && a != Unsubscribe(c)
    ensures GotAll(Apply(s, a), c, since)
  {
    SameLogs(s, a);
    assert HasId(s, c, s.subscribers[c].id);
    if a.Unsubscribe? || a.Enter? {
      assert HasId(s, a.c, s.subscribers[a.c].id);
    }
  }

  lemma StepGotAll(s: State, a: Action, c: nat, since: nat)
    requires Inv(s) && DeliveryInv(s) && GotAll(s, c, since) && Enabled(s, a) && OneByOne(s, a) && RoomFor(s, a, c)
    requires !Apply(s, a).panicked
    ensures GotAll(Apply(s, a), c, since)
  {
    if a.TrySend? {
      assert PendingInv(s, a.p);
      TrySendGotAll(s, a.p, c, since);
    } else if a.Snapshot? {
      SnapshotGotAll(s, a.event, a.order, c, since);
    } else {
      QuietGotAll(s, a, c, since);
    }
  }

  /** A channel that has never been in the map has got nothing. */
  ghost predicate Untouched(s: State) {
    forall c :: 0 <= c < |s.chans| == |s.subscribers| && !s.subscribers[c].Entered? ==> s.chans[c].log == []
  }

  lemma {:induction false} RunUntouched(actions: seq<Action>, states: seq<State>, k: nat)
    requires IsRun(actions, states) && k < |states|
    ensures Untouched(states[k])
  {
    if k > 0 {
      RunUntouched(actions, states, k - 1);
      RunInv(actions, states, k - 1);
      StepUntouched(states[k - 1], actions[k - 1]);
    }
  }

  lemma StepUntouched(s: State, a: Action)
    requires Inv(s) && Untouched(s) && Enabled(s, a)
    ensures Untouched(Apply(s, a))
  {
    if a.TrySend? {
      assert PendingInv(s, a.p);
    } else if !a.Snapshot? {
      SameLogs(s, a);
    }
  }

  lemma EnterGotAll(s: State, c: nat)
    requires Inv(s) && Untouched(s) && DeliveryInv(s) && Enabled(s, Enter(c))
    ensures GotAll(Apply(s, Enter(c)), c, |s.published|)
  {
    if s.publishers != [] {
      assert PendingInv(s, |s.publishers| - 1);
      assert c !in s.publishers[|s.publishers| - 1].pending;
    }
  }

  /** Under the same hypotheses, a subscriber whose channel has room or a blocked receiver whenever it
      is offered an event gets all events published since it entered the map, in order: from the one
      published next after that to the last one already offered to it. */
  lemma {:induction false} NothingLostWhileRoom(actions: seq<Action>, states: seq<State>, enter: nat, k: nat, c: nat)
    requires IsRun(actions, states) && enter < k < |states| && actions[enter] == Enter(c)
    requires forall j :: 0 <= j < k ==> OneByOne(states[j], actions[j]) && NoRace(states[j], actions[j])
    requires forall j :: enter < j < k ==> RoomFor(states[j], actions[j], c)
    ensures GotAll(states[k], c, |states[enter].published|)
    decreases k
  {
    var j := k - 1;
    var s, a := states[j], actions[j];
    RunInv(actions, states, j);
    RunDelivers(actions, states, j);
    if j == enter {
      RunUntouched(actions, states, j);
      EnterGotAll(s, c);
    } else {
      NothingLostWhileRoom(actions, states, enter, j, c);
      RunOpen(actions, states, j);
      StepOpen(s, a);
      StepGotAll(s, a, c, |states[enter].published|);
    }
  }

  // ----- who receives ----------------------------------------------------------------------------

  /** How many receivers came to channel `c`, to take what waits in it or to block. */
  function Receivers(actions: seq<Action>, c: nat): nat
    decreases |actions|
  {
    if actions == [] then 0 else
    var a := actions[|actions| - 1];
    Receivers(actions[..|actions| - 1], c) + if a == Receive(c) || a == Park(c) then 1 else 0
  }

  /** The capacities the channels were made with. */
  function Capacities(actions: seq<Action>): seq<nat>
    decreases |actions|
  {
    if actions == [] then [] else
    var a := actions[|actions| - 1];
    Capacities(actions[..|actions| - 1]) + if a.Make? then [a.cap] else []
  }

  /** Of `n` receivers all but the blocked ones have an event that was sent and waits no more; when
      the channel is closed the blocked ones go without. */
  predicate Served(ch: Chan, n: nat) {
    && ch.waiting <= |ch.log|
    && (ch.closes == 0 ==> |ch.log| - ch.waiting + ch.parked == n)
    && (ch.closes > 0 ==> ch.parked == 0 && |ch.log| - ch.waiting <= n)
  }

  lemma StepServes(s: State, a: Action, c: nat, n: nat)
    requires Inv(s) && Enabled(s, a) && c < |s.chans| && Served(s.chans[c], n)
    ensures c < |Apply(s, a).chans| && Apply(s, a).chans[c].cap == s.chans[c].cap
    ensures Served(Apply(s, a).chans[c], n + if a == Receive(c) || a == Park(c) then 1 else 0)
  {
    assert ChanInv(s, c);
  }

  ghost predicate AllServed(s: State, actions: seq<Action>) {
    && |Capacities(actions)| == |s.chans|
    && (forall c: nat :: c < |s.chans| ==>
          s.chans[c].cap == Capacities(actions)[c] && Served(s.chans[c], Receivers(actions, c)))
    && (forall c: nat :: c >= |s.chans| ==> Receivers(actions, c) == 0)
  }

  lemma StepAllServed(s: State, a: Action, before: seq<Action>)
    requires Inv(s) && Enabled(s, a) && AllServed(s, before)
    ensures AllServed(Apply(s, a), before + [a])
  {
    var s', now := Apply(s, a), before + [a];
    assert now[..|before|] == before;
    assert Capacities(now) == Capacities(before) + if a.Make? then [a.cap] else [];
    forall c: nat
      ensures Receivers(now, c) == Receivers(before, c) + if a == Receive(c) || a == Park(c) then 1 else 0
      ensures c < |s'.chans| ==> s'.chans[c].cap == Capacities(now)[c] && Served(s'.chans[c], Receivers(now, c))
    {
      if c < |s.chans| {
        StepServes(s, a, c, Receivers(before, c));
      }
    }
  }

  lemma {:induction false} RunServes(actions: seq<Action>, states: seq<State>, k: nat)
    requires IsRun(actions, states) && k < |states|
    ensures AllServed(states[k], actions[..k])
  {
    if k > 0 {
      RunServes(actions, states, k - 1);
      RunInv(actions, states, k - 1);
      StepAllServed(states[k - 1], actions[k - 1], actions[..k - 1]);
      assert actions[..k] == actions[..k - 1] + [actions[k - 1]];
    }
  }

  /** Conservation, in every interleaving: channels have the capacities they were made with; whoever
      came to an open channel to receive has got an event or is blocked, and every event sent was got
      or waits; and as long as nothing has panicked an event that waits can be received next, also
      after the channel was closed, and nothing else can. */
  lemma ReceiversAreServed(actions: seq<Action>, states: seq<State>, k: nat, c: nat)
    requires IsRun(actions, states) && k < |states| && c < |states[k].chans|
    ensures var s, n := states[k], Receivers(actions[..k], c);
            var ch := s.chans[c];
            && |Capacities(actions[..k])| == |s.chans| && ch.cap == Capacities(actions[..k])[c]
            && ch.waiting <= |ch.log|
            && (ch.closes == 0 ==> n == |ch.log| - ch.waiting + ch.parked)
            && (ch.closes > 0 ==> n >= |ch.log| - ch.waiting)
            && (!s.panicked ==>
                  ((exists a :: Enabled(s, a) && c < |Apply(s, a).chans| &&
                                Apply(s, a).chans[c].waiting == ch.waiting - 1) <==> ch.waiting > 0))
  {
    RunServes(actions, states, k);
    RunInv(actions, states, k);
    var s, ch := states[k], states[k].chans[c];
    if !s.panicked && ch.waiting > 0 {
      assert Enabled(s, Receive(c)) && Apply(s, Receive(c)).chans[c].waiting == ch.waiting - 1;
    }
  }

  lemma {:induction false} InSomeOrder(xs: set<nat>) returns (order: seq<nat>)
    ensures NoRepeats(order) && forall x :: x in order <==> x in xs
  {
    order := [];
    if xs != {} {
      var x :| x in xs;
      var rest := InSomeOrder(xs - {x});
      order := [x] + rest;
    }
  }

  /** Nobody waits for anybody: in every interleaving without a panic, whatever else is going on, an
      event can be published, a subscription under way can go on, a subscriber can leave, and a Publish call
      can make its next attempt to send. */
  lemma NobodyWaits(actions: seq<Action>, states: seq<State>, k: nat, e: Event, c: nat, p: nat)
    requires IsRun(actions, states) && k < |states| && !states[k].panicked
    ensures var s := states[k];
            && (exists a :: Enabled(s, a) && Apply(s, a).published == s.published + [e])
            && (c < |s.subscribers| && !s.subscribers[c].Entered? ==>
                  exists a :: Enabled(s, a) && c < |Apply(s, a).subscribers| &&
                              Apply(s, a).subscribers[c] != s.subscribers[c])
            && (c in s.subs.Values ==> exists a :: Enabled(s, a) && c !in Apply(s, a).subs.Values)
            && (p < |s.publishers| && s.publishers[p].pending != [] ==>
                  exists a :: Enabled(s, a) && (Apply(s, a).panicked || Apply(s, a).publishers[p] != s.publishers[p]))
  {
    var s := states[k];
    RunInv(actions, states, k);
    var order := InSomeOrder(s.subs.Values);
    assert Enabled(s, Snapshot(e, order)) && Apply(s, Snapshot(e, order)).published == s.published + [e];
    if c < |s.subscribers| && !s.subscribers[c].Entered? {
      var a := if s.subscribers[c].Made? then Draw(c) else Enter(c);
      assert Enabled(s, a) && Apply(s, a).subscribers[c] != s.subscribers[c];
    }
    if c in s.subs.Values {
      CanLeave(s, c);
    }
    if p < |s.publishers| && s.publishers[p].pending != [] {
      CanTry(s, p);
    }
  }

  lemma CanLeave(s: State, c: nat)
    requires Inv(s) && !s.panicked && c in s.subs.Values
    ensures Enabled(s, Unsubscribe(c)) && c !in Apply(s, Unsubscribe(c)).subs.Values
  {
    forall id | id in s.subs && s.subs[id] == c
      ensures c < |s.subscribers| && s.subscribers[c] == Entered(id)
    {
      assert HasId(s, c, id);
    }
  }

  lemma CanTry(s: State, p: nat)
    requires Inv(s) && !s.panicked && p < |s.publishers| && s.publishers[p].pending != []
    ensures Enabled(s, TrySend(p))
    ensures Apply(s, TrySend(p)).panicked || Apply(s, TrySend(p)).publishers[p] != s.publishers[p]
  {
    assert PendingInv(s, p);
    var pending := s.publishers[p].pending;
    assert pending[0] < |s.subscribers| && |pending[1..]| < |pending|;
  }

  /** The race is real: subscribe, take the snapshot, unsubscribe, send. */
  lemma UnsubscribeDuringPublishPanics(cap: nat, e: Event) returns (actions: seq<Action>, states: seq<State>)
    ensures IsRun(actions, states) && states[|states| - 1].panicked
  {
    var s3 := State(1, map[1 := 0], [Chan(cap, [], 0, 0, 0)], [Entered(1)], [], [], false);
    actions, states := Subscribed(cap);
    assert s3.subs[1] == 0 && forall c :: c in [0] <==> c in s3.subs.Values;
    RunExtends(actions, states, Snapshot(e, [0]));
    var s4 := Apply(s3, Snapshot(e, [0]));
    actions, states := actions + [Snapshot(e, [0])], states + [s4];
    RunExtends(actions, states, Unsubscribe(0));
    var s5 := Apply(s4, Unsubscribe(0));
    actions, states := actions + [Unsubscribe(0)], states + [s5];
    assert s5.chans[0].closes == 1 && s5.publishers[0].pending == [0];
    RunExtends(actions, states, TrySend(0));
    actions, states := actions + [TrySend(0)], states + [Apply(s5, TrySend(0))];
  }

  lemma RunExtends(actions: seq<Action>, states: seq<State>, a: Action)
    requires IsRun(actions, states) && Enabled(states[|states| - 1], a)
    ensures IsRun(actions + [a], states + [Apply(states[|states| - 1], a)])
  {
  }

  lemma Subscribed(cap: nat) returns (actions: seq<Action>, states: seq<State>)
    ensures IsRun(actions, states)
    ensures states[|states| - 1] == State(1, map[1 := 0], [Chan(cap, [], 0, 0, 0)], [Entered(1)], [], [], false)
  {
    var s1 := Apply(Init(), Make(cap));
    var s2 := Apply(s1, Draw(0));
    actions, states := [], [Init()];
    RunExtends(actions, states, Make(cap));
    actions, states := actions + [Make(cap)], states + [s1];
    RunExtends(actions, states, Draw(0));
    actions, states := actions + [Draw(0)], states + [s2];
    RunExtends(actions, states, Enter(0));
    actions, states := actions + [Enter(0)], states + [Apply(s2, Enter(0))];
  }
}
