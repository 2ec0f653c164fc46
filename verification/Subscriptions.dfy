/** The WebSocket subscription registry and its broadcasts. */
module Subscriptions {

  type SubID = nat
  type Conn = nat

  datatype Kind = NewHeads | NewPendingTransactions | Logs

  datatype Subscription = Subscription(kind: Kind, conn: Conn)

  /** taken holds the ids handed out but not yet entered: the counter is advanced before the lock is
      taken. closed holds the ids whose done channel is closed. */
  datatype Registry = Registry(
    nextID: nat, taken: set<SubID>, subs: map<SubID, Subscription>, connSubs: map<Conn, set<SubID>>, closed: set<SubID>)

  const EMPTY := Registry(0, {}, map[], map[], {})

  // ----- the locked operations

  function OfConn(r: Registry, conn: Conn): set<SubID> {
    if conn in r.connSubs then r.connSubs[conn] else {}
  }

  function AfterTake(r: Registry): Registry {
    r.(nextID := r.nextID + 1, taken := r.taken + {r.nextID + 1})
  }

  function AfterEnter(r: Registry, id: SubID, kind: Kind, conn: Conn): Registry {
    r.(taken := r.taken - {id},
       subs := r.subs[id := Subscription(kind, conn)],
       connSubs := r.connSubs[conn := OfConn(r, conn) + {id}])
  }

  function Without(connSubs: map<Conn, set<SubID>>, conn: Conn, id: SubID): map<Conn, set<SubID>> {
    if conn !in connSubs then connSubs
    else if connSubs[conn] - {id} == {} then connSubs - {conn}
    else connSubs[conn := connSubs[conn] - {id}]
  }

  function AfterUnsubscribe(r: Registry, id: SubID): Registry {
    if id !in r.subs then r
    else r.(subs := r.subs - {id},
            connSubs := Without(r.connSubs, r.subs[id].conn, id),
            closed := r.closed + {id})
  }

  function AfterCleanup(r: Registry, conn: Conn): Registry {
    if conn !in r.connSubs then r
    else r.(subs := r.subs - r.connSubs[conn],
            connSubs := r.connSubs - {conn},
            closed := r.closed + (r.connSubs[conn] * r.subs.Keys))
  }

  // ----- soundness

  /** connSubs is the exact inverse of subs, without empty sets. */
  ghost predicate Inverse(r: Registry) {
    && (forall conn | conn in r.connSubs :: r.connSubs[conn] != {})
    && (forall conn, id :: id in OfConn(r, conn) <==> id in r.subs && r.subs[id].conn == conn)
  }

  /** Every id handed out is in exactly one place: waiting to be entered, subscribed, or closed. */
  ghost predicate Accounted(r: Registry) {
    && (forall id :: 0 < id <= r.nextID <==> id in r.taken || id in r.subs || id in r.closed)
    && (forall id | id in r.subs :: id !in r.taken && id !in r.closed)
    && r.taken !! r.closed
  }

  ghost predicate Sound(r: Registry) {
    Inverse(r) && Accounted(r)
  }

  class SubscriptionManager {
    var NextID: nat
    var Taken: set<SubID>
    var Subs: map<SubID, Subscription>
    var ConnSubs: map<Conn, set<SubID>>
    var Closed: set<SubID>

    ghost function Model(): Registry
      reads this
    {
      Registry(NextID, Taken, Subs, ConnSubs, Closed)
    }

    constructor ()
      ensures Model() == EMPTY
    {
      NextID, Taken, Subs, ConnSubs, Closed := 0, {}, map[], map[], {};
    }

    method Take() returns (id: SubID)
      modifies this`NextID, this`Taken
      ensures Model() == AfterTake(old(Model())) && id == old(NextID) + 1
    {
      NextID := NextID + 1;
      id := NextID;
      Taken := Taken + {id};
    }

    method Enter(id: SubID, kind: Kind, conn: Conn)
      modifies this`Taken, this`Subs, this`ConnSubs
      ensures Model() == AfterEnter(old(Model()), id, kind, conn)
    {
      Taken := Taken - {id};
      Subs := Subs[id := Subscription(kind, conn)];
      if conn !in ConnSubs {
        ConnSubs := ConnSubs[conn := {}];
      }
      ConnSubs := ConnSubs[conn := ConnSubs[conn] + {id}];
    }

    method Subscribe(kind: Kind, conn: Conn) returns (id: SubID)
      modifies this
      ensures id == old(NextID) + 1
      ensures Model() == AfterEnter(AfterTake(old(Model())), id, kind, conn)
    {
      id := Take();
      Enter(id, kind, conn);
    }

    /** Closing a channel twice would panic. */
    method Close(id: SubID)
      requires id !in Closed
      modifies this`Closed
      ensures Closed == old(Closed) + {id}
    {
      Closed := Closed + {id};
    }

    method Unsubscribe(id: SubID) returns (ok: bool)
      requires Sound(Model())
      modifies this
      ensures Model() == AfterUnsubscribe(old(Model()), id) && ok == (id in old(Subs))
    {
      if id !in Subs {
        return false;
      }
      var sub := Subs[id];
      if sub.conn in ConnSubs {
        var rest := ConnSubs[sub.conn] - {id};
        ConnSubs := ConnSubs[sub.conn := rest];
        if |rest| == 0 {
          ConnSubs := ConnSubs - {sub.conn};
          assert ConnSubs == old(ConnSubs) - {sub.conn};
        }
      }
      Close(id);
      Subs := Subs - {id};
      return true;
    }

    method CleanupConn(conn: Conn)
      requires Sound(Model())
      modifies this
      ensures Model() == AfterCleanup(old(Model()), conn)
    {
      hide Sound;
      if conn !in ConnSubs {
        return;
      }
      ConnIsLive(Model(), conn);
      CloseAll(ConnSubs[conn]);
      ConnSubs := ConnSubs - {conn};
    }

    /** One turn of it: a channel is closed only while its entry is there. */
    method DropNext(id: SubID, ghost subs: map<SubID, Subscription>, ghost closed: set<SubID>, ghost gone: set<SubID>)
      requires Cleared(subs, closed, gone, Subs, Closed) && id !in gone && id !in closed
      modifies this`Subs, this`Closed
      ensures Cleared(subs, closed, gone + {id}, Subs, Closed)
    {
      ClearedNext(subs, closed, gone, Subs, Closed, id);
      hide Cleared;
      if id in Subs {
        Close(id);
      }
      Subs := Subs - {id};
    }

    /** The deletion loop of a cleanup, over a set in an order of nobody's choosing. */
    method CloseAll(ids: set<SubID>)
      requires ids !! Closed
      modifies this`Subs, this`Closed
      ensures Subs == old(Subs) - ids
      ensures Closed == old(Closed) + (ids * old(Subs).Keys)
    {
      hide Cleared;
      ghost var gone: set<SubID> := {};
      ghost var subs, closed := Subs, Closed;
      var left := ids;
      ClearedFirst(subs, closed);
      while left != {}
        invariant gone == ids - left && left <= ids
        invariant Cleared(subs, closed, gone, Subs, Closed)
        decreases |left|
      {
        var id :| id in left;
        DropNext(id, subs, closed, gone);
        left := left - {id};
        gone := gone + {id};
      }
      assert gone == ids;
      ClearedIs(subs, closed, gone, Subs, Closed);
    }
  }

  /** What is left of the subscriptions, and what is closed, once some ids are gone. */
  ghost predicate Cleared(subs: map<SubID, Subscription>, closed: set<SubID>, gone: set<SubID>,
                          left: map<SubID, Subscription>, now: set<SubID>)
  {
    left == subs - gone && now == closed + (gone * subs.Keys)
  }

  lemma ClearedFirst(subs: map<SubID, Subscription>, closed: set<SubID>)
    ensures Cleared(subs, closed, {}, subs, closed)
  {
    assert subs - {} == subs;
  }

  lemma ClearedIs(subs: map<SubID, Subscription>, closed: set<SubID>, gone: set<SubID>,
                  left: map<SubID, Subscription>, now: set<SubID>)
    requires Cleared(subs, closed, gone, left, now)
    ensures left == subs - gone && now == closed + (gone * subs.Keys)
  {
  }

  lemma ClearedNext(subs: map<SubID, Subscription>, closed: set<SubID>, gone: set<SubID>,
                    left: map<SubID, Subscription>, now: set<SubID>, id: SubID)
    requires Cleared(subs, closed, gone, left, now) && id !in gone && id !in closed
    ensures id !in now
    ensures Cleared(subs, closed, gone + {id}, left - {id}, now + if id in left then {id} else {})
  {
    assert subs - gone - {id} == subs - (gone + {id});
    assert (gone + {id}) * subs.Keys == (gone * subs.Keys) + if id in left then {id} else {};
  }

  /** A connection's ids are subscribed, so their channels are still open. */
  lemma ConnIsLive(r: Registry, conn: Conn)
    requires Sound(r) && conn in r.connSubs
    ensures r.connSubs[conn] <= r.subs.Keys && r.connSubs[conn] !! r.closed
  {
    assert forall id | id in r.connSubs[conn] :: id in OfConn(r, conn);
  }

  // ----- runs

  datatype Action =
    | Take
    | Enter(id: SubID, kind: Kind, conn: Conn)
    | Unsubscribe(id: SubID)
    | CleanupConn(conn: Conn)

  /** Any caller's next step; only an id that was handed out can be entered. */
  function Do(r: Registry, a: Action): Registry {
    match a
    case Take => AfterTake(r)
    case Enter(id, kind, conn) => if id in r.taken then AfterEnter(r, id, kind, conn) else r
    case Unsubscribe(id) => AfterUnsubscribe(r, id)
    case CleanupConn(conn) => AfterCleanup(r, conn)
  }

  function After(start: Registry, actions: seq<Action>): Registry {
    if actions == [] then start else Do(After(start, actions[..|actions| - 1]), actions[|actions| - 1])
  }

  lemma EnterKeepsInverse(r: Registry, id: SubID, kind: Kind, conn: Conn)
    requires Inverse(r) && id !in r.subs
    ensures Inverse(AfterEnter(r, id, kind, conn))
  {
    var r' := AfterEnter(r, id, kind, conn);
    forall c, i ensures i in OfConn(r', c) <==> i in r'.subs && r'.subs[i].conn == c {
      assert i in OfConn(r, c) <==> i in r.subs && r.subs[i].conn == c;
    }
  }

  lemma UnsubscribeKeepsInverse(r: Registry, id: SubID)
    requires Inverse(r) && id in r.subs
    ensures Inverse(AfterUnsubscribe(r, id))
  {
    var r' := AfterUnsubscribe(r, id);
    forall c, i ensures i in OfConn(r', c) <==> i in r'.subs && r'.subs[i].conn == c {
      assert i in OfConn(r, c) <==> i in r.subs && r.subs[i].conn == c;
      assert id in OfConn(r, r.subs[id].conn);
    }
  }

  lemma CleanupKeepsInverse(r: Registry, conn: Conn)
    requires Inverse(r)
    ensures Inverse(AfterCleanup(r, conn))
  {
    var r' := AfterCleanup(r, conn);
    forall c, i ensures i in OfConn(r', c) <==> i in r'.subs && r'.subs[i].conn == c {
      assert i in OfConn(r, c) <==> i in r.subs && r.subs[i].conn == c;
      assert i in OfConn(r, conn) <==> i in r.subs && r.subs[i].conn == conn;
    }
  }

  lemma StepKeepsSound(r: Registry, a: Action)
    requires Sound(r)
    ensures Sound(Do(r, a))
  {
    hide Inverse, OfConn, Without;
    match a
    case Take => assert Inverse(AfterTake(r)) by { TakeKeepsInverse(r); }
    case Enter(id, kind, conn) => if id in r.taken { EnterKeepsInverse(r, id, kind, conn); }
    case Unsubscribe(id) => if id in r.subs { UnsubscribeKeepsInverse(r, id); }
    case CleanupConn(conn) => CleanupKeepsInverse(r, conn);
  }

  lemma TakeKeepsInverse(r: Registry)
    requires Inverse(r)
    ensures Inverse(AfterTake(r))
  {
    forall conn ensures OfConn(AfterTake(r), conn) == OfConn(r, conn) {
    }
  }

  /** After any interleaving of subscribe, unsubscribe and cleanup: connSubs is the exact inverse of
      subs with no empty sets, and a done channel is closed exactly when its id has been entered and
      is no longer subscribed. */
  lemma {:induction false} EveryRunIsSound(start: Registry, actions: seq<Action>)
    requires Sound(start)
    ensures Sound(After(start, actions))
  {
    hide Sound, Do;
    if actions != [] {
      EveryRunIsSound(start, actions[..|actions| - 1]);
      StepKeepsSound(After(start, actions[..|actions| - 1]), actions[|actions| - 1]);
    }
  }

  lemma EmptyIsSound()
    ensures Sound(EMPTY)
  {
  }

  /** Ids are never reused: the counter and the closed channels only grow, a new id is one that was
      never seen, and an id that is still subscribed later means what it meant. */
  ghost predicate Continues(r: Registry, r': Registry) {
    && r.nextID <= r'.nextID
    && r.closed <= r'.closed
    && (forall id | id in r'.subs && id <= r.nextID && id !in r.taken :: id in r.subs && r'.subs[id] == r.subs[id])
    && (forall id | id in r'.taken && id <= r.nextID :: id in r.taken)
  }

  lemma StepContinues(r: Registry, a: Action)
    requires Sound(r)
    ensures Continues(r, Do(r, a))
  {
  }

  lemma {:induction false} IdsAreNotReused(start: Registry, actions: seq<Action>)
    requires Sound(start)
    ensures Continues(start, After(start, actions))
  {
    hide Sound, Do;
    if actions != [] {
      var front := actions[..|actions| - 1];
      IdsAreNotReused(start, front);
      EveryRunIsSound(start, front);
      StepContinues(After(start, front), actions[|actions| - 1]);
    }
  }

  // ----- who is subscribed

  /** The id was handed out before action k, which enters it, and nothing since has removed it: neither its
      own unsubscription nor the cleanup of its connection. */
  predicate EnteredFor(actions: seq<Action>, id: SubID, sub: Subscription, k: nat) {
    && k < |actions| && actions[k] == Enter(id, sub.kind, sub.conn)
    && id in After(EMPTY, actions[..k]).taken
    && forall j | k < j < |actions| :: actions[j] != Unsubscribe(id) && actions[j] != CleanupConn(sub.conn)
  }

  ghost predicate Entered(actions: seq<Action>, id: SubID, sub: Subscription) {
    exists k: nat :: EnteredFor(actions, id, sub, k)
  }

  /** What one action does to the subscription of an id. */
  lemma SubscriptionStep(r: Registry, a: Action, id: SubID, sub: Subscription)
    requires Sound(r)
    ensures id in Do(r, a).subs && Do(r, a).subs[id] == sub <==>
              || (a == Enter(id, sub.kind, sub.conn) && id in r.taken)
              || (id in r.subs && r.subs[id] == sub && a != Unsubscribe(id) && a != CleanupConn(sub.conn))
  {
    assert a.CleanupConn? ==> (id in OfConn(r, a.conn) <==> id in r.subs && r.subs[id].conn == a.conn);
  }

  /** Over every run: an id is subscribed to a kind on a connection exactly if it was entered so, as an id
      handed out, and neither it nor its connection has been removed since. */
  lemma {:induction false} SubscribedExactly(actions: seq<Action>, id: SubID, sub: Subscription)
    ensures var r := After(EMPTY, actions);
            id in r.subs && r.subs[id] == sub <==> Entered(actions, id, sub)
  {
    hide Do, Sound;
    if actions == [] {
      NothingSubscribed(id);
    } else {
      var n := |actions| - 1;
      var front, last := actions[..n], actions[n];
      SubscribedExactly(front, id, sub);
      EmptyIsSound();
      EveryRunIsSound(EMPTY, front);
      SubscriptionStep(After(EMPTY, front), last, id, sub);
      assert forall k | 0 <= k < n :: actions[..k] == front[..k] && actions[k] == front[k];
      EnteredStep(actions, id, sub);
    }
  }

  lemma NothingSubscribed(id: SubID)
    ensures id !in After(EMPTY, []).subs
  {
  }

  lemma EnteredStep(actions: seq<Action>, id: SubID, sub: Subscription)
    requires actions != []
    ensures var front, last := actions[..|actions| - 1], actions[|actions| - 1];
            Entered(actions, id, sub) <==>
              || (last == Enter(id, sub.kind, sub.conn) && id in After(EMPTY, front).taken)
              || (Entered(front, id, sub) && last != Unsubscribe(id) && last != CleanupConn(sub.conn))
  {
    hide After;
    var n := |actions| - 1;
    var front, last := actions[..n], actions[n];
    assert forall k | 0 <= k < n :: actions[..k] == front[..k] && actions[k] == front[k];
    if Entered(actions, id, sub) {
      var k: nat :| EnteredFor(actions, id, sub, k);
      if k < n {
        assert EnteredFor(front, id, sub, k);
      }
    }
    if last == Enter(id, sub.kind, sub.conn) && id in After(EMPTY, front).taken {
      assert EnteredFor(actions, id, sub, n);
    } else if Entered(front, id, sub) && last != Unsubscribe(id) && last != CleanupConn(sub.conn) {
      var k: nat :| EnteredFor(front, id, sub, k);
      assert EnteredFor(actions, id, sub, k);
    }
  }

  // ----- broadcasts

  /** What a broadcast remembers of a subscription. */
  datatype Entry = Entry(id: SubID, conn: Conn)

  datatype Outcome = Skipped | Sent | Failed

  datatype Progress = Progress(registry: Registry, outcomes: seq<Outcome>)

  /** The subscriptions of one kind, each once, in an order of nobody's choosing. */
  ghost predicate IsSnapshot(r: Registry, kind: Kind, entries: seq<Entry>) {
    && (forall id :: id in r.subs && r.subs[id].kind == kind <==> exists i :: 0 <= i < |entries| && entries[i].id == id)
    && (forall i | 0 <= i < |entries| :: entries[i].id in r.subs && r.subs[entries[i].id].conn == entries[i].conn)
    && (forall i, j | 0 <= i < j < |entries| :: entries[i].id != entries[j].id)
  }

  /** One turn of the sending loop: others act first, then a closed entry is skipped, and a failed
      send cleans up its connection. */
  function Turn(r: Registry, e: Entry, fails: bool): (Registry, Outcome) {
    if e.id in r.closed then (r, Skipped)
    else if fails then (AfterCleanup(r, e.conn), Failed)
    else (r, Sent)
  }

  function Broadcast(r: Registry, entries: seq<Entry>, others: nat -> seq<Action>, fails: nat -> bool, n: nat)
    : (p: Progress)
    requires n <= |entries|
    ensures |p.outcomes| == n
  {
    if n == 0 then Progress(r, [])
    else
      var p := Broadcast(r, entries, others, fails, n - 1);
      var turn := Turn(After(p.registry, others(n - 1)), entries[n - 1], fails(n - 1));
      Progress(turn.0, p.outcomes + [turn.1])
  }

  method Snapshot(m: SubscriptionManager, kind: Kind) returns (entries: seq<Entry>)
    ensures IsSnapshot(m.Model(), kind, entries)
  {
    hide IsSnapshot;
    entries := [];
    var left: set<SubID> := m.Subs.Keys;
    while left != {}
      invariant left <= m.Subs.Keys && Lists(m.Subs, left, kind, entries)
      decreases |left|
    {
      var id :| id in left;
      var sub := m.Subs[id];
      ListsNext(m.Subs, left, kind, entries, id);
      left := left - {id};
      if sub.kind == kind {
        entries := entries + [Entry(id, sub.conn)];
      }
    }
    ListsAll(m.Model(), kind, entries);
  }

  /** The entries of one kind whose ids are not left. */
  ghost predicate Lists(subs: map<SubID, Subscription>, left: set<SubID>, kind: Kind, entries: seq<Entry>) {
    && (forall id :: id in subs && id !in left && subs[id].kind == kind
                     <==> exists i :: 0 <= i < |entries| && entries[i].id == id)
    && (forall i | 0 <= i < |entries| :: entries[i].id in subs && subs[entries[i].id].conn == entries[i].conn)
    && (forall i, j | 0 <= i < j < |entries| :: entries[i].id != entries[j].id)
  }

  lemma ListsNext(subs: map<SubID, Subscription>, left: set<SubID>, kind: Kind, entries: seq<Entry>, id: SubID)
    requires Lists(subs, left, kind, entries) && id in left && id in subs
    ensures Lists(subs, left - {id}, kind,
                  if subs[id].kind == kind then entries + [Entry(id, subs[id].conn)] else entries)
  {
    var after := entries + [Entry(id, subs[id].conn)];
    assert after[|entries|].id == id;
    assert forall i | 0 <= i < |entries| :: after[i] == entries[i];
  }

  lemma ListsAll(r: Registry, kind: Kind, entries: seq<Entry>)
    requires Lists(r.subs, {}, kind, entries)
    ensures IsSnapshot(r, kind, entries)
  {
  }

  /** The steps that other goroutines take while a broadcast is sending. */
  method Interleave(m: SubscriptionManager, actions: seq<Action>)
    requires Sound(m.Model())
    modifies m
    ensures m.Model() == After(old(m.Model()), actions) && Sound(m.Model())
  {
    hide Sound, Do, AfterEnter, AfterUnsubscribe, AfterCleanup, AfterTake;
    for i := 0 to |actions|
      invariant m.Model() == After(old(m.Model()), actions[..i]) && Sound(m.Model())
    {
      assert actions[..i + 1][..i] == actions[..i];
      StepKeepsSound(m.Model(), actions[i]);
      DoIs(m.Model(), actions[i]);
      match actions[i]
      case Take =>
        var _ := m.Take();
      case Enter(id, kind, conn) =>
        if id in m.Taken {
          m.Enter(id, kind, conn);
        }
      case Unsubscribe(id) =>
        var _ := m.Unsubscribe(id);
      case CleanupConn(conn) =>
        m.CleanupConn(conn);
    }
    assert actions[..|actions|] == actions;
  }

  lemma DoIs(r: Registry, a: Action)
    ensures Do(r, a) == match a
                        case Take => AfterTake(r)
                        case Enter(id, kind, conn) => if id in r.taken then AfterEnter(r, id, kind, conn) else r
                        case Unsubscribe(id) => AfterUnsubscribe(r, id)
                        case CleanupConn(conn) => AfterCleanup(r, conn)
  {
  }

  method BroadcastNewHead(m: SubscriptionManager, others: nat -> seq<Action>, fails: nat -> bool)
    returns (entries: seq<Entry>, outcomes: seq<Outcome>)
    requires Sound(m.Model())
    modifies m
    ensures IsSnapshot(old(m.Model()), NewHeads, entries) && Sound(m.Model())
    ensures Progress(m.Model(), outcomes) == Broadcast(old(m.Model()), entries, others, fails, |entries|)
  {
    hide Sound, After, AfterCleanup, IsSnapshot;
    entries := Snapshot(m, NewHeads);
    outcomes := [];
    for i := 0 to |entries|
      invariant Sound(m.Model())
      invariant Progress(m.Model(), outcomes) == Broadcast(old(m.Model()), entries, others, fails, i)
    {
      Interleave(m, others(i));
      var e := entries[i];
      if e.id in m.Closed {
        outcomes := outcomes + [Skipped];
      } else if fails(i) {
        StepKeepsSound(m.Model(), CleanupConn(e.conn));
        m.CleanupConn(e.conn);
        outcomes := outcomes + [Failed];
      } else {
        outcomes := outcomes + [Sent];
      }
    }
  }

  /** An entry of a snapshot stays subscribed under its connection until its channel is closed. */
  predicate Placed(r: Registry, e: Entry) {
    e.id in r.closed || (e.id in r.subs && r.subs[e.id].conn == e.conn)
  }

  lemma RunKeepsPlaced(r: Registry, actions: seq<Action>, e: Entry)
    requires Sound(r) && Placed(r, e)
    ensures Placed(After(r, actions), e) && r.closed <= After(r, actions).closed
  {
    hide After, Do;
    IdsAreNotReused(r, actions);
    EveryRunIsSound(r, actions);
    var r' := After(r, actions);
    if e.id !in r.closed && e.id !in r'.closed {
      assert 0 < e.id <= r.nextID && e.id !in r.taken;
      assert e.id in r'.subs || e.id in r'.taken;
    }
  }

  lemma CleanupClosesAll(r: Registry, conn: Conn, e: Entry)
    requires Sound(r) && Placed(r, e)
    ensures Placed(AfterCleanup(r, conn), e) && r.closed <= AfterCleanup(r, conn).closed
    ensures e.conn == conn ==> e.id in AfterCleanup(r, conn).closed
  {
    assert e.id in OfConn(r, conn) <==> e.id in r.subs && r.subs[e.id].conn == conn;
  }

  /** After i of its turns, a broadcast has closed every entry whose connection had a failed send. */
  ghost predicate ClosedAfterFailure(entries: seq<Entry>, p: Progress) {
    |p.outcomes| <= |entries|
    && forall i, k |
           0 <= i < |p.outcomes| && p.outcomes[i] == Failed
           && 0 <= k < |entries| && entries[k].conn == entries[i].conn ::
         entries[k].id in p.registry.closed
  }

  lemma TurnKeepsPlaced(r: Registry, e: Entry, fails: bool, other: Entry)
    requires Sound(r) && Placed(r, other)
    ensures Sound(Turn(r, e, fails).0) && Placed(Turn(r, e, fails).0, other) && r.closed <= Turn(r, e, fails).0.closed
    ensures Turn(r, e, fails).1 == Failed && other.conn == e.conn ==> other.id in Turn(r, e, fails).0.closed
  {
    hide Sound, AfterCleanup, Placed;
    CleanupClosesAll(r, e.conn, other);
    StepKeepsSound(r, CleanupConn(e.conn));
  }

  lemma {:induction false} BroadcastCloses(r: Registry, entries: seq<Entry>, others: nat -> seq<Action>,
                                           fails: nat -> bool, n: nat)
    requires Sound(r) && n <= |entries| && forall k | 0 <= k < |entries| :: Placed(r, entries[k])
    ensures var p := Broadcast(r, entries, others, fails, n);
            && Sound(p.registry) && ClosedAfterFailure(entries, p)
            && forall k | 0 <= k < |entries| :: Placed(p.registry, entries[k])
  {
    hide Sound, After, Turn, Placed;
    if n > 0 {
      BroadcastCloses(r, entries, others, fails, n - 1);
      var p := Broadcast(r, entries, others, fails, n - 1);
      var between := After(p.registry, others(n - 1));
      var turn := Turn(between, entries[n - 1], fails(n - 1));
      EveryRunIsSound(p.registry, others(n - 1));
      forall k | 0 <= k < |entries|
        ensures Placed(turn.0, entries[k]) && p.registry.closed <= turn.0.closed && Sound(turn.0)
        ensures turn.1 == Failed && entries[k].conn == entries[n - 1].conn ==> entries[k].id in turn.0.closed
      {
        RunKeepsPlaced(p.registry, others(n - 1), entries[k]);
        TurnKeepsPlaced(between, entries[n - 1], fails(n - 1), entries[k]);
      }
    }
  }

  lemma {:induction false} OutcomesGrow(r: Registry, entries: seq<Entry>, others: nat -> seq<Action>,
                                        fails: nat -> bool, m: nat, n: nat)
    requires m <= n <= |entries|
    ensures Broadcast(r, entries, others, fails, m).outcomes == Broadcast(r, entries, others, fails, n).outcomes[..m]
  {
    if m < n {
      OutcomesGrow(r, entries, others, fails, m, n - 1);
    }
  }

  /** Whatever others do meanwhile, and whichever sends fail: after a failed send to a connection,
      the broadcast attempts no further send to any of its entries. */
  lemma {:induction false} NoSendAfterFailure(r: Registry, entries: seq<Entry>, others: nat -> seq<Action>,
                                              fails: nat -> bool, i: nat, j: nat)
    requires Sound(r) && IsSnapshot(r, NewHeads, entries)
    requires i < j < |entries| && entries[i].conn == entries[j].conn
    ensures var outcomes := Broadcast(r, entries, others, fails, |entries|).outcomes;
            outcomes[i] == Failed ==> outcomes[j] == Skipped
  {
    hide Sound, After, IsSnapshot, Broadcast, Placed;
    var p := Broadcast(r, entries, others, fails, j);
    assert forall k | 0 <= k < |entries| :: Placed(r, entries[k]) by { SnapshotIsPlaced(r, entries); }
    BroadcastCloses(r, entries, others, fails, j);
    OutcomesGrow(r, entries, others, fails, j, |entries|);
    RunKeepsPlaced(p.registry, others(j), entries[j]);
    if Broadcast(r, entries, others, fails, |entries|).outcomes[i] == Failed {
      assert p.outcomes[i] == Failed;
      ClosedIsSkipped(r, entries, others, fails, j);
    }
  }

  lemma ClosedIsSkipped(r: Registry, entries: seq<Entry>, others: nat -> seq<Action>, fails: nat -> bool, j: nat)
    requires j < |entries|
    requires entries[j].id in After(Broadcast(r, entries, others, fails, j).registry, others(j)).closed
    ensures Broadcast(r, entries, others, fails, |entries|).outcomes[j] == Skipped
  {
    hide After, AfterCleanup;
    OutcomesGrow(r, entries, others, fails, j + 1, |entries|);
  }

  lemma SnapshotIsPlaced(r: Registry, entries: seq<Entry>)
    requires IsSnapshot(r, NewHeads, entries)
    ensures forall k | 0 <= k < |entries| :: Placed(r, entries[k])
  {
  }

  /** While no send fails and nobody leaves, every subscriber of the snapshot is sent to. */
  lemma {:induction false} QuietBroadcastReachesAll(r: Registry, entries: seq<Entry>,
      others: nat -> seq<Action>, fails: nat -> bool, n: nat)
    requires Sound(r) && IsSnapshot(r, NewHeads, entries) && n <= |entries|
    requires forall i :: !fails(i) && others(i) == []
    ensures var p := Broadcast(r, entries, others, fails, n);
            p.registry == r && forall i | 0 <= i < n :: p.outcomes[i] == Sent
  {
    if n > 0 {
      QuietBroadcastReachesAll(r, entries, others, fails, n - 1);
    }
  }

  function OfKind(r: Registry, kind: Kind): set<SubID> {
    set id | id in r.subs && r.subs[id].kind == kind
  }

  function IDs(entries: seq<Entry>): set<SubID> {
    set i | 0 <= i < |entries| :: entries[i].id
  }

  lemma {:induction false} DistinctIDs(entries: seq<Entry>)
    requires forall i, j | 0 <= i < j < |entries| :: entries[i].id != entries[j].id
    ensures |IDs(entries)| == |entries|
  {
    if entries != [] {
      var n := |entries| - 1;
      DistinctIDs(entries[..n]);
      assert IDs(entries) == IDs(entries[..n]) + {entries[n].id};
    }
  }

  /** A snapshot has as many entries as there are subscriptions of its kind, and one for each. */
  lemma SnapshotIsExact(r: Registry, kind: Kind, entries: seq<Entry>)
    requires IsSnapshot(r, kind, entries)
    ensures IDs(entries) == OfKind(r, kind) && |entries| == |OfKind(r, kind)|
    ensures forall i | 0 <= i < |entries| :: r.subs[entries[i].id] == Subscription(kind, entries[i].conn)
  {
    DistinctIDs(entries);
  }

  /** Each turn of a broadcast finds the registry as the turns before it and the others' steps since have
      left it. It skips a closed entry; otherwise it sends, and a send that fails leaves no subscription of
      its connection, and touches no other. */
  lemma TurnsAre(r: Registry, entries: seq<Entry>, others: nat -> seq<Action>, fails: nat -> bool, i: nat)
    requires Sound(r) && i < |entries|
    ensures var before := After(Broadcast(r, entries, others, fails, i).registry, others(i));
            var p, e := Broadcast(r, entries, others, fails, i + 1), entries[i];
            && p.outcomes[i] == (if e.id in before.closed then Skipped else if fails(i) then Failed else Sent)
            && forall id :: id in p.registry.subs <==>
                 id in before.subs && !(p.outcomes[i] == Failed && before.subs[id].conn == e.conn)
  {
    hide After, Sound;
    BroadcastIsSound(r, entries, others, fails, i);
    var p := Broadcast(r, entries, others, fails, i);
    EveryRunIsSound(p.registry, others(i));
    CleanupLeavesOthers(After(p.registry, others(i)), entries[i].conn);
  }

  lemma CleanupLeavesOthers(r: Registry, conn: Conn)
    requires Sound(r)
    ensures forall id :: id in AfterCleanup(r, conn).subs <==> id in r.subs && r.subs[id].conn != conn
  {
    assert forall id :: id in OfConn(r, conn) <==> id in r.subs && r.subs[id].conn == conn;
  }

  lemma {:induction false} BroadcastIsSound(r: Registry, entries: seq<Entry>, others: nat -> seq<Action>,
                                            fails: nat -> bool, n: nat)
    requires Sound(r) && n <= |entries|
    ensures Sound(Broadcast(r, entries, others, fails, n).registry)
  {
    hide Sound, After, AfterCleanup;
    if n > 0 {
      BroadcastIsSound(r, entries, others, fails, n - 1);
      var p := Broadcast(r, entries, others, fails, n - 1);
      EveryRunIsSound(p.registry, others(n - 1));
      StepKeepsSound(After(p.registry, others(n - 1)), CleanupConn(entries[n - 1].conn));
    }
  }
}
