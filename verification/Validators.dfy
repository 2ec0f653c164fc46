/** The registered validator set: sorted ids, stakes, miss counters and the jail. */
module Validators {
  import opened Prelude
  import opened Sorting

  type ValidatorID = nat

  const MAX_VALIDATORS := 200
  const MIN_STAKE := 100
  const JAIL_THRESHOLD := 50

  datatype Registry = Registry(
    ids: seq<ValidatorID>, stakes: map<ValidatorID, nat>, missed: map<ValidatorID, int>, jailed: seq<ValidatorID>)

  function Empty(): Registry {
    Registry([], map[], map[], [])
  }

  function Without(ids: seq<ValidatorID>, id: ValidatorID): seq<ValidatorID> {
    if ids == [] then [] else if ids[0] == id then ids[1..] else [ids[0]] + Without(ids[1..], id)
  }

  /** Whether Add accepts. */
  predicate CanAdd(r: Registry, id: ValidatorID, stake: nat) {
    id !in r.stakes && stake >= MIN_STAKE && |r.ids| < MAX_VALIDATORS
  }

  /** What each operation leaves. */
  function AfterAdd(r: Registry, id: ValidatorID, stake: nat): Registry {
    if CanAdd(r, id, stake)
    then Registry(Sorted(r.ids + [id]), r.stakes[id := stake], r.missed[id := 0], r.jailed)
    else r
  }

  function AfterRemove(r: Registry, id: ValidatorID): Registry {
    Registry(Without(r.ids, id), r.stakes - {id}, r.missed - {id}, r.jailed)
  }

  function AfterJail(r: Registry, id: ValidatorID): Registry {
    AfterRemove(r, id).(jailed := r.jailed + [id])
  }

  function AfterMissed(r: Registry, id: ValidatorID): Registry {
    var misses := At(r.missed, id) + 1;
    var marked := r.(missed := r.missed[id := misses]);
    if misses >= JAIL_THRESHOLD then AfterJail(marked, id) else marked
  }

  class ValidatorSet {
    var IDs: seq<ValidatorID>
    var Stakes: map<ValidatorID, nat>
    var Missed: map<ValidatorID, int>
    var Jailed: seq<ValidatorID>

    ghost function Model(): Registry
      reads this
    {
      Registry(IDs, Stakes, Missed, Jailed)
    }

    constructor ()
      ensures Model() == Empty()
    {
      IDs, Stakes, Missed, Jailed := [], map[], map[], [];
    }

    method Add(id: ValidatorID, stake: nat) returns (ok: bool)
      modifies this
      ensures ok == CanAdd(old(Model()), id, stake)
      ensures Model() == AfterAdd(old(Model()), id, stake)
    {
      if id in Stakes {
        return false;
      }
      if stake < MIN_STAKE {
        return false;
      }
      if |IDs| >= MAX_VALIDATORS {
        return false;
      }
      Stakes := Stakes[id := stake];
      Missed := Missed[id := 0];
      IDs := Sorted(IDs + [id]);
      return true;
    }

    method Remove(id: ValidatorID)
      modifies this
      ensures Model() == AfterRemove(old(Model()), id)
    {
      var i := 0;
      while i < |IDs|
        invariant 0 <= i <= |IDs|
        invariant IDs == old(IDs) && Stakes == old(Stakes) && Missed == old(Missed) && Jailed == old(Jailed)
        invariant id !in IDs[..i]
      {
        if IDs[i] == id {
          WithoutAt(IDs, id, i);
          IDs := IDs[..i] + IDs[i + 1..];
          break;
        }
        i := i + 1;
      }
      if id !in old(IDs) {
        WithoutAbsent(old(IDs), id);
      }
      Stakes := Stakes - {id};
      Missed := Missed - {id};
    }

    method Jail(id: ValidatorID)
      modifies this
      ensures Model() == AfterJail(old(Model()), id)
    {
      Remove(id);
      Jailed := Jailed + [id];
    }

    method MarkMissed(id: ValidatorID) returns (jailed: bool)
      modifies this
      ensures jailed <==> At(old(Missed), id) + 1 >= JAIL_THRESHOLD
      ensures Model() == AfterMissed(old(Model()), id)
    {
      Missed := Missed[id := At(Missed, id) + 1];
      if Missed[id] >= JAIL_THRESHOLD {
        Jail(id);
        return true;
      }
      return false;
    }

    /** The stakes of the listed ids; in a well-formed set, all stakes. */
    method TotalStake() returns (total: int)
      ensures WellFormed(Model()) ==> total == Sum(Stakes)
    {
      hide WellFormed, Uncounted;
      total := 0;
      if WellFormed(Model()) {
        AllCounted(Model());
      }
      for i := 0 to |IDs|
        invariant WellFormed(Model()) ==> total + Sum(Uncounted(Model(), i)) == Sum(Stakes)
      {
        if WellFormed(Model()) {
          CountNext(Model(), i);
        }
        total := total + At(Stakes, IDs[i]);
      }
    }
  }

  /** The stakes without those of the first n ids. */
  ghost function Uncounted(r: Registry, n: nat): map<ValidatorID, nat>
    requires n <= |r.ids|
  {
    map v | v in r.stakes && v !in r.ids[..n] :: r.stakes[v]
  }

  lemma CountNext(r: Registry, i: nat)
    requires WellFormed(r) && i < |r.ids|
    ensures Sum(Uncounted(r, i)) == At(r.stakes, r.ids[i]) + Sum(Uncounted(r, i + 1))
  {
    var left := Uncounted(r, i);
    assert r.ids[i] in left;
    assert Uncounted(r, i + 1) == left - {r.ids[i]};
    SumRemove(left, r.ids[i]);
  }

  lemma AllCounted(r: Registry)
    requires WellFormed(r)
    ensures Uncounted(r, 0) == r.stakes && Uncounted(r, |r.ids|) == map[]
  {
    assert r.ids[..|r.ids|] == r.ids;
  }

  lemma {:induction false} WithoutAt(ids: seq<ValidatorID>, id: ValidatorID, i: nat)
    requires i < |ids| && ids[i] == id && id !in ids[..i]
    ensures Without(ids, id) == ids[..i] + ids[i + 1..]
  {
    if i > 0 {
      assert ids[0] in ids[..i];
      assert ids[1..][..i - 1] == ids[..i][1..];
      WithoutAt(ids[1..], id, i - 1);
    }
  }

  lemma {:induction false} WithoutAbsent(ids: seq<ValidatorID>, id: ValidatorID)
    requires id !in ids
    ensures Without(ids, id) == ids
  {
    if ids != [] {
      WithoutAbsent(ids[1..], id);
    }
  }

  // ----- what every run keeps

  /** Ids strictly sorted and exactly the keys of Stakes, at most 200 of them, every stake at
      least the minimum and every active miss count below the jail threshold. */
  ghost predicate WellFormed(r: Registry) {
    && StrictlyAscending(r.ids)
    && (forall v: ValidatorID :: v in r.ids <==> v in r.stakes)
    && |r.ids| <= MAX_VALIDATORS
    && (forall v | v in r.stakes :: r.stakes[v] >= MIN_STAKE)
    && (forall v | v in r.stakes :: v in r.missed)
    && (forall v | v in r.missed :: 0 <= r.missed[v] < JAIL_THRESHOLD)
  }

  datatype Op = Add(id: ValidatorID, stake: nat) | Remove(id: ValidatorID) | Jail(id: ValidatorID)
      | MarkMissed(id: ValidatorID)

  function Step(r: Registry, op: Op): Registry {
    match op
    case Add(id, stake) => AfterAdd(r, id, stake)
    case Remove(id) => AfterRemove(r, id)
    case Jail(id) => AfterJail(r, id)
    case MarkMissed(id) => AfterMissed(r, id)
  }

  function Run(ops: seq<Op>): Registry {
    if ops == [] then Empty() else Step(Run(ops[..|ops| - 1]), ops[|ops| - 1])
  }

  lemma {:induction false} WithoutDropsOne(ids: seq<ValidatorID>, id: ValidatorID)
    requires StrictlyAscending(ids)
    ensures forall v: ValidatorID :: v in Without(ids, id) <==> v in ids && v != id
    ensures |Without(ids, id)| == |ids| - (if id in ids then 1 else 0)
  {
    if ids != [] {
      assert ids == [ids[0]] + ids[1..];
      if ids[0] != id {
        WithoutDropsOne(ids[1..], id);
      }
    }
  }

  /** Without drops one id from a strictly sorted list and keeps it strictly sorted. */
  lemma {:induction false} WithoutKeepsOrder(ids: seq<ValidatorID>, id: ValidatorID)
    requires StrictlyAscending(ids)
    ensures StrictlyAscending(Without(ids, id))
  {
    if ids != [] && ids[0] != id {
      var rest := Without(ids[1..], id);
      WithoutKeepsOrder(ids[1..], id);
      WithoutDropsOne(ids[1..], id);
      forall j | 0 <= j < |rest| ensures ids[0] < rest[j] {
        assert rest[j] in rest;
        assert rest[j] in ids[1..];
      }
    }
  }

  lemma AddKeepsOrder(ids: seq<ValidatorID>, id: ValidatorID)
    requires StrictlyAscending(ids) && id !in ids
    ensures StrictlyAscending(Sorted(ids + [id]))
    ensures forall v: ValidatorID :: v in Sorted(ids + [id]) <==> v in ids || v == id
    ensures |Sorted(ids + [id])| == |ids| + 1
  {
    var s := Sorted(ids + [id]);
    SortedOrders(ids + [id]);
    assert forall v: ValidatorID :: v in s <==> v in multiset(ids + [id]);
    DistinctElements(ids + [id]);
    forall i, j | 0 <= i < j < |s| ensures s[i] < s[j] {
      if s[i] == s[j] {
        RepeatCounts(s, i, j);
      }
    }
  }

  lemma {:induction false} DistinctElements(s: seq<ValidatorID>)
    requires forall i, j | 0 <= i < j < |s| :: s[i] != s[j]
    ensures forall v | v in s :: multiset(s)[v] == 1
  {
    if s != [] {
      var rest := s[..|s| - 1];
      DistinctElements(rest);
      assert s == rest + [s[|s| - 1]];
      assert s[|s| - 1] !in rest;
    }
  }

  lemma StepKeepsWellFormed(r: Registry, op: Op)
    requires WellFormed(r)
    ensures WellFormed(Step(r, op))
  {
    match op
    case Add(id, stake) =>
      if CanAdd(r, id, stake) {
        AddKeepsOrder(r.ids, id);
      }
    case Remove(id) => WithoutKeepsOrder(r.ids, id); WithoutDropsOne(r.ids, id);
    case Jail(id) => WithoutKeepsOrder(r.ids, id); WithoutDropsOne(r.ids, id);
    case MarkMissed(id) => WithoutKeepsOrder(r.ids, id); WithoutDropsOne(r.ids, id);
  }

  /** Every registry that a run of the four operations can reach is well formed. */
  lemma {:induction false} RunIsWellFormed(ops: seq<Op>)
    ensures WellFormed(Run(ops))
  {
    if ops != [] {
      RunIsWellFormed(ops[..|ops| - 1]);
      StepKeepsWellFormed(Run(ops[..|ops| - 1]), ops[|ops| - 1]);
    }
  }

  /** What each operation changes about who is active, and that it touches nobody else. */
  lemma StepMembership(r: Registry, op: Op, v: ValidatorID)
    requires WellFormed(r)
    ensures v in Step(r, op).ids <==>
              match op
              case Add(id, stake) => v in r.ids || (v == id && stake >= 100 && |r.ids| < 200)
              case Remove(id) => v in r.ids && v != id
              case Jail(id) => v in r.ids && v != id
              case MarkMissed(id) => v in r.ids && !(v == id && At(r.missed, id) == 49)
    ensures v in Step(r, op).stakes ==>
              Step(r, op).stakes[v] == if v in r.stakes then r.stakes[v] else if op.Add? then op.stake else 0
    ensures op.MarkMissed? && v == op.id && v in Step(r, op).missed ==> Step(r, op).missed[v] == At(r.missed, v) + 1
    ensures v != op.id ==> At(Step(r, op).missed, v) == At(r.missed, v)
    ensures v in Step(r, op).jailed <==>
              v in r.jailed || (v == op.id && (op.Jail? || (op.MarkMissed? && At(r.missed, v) >= 49)))
  {
    StepKeepsWellFormed(r, op);
    WithoutDropsOne(r.ids, op.id);
  }

  function Marks(id: ValidatorID, k: nat): seq<Op> {
    seq(k, _ => MarkMissed(id))
  }

  lemma MarkOnceMore(ops: seq<Op>, id: ValidatorID, k: nat)
    ensures Run(ops + Marks(id, k + 1)) == AfterMissed(Run(ops + Marks(id, k)), id)
  {
    var after := ops + Marks(id, k + 1);
    assert after[..|after| - 1] == ops + Marks(id, k) && after[|after| - 1] == MarkMissed(id);
  }

  /** Where k misses in a row leave a validator. */
  predicate AfterMisses(r: Registry, id: ValidatorID, k: nat) {
    if k < 50
    then id in r.ids && id in r.missed && r.missed[id] == k
    else id !in r.ids && id !in r.stakes && id !in r.missed && id in r.jailed
  }

  lemma OneMoreMiss(r: Registry, id: ValidatorID, k: nat)
    requires WellFormed(r) && k < 50 && AfterMisses(r, id, k)
    ensures AfterMisses(AfterMissed(r, id), id, k + 1)
  {
    StepMembership(r, MarkMissed(id), id);
    StepKeepsWellFormed(r, MarkMissed(id));
  }

  /** A validator that just joined survives 49 misses and is jailed, and gone, by the 50th. */
  lemma {:induction false} FiftyMissesJail(ops: seq<Op>, id: ValidatorID, stake: nat, k: nat)
    requires CanAdd(Run(ops), id, stake) && k <= 50
    ensures AfterMisses(Run(ops + [Add(id, stake)] + Marks(id, k)), id, k)
    decreases k
  {
    var joined := ops + [Add(id, stake)];
    if k == 0 {
      RunIsWellFormed(ops);
      assert joined[..|joined| - 1] == ops;
      StepMembership(Run(ops), Add(id, stake), id);
      assert joined + Marks(id, 0) == joined;
    } else {
      hide WellFormed, AfterMisses;
      FiftyMissesJail(ops, id, stake, k - 1);
      MarkOnceMore(joined, id, k - 1);
      RunIsWellFormed(joined + Marks(id, k - 1));
      OneMoreMiss(Run(joined + Marks(id, k - 1)), id, k - 1);
    }
  }

  /** The jail is a record only: a jailed id is accepted again whenever there is room. */
  lemma JailedMayReturn(ops: seq<Op>, id: ValidatorID, stake: nat)
    requires stake >= MIN_STAKE
    ensures var r := Run(ops + [Jail(id)]);
            id in r.jailed && (|r.ids| < MAX_VALIDATORS ==> CanAdd(r, id, stake) && id in AfterAdd(r, id, stake).ids)
  {
    var jailing := ops + [Jail(id)];
    assert jailing[..|jailing| - 1] == ops;
    RunIsWellFormed(ops);
    RunIsWellFormed(jailing);
    StepMembership(Run(ops), Jail(id), id);
    StepMembership(Run(jailing), Add(id, stake), id);
  }
}
