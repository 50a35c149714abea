/**
 * ProcessGroupFactory::GetOrCreate as a state machine: any number of threads and names, one mutex,
 * one condition variable shared by all names, spurious wake-ups. A step is what a thread does between
 * two points at which another thread can run.
 */
module GroupFactory {
  import opened Wrappers

  type Tid = nat
  type Name = string

  /** What creator() returns: never null. */
  type Group = nat

  /** Where a thread is inside a call. */
  datatype Place =
    | Idle                                    // not in a call
    | Start(name: Name)                       // about to lock the mutex
    | Locked(name: Name)                      // holds it, before emplace
    | Checking(name: Name)                    // holds it, at the test of the while loop
    | Waiting(name: Name)                     // asleep in cond_.wait, mutex released
    | Woken(name: Name)                       // awake in cond_.wait, about to lock again
    | Creating(name: Name)                    // released the mutex, runs creator()
    | Created(name: Name, group: Group)       // about to lock again
    | Filling(name: Name, group: Group)       // holds the mutex, before the slot is filled
    | Notifying(name: Name, group: Group)     // holds it, before notify_all
    | Returning(name: Name, group: Group)     // holds it, has read the slot
    | Done(name: Name, group: Group)          // returned the group

  /**
   * name_to_group_ holds None for a null slot. Two records are kept for the proofs: made holds every
   * group that creator() has returned and the name it was for, inserter the thread that put each slot in.
   */
  datatype Factory = Factory(slots: map<Name, Option<Group>>, owner: Option<Tid>, places: map<Tid, Place>,
                             made: map<Group, Name>, inserter: map<Name, Tid>)

  datatype Step =
    | Call(t: Tid, name: Name)
    | Lock(t: Tid)
    | Emplace(t: Tid)
    | Test(t: Tid)
    | Create(t: Tid, group: Group)
    | Fill(t: Tid)
    | NotifyAll(t: Tid)
    | Return(t: Tid)
    | Spurious(t: Tid)

  const INITIAL := Factory(map[], None, map[], map[], map[])

  function At(s: Factory, t: Tid): Place {
    if t in s.places then s.places[t] else Idle
  }

  function Move(s: Factory, t: Tid, p: Place): Factory {
    s.(places := s.places[t := p])
  }

  predicate Enabled(s: Factory, a: Step) {
    match a
    case Call(t, _) => At(s, t).Idle? || At(s, t).Done?
    case Lock(t) => s.owner.None? && (At(s, t).Start? || At(s, t).Woken? || At(s, t).Created?)
    case Emplace(t) => At(s, t).Locked?
    case Test(t) => At(s, t).Checking? && At(s, t).name in s.slots
    case Create(t, g) => At(s, t).Creating? && g !in s.made
    case Fill(t) => At(s, t).Filling?
    case NotifyAll(t) => At(s, t).Notifying? && At(s, t).name in s.slots && s.slots[At(s, t).name].Some?
    case Return(t) => At(s, t).Returning?
    case Spurious(t) => At(s, t).Waiting?
  }

  function WakeAll(places: map<Tid, Place>): map<Tid, Place> {
    map t | t in places :: if places[t].Waiting? then Woken(places[t].name) else places[t]
  }

  function Next(s: Factory, a: Step): Factory
    requires Enabled(s, a)
  {
    match a
    case Call(t, name) => Move(s, t, Start(name))
    case Lock(t) =>
      var p := At(s, t);
      var p' := if p.Start? then Locked(p.name) else if p.Woken? then Checking(p.name) else Filling(p.name, p.group);
      Move(s, t, p').(owner := Some(t))
    case Emplace(t) =>
      var name := At(s, t).name;
      if name in s.slots then Move(s, t, Checking(name))
      else Move(s, t, Creating(name)).(slots := s.slots[name := None], owner := None, inserter := s.inserter[name := t])
    case Test(t) =>
      var name := At(s, t).name;
      if s.slots[name].None? then Move(s, t, Waiting(name)).(owner := None)
      else Move(s, t, Returning(name, s.slots[name].value))
    case Create(t, g) =>
      var name := At(s, t).name;
      Move(s, t, Created(name, g)).(made := s.made[g := name])
    case Fill(t) =>
      var p := At(s, t);
      Move(s, t, Notifying(p.name, p.group)).(slots := s.slots[p.name := Some(p.group)])
    case NotifyAll(t) =>
      var name := At(s, t).name;
      Move(s.(places := WakeAll(s.places)), t, Returning(name, s.slots[name].value))
    case Return(t) =>
      var p := At(s, t);
      Move(s, t, Done(p.name, p.group)).(owner := None)
    case Spurious(t) => Move(s, t, Woken(At(s, t).name))
  }

  // ---------------------------------------------------------------- what every step keeps

  predicate HoldsLock(p: Place) {
    p.Locked? || p.Checking? || p.Filling? || p.Notifying? || p.Returning?
  }

  /** The thread that put in the null slot of a name and has not filled it yet. */
  predicate Pending(p: Place) {
    p.Creating? || p.Created? || p.Filling?
  }

  /** Past the lookup: the name has a slot. */
  predicate HasSlot(p: Place) {
    !p.Idle? && !p.Start? && !p.Locked?
  }

  predicate HasGroup(p: Place) {
    p.Notifying? || p.Returning? || p.Done?
  }

  ghost predicate MutexInv(s: Factory) {
    forall t: Tid :: HoldsLock(At(s, t)) <==> s.owner == Some(t)
  }

  /** A slot stays null exactly as long as the thread that put it in is pending. */
  ghost predicate NullInv(s: Factory) {
    && (forall name :: name in s.slots ==> name in s.inserter)
    && (forall name :: name in s.slots && s.slots[name].None? ==>
          Pending(At(s, s.inserter[name])) && At(s, s.inserter[name]).name == name)
  }

  ghost predicate ThreadInv(s: Factory, t: Tid) {
    var p := At(s, t);
    && (HasSlot(p) ==> p.name in s.slots && p.name in s.inserter)
    && (Pending(p) ==> s.slots[p.name].None? && s.inserter[p.name] == t)
    && (p.Created? || p.Filling? ==> p.group in s.made && s.made[p.group] == p.name)
    && (HasGroup(p) ==> s.slots[p.name] == Some(p.group))
  }

  /** Whoever sleeps on a filled slot is about to be woken. */
  ghost predicate SleepInv(s: Factory, t: Tid)
    requires ThreadInv(s, t)
  {
    var p := At(s, t);
    p.Waiting? && s.slots[p.name].Some? ==> s.owner.Some? && At(s, s.owner.value).Notifying?
  }

  /** A group that creator() returned is in its name's slot or about to be put there. */
  ghost predicate MadeInv(s: Factory, g: Group)
    requires g in s.made
  {
    var name := s.made[g];
    && name in s.slots && name in s.inserter
    && (s.slots[name].Some? ==> s.slots[name].value == g)
    && (s.slots[name].None? ==> var p := At(s, s.inserter[name]); Pending(p) && !p.Creating? && p.group == g)
  }

  ghost predicate FilledInv(s: Factory) {
    forall name :: name in s.slots && s.slots[name].Some? ==>
      s.slots[name].value in s.made && s.made[s.slots[name].value] == name
  }

  ghost predicate Inv(s: Factory) {
    && MutexInv(s) && NullInv(s) && FilledInv(s)
    && (forall t: Tid :: ThreadInv(s, t) && SleepInv(s, t))
    && (forall g :: g in s.made ==> MadeInv(s, g))
  }

  lemma InitialInv()
    ensures Inv(INITIAL)
  {
  }

  /** The place that the acting thread moves to; every sleeper wakes at a NotifyAll; no other thread moves. */
  lemma AtAfter(s: Factory, a: Step, u: Tid)
    requires Enabled(s, a)
    ensures u != a.t ==> At(Next(s, a), u) ==
                         if a.NotifyAll? && At(s, u).Waiting? then Woken(At(s, u).name) else At(s, u)
  {
  }

  lemma NextKeepsMutex(s: Factory, a: Step)
    requires Inv(s) && Enabled(s, a)
    ensures MutexInv(Next(s, a))
  {
    forall u: Tid
      ensures HoldsLock(At(Next(s, a), u)) <==> Next(s, a).owner == Some(u)
    {
      AtAfter(s, a, u);
      assert ThreadInv(s, a.t);
    }
  }

  lemma NextKeepsNull(s: Factory, a: Step)
    requires Inv(s) && Enabled(s, a)
    ensures NullInv(Next(s, a))
  {
    var s' := Next(s, a);
    forall name | name in s'.slots
      ensures name in s'.inserter
      ensures s'.slots[name].None? ==> Pending(At(s', s'.inserter[name])) && At(s', s'.inserter[name]).name == name
    {
      assert ThreadInv(s, a.t);
      AtAfter(s, a, s'.inserter[name]);
    }
  }

  lemma NextKeepsThread(s: Factory, a: Step, u: Tid)
    requires Inv(s) && Enabled(s, a)
    ensures ThreadInv(Next(s, a), u)
  {
    hide FilledInv, MadeInv, MutexInv;
    AtAfter(s, a, u);
    assert ThreadInv(s, a.t) && ThreadInv(s, u);
  }

  lemma NextKeepsSleep(s: Factory, a: Step, u: Tid)
    requires Inv(s) && Enabled(s, a)
    ensures ThreadInv(Next(s, a), u) && SleepInv(Next(s, a), u)
  {
    hide FilledInv, MadeInv, NullInv;
    NextKeepsThread(s, a, u);
    AtAfter(s, a, u);
    assert ThreadInv(s, a.t) && SleepInv(s, u);
    if s.owner.Some? {
      AtAfter(s, a, s.owner.value);
    }
  }

  lemma NextKeepsMade(s: Factory, a: Step, g: Group)
    requires Inv(s) && Enabled(s, a) && g in Next(s, a).made
    ensures MadeInv(Next(s, a), g)
  {
    var s' := Next(s, a);
    assert ThreadInv(s, a.t);
    if g in s.made {
      assert MadeInv(s, g);
      AtAfter(s, a, s.inserter[s.made[g]]);
    }
  }

  lemma NextKeepsFilled(s: Factory, a: Step)
    requires Inv(s) && Enabled(s, a)
    ensures FilledInv(Next(s, a))
  {
    assert ThreadInv(s, a.t);
  }

  lemma NextKeepsInv(s: Factory, a: Step)
    requires Inv(s) && Enabled(s, a)
    ensures Inv(Next(s, a))
  {
    hide Next, Enabled, MutexInv, NullInv, FilledInv, ThreadInv, SleepInv, MadeInv;
    NextKeepsMutex(s, a);
    NextKeepsNull(s, a);
    NextKeepsFilled(s, a);
    forall u: Tid
      ensures ThreadInv(Next(s, a), u) && SleepInv(Next(s, a), u)
    {
      NextKeepsSleep(s, a, u);
    }
    forall g | g in Next(s, a).made
      ensures MadeInv(Next(s, a), g)
    {
      NextKeepsMade(s, a, g);
    }
  }

  // ---------------------------------------------------------------- safety over whole runs

  /** States ss[0], ss[1], ... joined by the steps a[0], a[1], ..., from the initial state. */
  ghost predicate IsRun(ss: seq<Factory>, a: seq<Step>) {
    && |ss| == |a| + 1 && ss[0] == INITIAL
    && forall i {:trigger a[i]} :: 0 <= i < |a| ==> Enabled(ss[i], a[i]) && ss[i + 1] == Next(ss[i], a[i])
  }

  lemma {:induction false} RunKeepsInv(ss: seq<Factory>, a: seq<Step>, i: nat)
    requires IsRun(ss, a) && i < |ss|
    ensures Inv(ss[i])
  {
    if i == 0 {
      InitialInv();
    } else {
      RunKeepsInv(ss, a, i - 1);
      NextKeepsInv(ss[i - 1], a[i - 1]);
    }
  }

  lemma StepKeepsSlotsAndGroups(s: Factory, a: Step, name: Name, g: Group)
    requires Inv(s) && Enabled(s, a)
    ensures name in s.slots && s.slots[name] == Some(g) ==>
            name in Next(s, a).slots && Next(s, a).slots[name] == Some(g)
    ensures g in s.made ==> g in Next(s, a).made && Next(s, a).made[g] == s.made[g]
  {
    assert ThreadInv(s, a.t);
  }

  /** A filled slot never changes again, and a group made stays made for its name. */
  lemma {:induction false} FilledSlotsStay(ss: seq<Factory>, a: seq<Step>, i: nat, j: nat, name: Name, g: Group)
    requires IsRun(ss, a) && i <= j < |ss|
    ensures name in ss[i].slots && ss[i].slots[name] == Some(g) ==> name in ss[j].slots && ss[j].slots[name] == Some(g)
    ensures g in ss[i].made ==> g in ss[j].made && ss[j].made[g] == ss[i].made[g]
  {
    if i < j {
      hide Inv, Next, Enabled;
      FilledSlotsStay(ss, a, i, j - 1, name, g);
      RunKeepsInv(ss, a, j - 1);
      StepKeepsSlotsAndGroups(ss[j - 1], a[j - 1], name, g);
    }
  }

  /** creator() runs at most once for each name: two runs of it, at different steps, are for different names. */
  lemma CreatorRunsAtMostOnce(ss: seq<Factory>, a: seq<Step>, i: nat, j: nat)
    requires IsRun(ss, a) && i < j < |a| && a[i].Create? && a[j].Create?
    ensures At(ss[i], a[i].t).name != At(ss[j], a[j].t).name
  {
    var name, g := At(ss[i], a[i].t).name, a[i].group;
    assert g in ss[i + 1].made && ss[i + 1].made[g] == name;
    FilledSlotsStay(ss, a, i + 1, j, name, g);
    RunKeepsInv(ss, a, j);
    assert MadeInv(ss[j], g) && ThreadInv(ss[j], a[j].t);
  }

  /** All callers of a name get the same group, whenever they return. */
  lemma SameGroupForAll(ss: seq<Factory>, a: seq<Step>, i: nat, t: Tid, j: nat, u: Tid)
    requires IsRun(ss, a) && i <= j < |ss| && At(ss[i], t).Done? && At(ss[j], u).Done?
    requires At(ss[i], t).name == At(ss[j], u).name
    ensures At(ss[i], t).group == At(ss[j], u).group
  {
    RunKeepsInv(ss, a, i);
    RunKeepsInv(ss, a, j);
    assert ThreadInv(ss[i], t) && ThreadInv(ss[j], u);
    FilledSlotsStay(ss, a, i, j, At(ss[i], t).name, At(ss[i], t).group);
  }

  /** Callers of different names get different groups, and each group is one that creator() made for the name. */
  lemma GroupsAreForTheirNames(ss: seq<Factory>, a: seq<Step>, i: nat, t: Tid)
    requires IsRun(ss, a) && i < |ss| && At(ss[i], t).Done?
    ensures At(ss[i], t).group in ss[i].made && ss[i].made[At(ss[i], t).group] == At(ss[i], t).name
  {
    RunKeepsInv(ss, a, i);
    assert ThreadInv(ss[i], t);
  }

  /** No two threads hold the mutex. */
  lemma OneHolder(ss: seq<Factory>, a: seq<Step>, i: nat, t: Tid, u: Tid)
    requires IsRun(ss, a) && i < |ss| && HoldsLock(At(ss[i], t)) && HoldsLock(At(ss[i], u))
    ensures t == u
  {
    RunKeepsInv(ss, a, i);
  }

  // ---------------------------------------------------------------- progress

  predicate InCall(p: Place) {
    !p.Idle? && !p.Done?
  }

  /** A step inside a call that does not depend on a spurious wake-up. */
  predicate Internal(a: Step) {
    !a.Call? && !a.Spurious?
  }

  /** A group that does not exist yet. */
  ghost function NewGroup(made: map<Group, Name>): (g: Group)
    ensures forall h :: h in made ==> h < g
    decreases |made|
  {
    if made == map[] then 0
    else
      var h :| h in made;
      var g := NewGroup(made - {h});
      assert forall k :: k in made ==> k == h || k in made - {h};
      if g > h then g else h + 1
  }

  /** The step that a thread, or the thread it waits for, can take next. */
  ghost function Ready(s: Factory, t: Tid): (a: Step)
    requires Inv(s) && InCall(At(s, t))
    ensures Internal(a) && Enabled(s, a)
  {
    assert ThreadInv(s, t) && SleepInv(s, t);
    if s.owner.Some? then Holder(s, s.owner.value)
    else
      match At(s, t)
      case Creating(_) => Create(t, NewGroup(s.made))
      case Waiting(name) =>
        var u := s.inserter[name];
        assert s.slots[name].None? && ThreadInv(s, u);
        if At(s, u).Creating? then Create(u, NewGroup(s.made)) else Lock(u)
      case _ => Lock(t)
  }

  ghost function Holder(s: Factory, t: Tid): (a: Step)
    requires Inv(s) && s.owner == Some(t)
    ensures Internal(a) && Enabled(s, a)
  {
    assert HoldsLock(At(s, t)) && ThreadInv(s, t);
    match At(s, t)
    case Locked(_) => Emplace(t)
    case Checking(_) => Test(t)
    case Filling(_, _) => Fill(t)
    case Notifying(_, _) => NotifyAll(t)
    case _ => Return(t)
  }

  /** No reachable state is stuck: while any thread is in a call, some thread in a call can step. */
  lemma NoStuckState(ss: seq<Factory>, a: seq<Step>, i: nat, t: Tid)
    requires IsRun(ss, a) && i < |ss| && InCall(At(ss[i], t))
    ensures exists b :: Internal(b) && Enabled(ss[i], b)
  {
    RunKeepsInv(ss, a, i);
    var b := Ready(ss[i], t);
  }

  /** How far a thread is from its notify_all, which it may owe the others. */
  function Owed(p: Place): nat {
    match p
    case Start(_) => 6
    case Locked(_) => 5
    case Creating(_) => 4
    case Created(_, _) => 3
    case Filling(_, _) => 2
    case Notifying(_, _) => 1
    case _ => 0
  }

  /** How far a thread that owes nothing is from sleep or return. */
  function Left(p: Place): nat {
    match p
    case Woken(_) => 3
    case Checking(_) => 2
    case Waiting(_) => 1
    case Returning(_, _) => 1
    case _ => 0
  }

  ghost function Total(m: map<Tid, nat>): nat
    decreases |m|
  {
    if m == map[] then 0
    else
      var t :| t in m;
      m[t] + Total(m - {t})
  }

  lemma {:induction false} TotalRemove(m: map<Tid, nat>, t: Tid)
    requires t in m
    ensures Total(m) == m[t] + Total(m - {t})
    decreases |m|
  {
    var u :| u in m && Total(m) == m[u] + Total(m - {u});
    if u != t {
      TotalRemove(m - {u}, t);
      TotalRemove(m - {t}, u);
      assert m - {u} - {t} == m - {t} - {u};
    }
  }

  lemma TotalChange(m: map<Tid, nat>, m': map<Tid, nat>, t: Tid)
    requires t in m && t in m' && m' == m[t := m'[t]]
    ensures Total(m') + m[t] == Total(m) + m'[t]
  {
    TotalRemove(m, t);
    TotalRemove(m', t);
    assert m - {t} == m' - {t};
  }

  lemma {:induction false} TotalBound(m: map<Tid, nat>, b: nat)
    requires forall t :: t in m ==> m[t] <= b
    ensures Total(m) <= b * |m|
    decreases |m|
  {
    if m != map[] {
      var t :| t in m && Total(m) == m[t] + Total(m - {t});
      assert (m - {t}).Keys == m.Keys - {t};
      TotalBound(m - {t}, b);
      OneMoreOf(b, |m - {t}|, |m|);
    }
  }

  lemma OneMoreOf(b: nat, n: nat, n': nat)
    requires n' == n + 1
    ensures b * n' == b * n + b
  {
  }

  ghost function OwedBy(s: Factory): map<Tid, nat> {
    map t | t in s.places :: Owed(s.places[t])
  }

  ghost function LeftBy(s: Factory): map<Tid, nat> {
    map t | t in s.places :: Left(s.places[t])
  }

  /** An upper bound on the internal steps still to come. */
  ghost function Measure(s: Factory): nat {
    Total(OwedBy(s)) * (3 * |s.places| + 1) + Total(LeftBy(s))
  }

  lemma StepKeepsThreads(s: Factory, a: Step)
    requires Enabled(s, a) && !a.Call?
    ensures Next(s, a).places.Keys == s.places.Keys && |Next(s, a).places| == |s.places| && a.t in s.places
  {
    assert Next(s, a).places.Keys == s.places.Keys;
    assert |Next(s, a).places| == |Next(s, a).places.Keys|;
    assert |s.places| == |s.places.Keys|;
  }

  lemma OwedChanges(s: Factory, a: Step)
    requires Enabled(s, a) && !a.Call?
    ensures a.t in s.places && a.t in Next(s, a).places
    ensures Total(OwedBy(Next(s, a))) + Owed(At(s, a.t)) == Total(OwedBy(s)) + Owed(At(Next(s, a), a.t))
  {
    StepKeepsThreads(s, a);
    var m, m' := OwedBy(s), OwedBy(Next(s, a));
    forall u | u in m && u != a.t
      ensures m'[u] == m[u]
    {
      AtAfter(s, a, u);
    }
    TotalChange(m, m', a.t);
  }

  lemma LeftChanges(s: Factory, a: Step)
    requires Enabled(s, a) && !a.Call? && !a.NotifyAll?
    ensures a.t in s.places && a.t in Next(s, a).places
    ensures Total(LeftBy(Next(s, a))) + Left(At(s, a.t)) == Total(LeftBy(s)) + Left(At(Next(s, a), a.t))
  {
    StepKeepsThreads(s, a);
    var m, m' := LeftBy(s), LeftBy(Next(s, a));
    forall u | u in m && u != a.t
      ensures m'[u] == m[u]
    {
      AtAfter(s, a, u);
    }
    TotalChange(m, m', a.t);
  }

  lemma LeftIsBounded(s: Factory)
    ensures Total(LeftBy(s)) <= 3 * |s.places|
  {
    TotalBound(LeftBy(s), 3);
    assert |LeftBy(s)| == |s.places| by {
      assert LeftBy(s).Keys == s.places.Keys;
    }
  }

  /** The acting thread either owes less, or owes nothing and has less left. */
  lemma StepAdvances(s: Factory, a: Step)
    requires Enabled(s, a) && Internal(a)
    ensures var p, p' := At(s, a.t), At(Next(s, a), a.t);
            Owed(p') < Owed(p) || (!a.NotifyAll? && Owed(p') == Owed(p) && Left(p') < Left(p))
  {
  }

  lemma Lexicographic(o: nat, o': nat, n: nat)
    requires o' < o
    ensures o' * n + n <= o * n
  {
    assert (o - 1 - o') * n >= 0;
    assert (o - 1 - o') * n == o * n - n - o' * n;
  }

  /** Every internal step uses up some of the measure. */
  lemma InternalStepDecreases(s: Factory, a: Step)
    requires Enabled(s, a) && Internal(a)
    ensures Measure(Next(s, a)) < Measure(s)
  {
    hide Next, Enabled, Owed, Left, OwedBy, LeftBy;
    StepKeepsThreads(s, a);
    StepAdvances(s, a);
    OwedChanges(s, a);
    var n := 3 * |s.places| + 1;
    var o, o' := Total(OwedBy(s)), Total(OwedBy(Next(s, a)));
    if Owed(At(Next(s, a), a.t)) < Owed(At(s, a.t)) {
      LeftIsBounded(Next(s, a));
      Lexicographic(o, o', n);
    } else {
      LeftChanges(s, a);
    }
  }

  /** A spurious wake-up adds no more than two steps: lock again, test again. */
  lemma SpuriousStepAddsTwo(s: Factory, a: Step)
    requires Enabled(s, a) && a.Spurious?
    ensures Measure(Next(s, a)) == Measure(s) + 2
  {
    hide OwedBy, LeftBy;
    StepKeepsThreads(s, a);
    OwedChanges(s, a);
    LeftChanges(s, a);
  }

  ghost function InternalSteps(a: seq<Step>): nat {
    if a == [] then 0 else InternalSteps(a[..|a| - 1]) + if Internal(a[|a| - 1]) then 1 else 0
  }

  ghost function SpuriousSteps(a: seq<Step>): nat {
    if a == [] then 0 else SpuriousSteps(a[..|a| - 1]) + if a[|a| - 1].Spurious? then 1 else 0
  }

  lemma CountsExtend(a: seq<Step>, i: nat, j: nat)
    requires i < j <= |a|
    ensures InternalSteps(a[i..j]) == InternalSteps(a[i..j - 1]) + if Internal(a[j - 1]) then 1 else 0
    ensures SpuriousSteps(a[i..j]) == SpuriousSteps(a[i..j - 1]) + if a[j - 1].Spurious? then 1 else 0
  {
    assert a[i..j][..j - i - 1] == a[i..j - 1];
  }

  lemma StepOfRun(ss: seq<Factory>, a: seq<Step>, i: nat)
    requires IsRun(ss, a) && i < |a|
    ensures Enabled(ss[i], a[i]) && ss[i + 1] == Next(ss[i], a[i])
  {
  }

  /**
   * From any reachable state, as long as no new calls are made, the internal steps are bounded: by the
   * measure of the state and two for each spurious wake-up. With NoStuckState, all calls return.
   */
  lemma {:induction false} CallsReturn(ss: seq<Factory>, a: seq<Step>, i: nat, j: nat)
    requires IsRun(ss, a) && i <= j < |ss|
    requires forall k :: i <= k < j ==> !a[k].Call?
    ensures Measure(ss[j]) + InternalSteps(a[i..j]) <= Measure(ss[i]) + 2 * SpuriousSteps(a[i..j])
  {
    assert |ss| == |a| + 1;
    if i == j {
      assert a[i..j] == [];
    } else {
      hide Measure, Next, Enabled, Inv, InternalSteps, SpuriousSteps, IsRun;
      CallsReturn(ss, a, i, j - 1);
      StepOfRun(ss, a, j - 1);
      CountsExtend(a, i, j);
      if Internal(a[j - 1]) {
        InternalStepDecreases(ss[j - 1], a[j - 1]);
      } else {
        SpuriousStepAddsTwo(ss[j - 1], a[j - 1]);
      }
    }
  }
}
