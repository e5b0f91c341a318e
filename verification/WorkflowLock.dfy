/**
 The distributed execution lock (`internal/scheduler/wflock.go`): SET NX with a TTL, and a script
 that deletes the key only if it still holds the caller's token.  Any number of instances and
 callers, any expiry; Redis commands succeed and tokens are unique.
 */
module WorkflowLock {
  /** One call of `Acquire` and what became of it. */
  datatype Stage =
    | Asking
    | Cleared                          // no local flag seen
    | Locked(deadline: int)            // SET NX succeeded
    | Holding(deadline: int)           // local flag set; the task runs
    | Unflagged                        // released locally, the script is next
    | Released
    | Refused
    | Dead                             // its instance crashed

  datatype Caller = Caller(instance: int, workflow: int, token: int, stage: Stage)

  datatype Entry = Entry(token: int, deadline: int)

  datatype World = World(now: int, keys: map<int, Entry>, flags: set<(int, int)>, callers: map<int, Caller>)

  datatype Action = CheckFlag | SetNx | SetFlag | DropFlag | RunScript | Tick(to: int) | CrashInstance

  /** The key of a workflow, unless it is absent or expired. */
  predicate Present(w: World, workflow: int) {
    workflow in w.keys && w.now < w.keys[workflow].deadline
  }

  function Moved(w: World, c: int, stage: Stage): map<int, Caller>
    requires c in w.callers
  {
    w.callers[c := w.callers[c].(stage := stage)]
  }

  ghost predicate CallerStep(ttl: int, w: World, w': World, c: int, a: Action) {
    c in w.callers &&
    var me := w.callers[c];
    var flag := (me.instance, me.workflow);
    match a
    case CheckFlag => me.stage.Asking? && w' == w.(callers := Moved(w, c, if flag in w.flags then Refused else Cleared))
    case SetNx =>
      && me.stage.Cleared?
      && w' == if Present(w, me.workflow) then w.(callers := Moved(w, c, Refused))
               else w.(keys := w.keys[me.workflow := Entry(me.token, w.now + ttl)],
                       callers := Moved(w, c, Locked(w.now + ttl)))
    case SetFlag =>
      && me.stage.Locked?
      && w' == w.(flags := w.flags + {flag}, callers := Moved(w, c, Holding(me.stage.deadline)))
    case DropFlag => me.stage.Holding? && w' == w.(flags := w.flags - {flag}, callers := Moved(w, c, Unflagged))
    case RunScript =>
      && me.stage.Unflagged?
      && w' == w.(keys := if Present(w, me.workflow) && w.keys[me.workflow].token == me.token
                          then w.keys - {me.workflow} else w.keys,
                  callers := Moved(w, c, Released))
    case _ => false
  }

  /** Time passes, or instance `c` crashes with all its callers and flags. */
  ghost predicate Outside(w: World, w': World, c: int, a: Action) {
    match a
    case Tick(to) => w.now <= to && w' == w.(now := to)
    case CrashInstance =>
      w' == w.(flags := (set f | f in w.flags && f.0 != c),
               callers := map x | x in w.callers ::
                 if w.callers[x].instance == c then w.callers[x].(stage := Dead) else w.callers[x])
    case _ => false
  }

  ghost predicate Next(ttl: int, w: World, w': World, c: int, a: Action) {
    CallerStep(ttl, w, w', c, a) || Outside(w, w', c, a)
  }

  /** Fresh callers with unique tokens, and no keys. */
  ghost predicate Init(w: World) {
    && w.keys == map[] && w.flags == {}
    && (forall c :: c in w.callers ==> w.callers[c].stage == Asking)
    && forall c, d :: c in w.callers && d in w.callers && w.callers[c].token == w.callers[d].token ==> c == d
  }

  ghost predicate Run(ttl: int, ws: seq<World>, who: seq<int>, actions: seq<Action>) {
    && |ws| == |actions| + 1 && |who| == |actions| && Init(ws[0])
    && forall i :: 0 <= i < |actions| ==> Next(ttl, ws[i], ws[i + 1], who[i], actions[i])
  }

  // ---------- Safety ----------

  /** The caller owns the workflow: it acquired the lock and has not begun to release it. */
  predicate Owns(c: Caller) {
    c.stage.Locked? || c.stage.Holding?
  }

  predicate InTime(now: int, c: Caller) {
    Owns(c) && now < c.stage.deadline
  }

  ghost predicate UniqueTokens(w: World) {
    forall c, d :: c in w.callers && d in w.callers && w.callers[c].token == w.callers[d].token ==> c == d
  }

  /** An owner within its TTL has its own token and deadline in Redis. */
  ghost predicate Recorded(w: World) {
    forall c :: c in w.callers && InTime(w.now, w.callers[c]) ==>
      w.callers[c].workflow in w.keys
        && w.keys[w.callers[c].workflow] == Entry(w.callers[c].token, w.callers[c].stage.deadline)
  }

  lemma TokensStay(ttl: int, w: World, w': World, c: int, a: Action)
    requires UniqueTokens(w) && Next(ttl, w, w', c, a)
    ensures UniqueTokens(w')
  {
    assert forall d :: d in w'.callers ==> d in w.callers && w'.callers[d].token == w.callers[d].token;
  }

  lemma RecordedStays(ttl: int, w: World, w': World, c: int, a: Action)
    requires UniqueTokens(w) && Recorded(w) && Next(ttl, w, w', c, a)
    ensures Recorded(w')
  {
    forall d | d in w'.callers && InTime(w'.now, w'.callers[d])
      ensures w'.callers[d].workflow in w'.keys
      ensures w'.keys[w'.callers[d].workflow] == Entry(w'.callers[d].token, w'.callers[d].stage.deadline)
    {
      assert d in w.callers && w'.callers[d].workflow == w.callers[d].workflow
        && w'.callers[d].token == w.callers[d].token;
      if !a.SetNx? || d != c {
        assert InTime(w.now, w.callers[d]);
      }
    }
  }

  lemma {:induction false} RunInv(ttl: int, ws: seq<World>, who: seq<int>, actions: seq<Action>, i: nat)
    requires Run(ttl, ws, who, actions) && i < |ws|
    ensures UniqueTokens(ws[i]) && Recorded(ws[i])
  {
    if i > 0 {
      RunInv(ttl, ws, who, actions, i - 1);
      assert Next(ttl, ws[i - 1], ws[i - 1 + 1], who[i - 1], actions[i - 1]);
      hide Next, UniqueTokens, Recorded;
      TokensStay(ttl, ws[i - 1], ws[i], who[i - 1], actions[i - 1]);
      RecordedStays(ttl, ws[i - 1], ws[i], who[i - 1], actions[i - 1]);
    }
  }

  /** Of two owners of the same workflow at least one has overrun its TTL. */
  lemma TwoOwnersOneOverran(ttl: int, ws: seq<World>, who: seq<int>, actions: seq<Action>, i: nat, c: int, d: int)
    requires Run(ttl, ws, who, actions) && i < |ws|
    requires c in ws[i].callers && d in ws[i].callers && c != d
      && ws[i].callers[c].workflow == ws[i].callers[d].workflow
    requires Owns(ws[i].callers[c]) && Owns(ws[i].callers[d])
    ensures !InTime(ws[i].now, ws[i].callers[c]) || !InTime(ws[i].now, ws[i].callers[d])
  {
    RunInv(ttl, ws, who, actions, i);
  }

  /** If every owner finishes within its TTL, no workflow ever has two owners. */
  lemma MutualExclusion(ttl: int, ws: seq<World>, who: seq<int>, actions: seq<Action>, i: nat, c: int, d: int)
    requires Run(ttl, ws, who, actions) && i < |ws|
    requires forall x :: x in ws[i].callers && Owns(ws[i].callers[x]) ==> ws[i].now < ws[i].callers[x].stage.deadline
    requires c in ws[i].callers && d in ws[i].callers && ws[i].callers[c].workflow == ws[i].callers[d].workflow
    requires Owns(ws[i].callers[c]) && Owns(ws[i].callers[d])
    ensures c == d
  {
    if c != d { TwoOwnersOneOverran(ttl, ws, who, actions, i, c, d); }
  }

  /** Whatever step is taken, by a release above all, the lock of an owner within its TTL stays in place. */
  lemma NobodyRemovesALiveLock(ttl: int, ws: seq<World>, who: seq<int>, actions: seq<Action>, i: nat, c: int)
    requires Run(ttl, ws, who, actions) && i < |actions| && c in ws[i].callers
    requires InTime(ws[i].now, ws[i].callers[c])
    ensures var me := ws[i].callers[c];
      me.workflow in ws[i + 1].keys && ws[i + 1].keys[me.workflow] == Entry(me.token, me.stage.deadline)
  {
    RunInv(ttl, ws, who, actions, i);
    assert Next(ttl, ws[i], ws[i + 1], who[i], actions[i]);
  }

  // ---------- The local flag ----------

  predicate Flags(c: Caller, f: (int, int)) {
    c.stage.Holding? && (c.instance, c.workflow) == f
  }

  /** A local flag always has a holder behind it: nobody is refused because of a leftover. */
  ghost predicate FlagsHeld(w: World) {
    forall f :: f in w.flags ==> exists c :: c in w.callers && Flags(w.callers[c], f)
  }

  lemma FlagsStay(ttl: int, w: World, w': World, c: int, a: Action)
    requires FlagsHeld(w) && Next(ttl, w, w', c, a)
    ensures FlagsHeld(w')
  {
    forall f | f in w'.flags ensures exists d :: d in w'.callers && Flags(w'.callers[d], f) {
      if a.SetFlag? && f == (w.callers[c].instance, w.callers[c].workflow) {
        assert Flags(w'.callers[c], f);
      } else {
        var d :| d in w.callers && Flags(w.callers[d], f);
        assert d in w'.callers && Flags(w'.callers[d], f);
      }
    }
  }

  lemma {:induction false} FlagsHonest(ttl: int, ws: seq<World>, who: seq<int>, actions: seq<Action>, i: nat)
    requires Run(ttl, ws, who, actions) && i < |ws|
    ensures FlagsHeld(ws[i])
  {
    if i > 0 {
      FlagsHonest(ttl, ws, who, actions, i - 1);
      assert Next(ttl, ws[i - 1], ws[i - 1 + 1], who[i - 1], actions[i - 1]);
      FlagsStay(ttl, ws[i - 1], ws[i], who[i - 1], actions[i - 1]);
    }
  }

  /** A caller is refused exactly when its instance has a holder or the key is present, whichever it asks. */
  lemma RefusedIff(ttl: int, ws: seq<World>, who: seq<int>, actions: seq<Action>, i: nat)
    requires Run(ttl, ws, who, actions) && i < |actions| && (actions[i].CheckFlag? || actions[i].SetNx?)
    ensures who[i] in ws[i].callers && who[i] in ws[i + 1].callers
    ensures var me := ws[i].callers[who[i]];
      ws[i + 1].callers[who[i]].stage.Refused? <==>
        if actions[i].CheckFlag? then (me.instance, me.workflow) in ws[i].flags
        else Present(ws[i], me.workflow)
    ensures var me := ws[i].callers[who[i]];
      actions[i].CheckFlag? && ws[i + 1].callers[who[i]].stage.Refused? ==>
        exists c :: c in ws[i].callers && Flags(ws[i].callers[c], (me.instance, me.workflow))
  {
    assert Next(ttl, ws[i], ws[i + 1], who[i], actions[i]);
    FlagsHonest(ttl, ws, who, actions, i);
  }

  /** The lock is set for the TTL under the caller's token, and the script takes away that entry and no other. */
  lemma KeysChange(ttl: int, w: World, w': World, c: int, a: Action)
    requires CallerStep(ttl, w, w', c, a)
    ensures var me := w.callers[c];
      && (w'.keys != w.keys ==> a.SetNx? || a.RunScript?)
      && (a.SetNx? && !Present(w, me.workflow) ==> w'.keys == w.keys[me.workflow := Entry(me.token, w.now + ttl)])
      && (a.RunScript? && Present(w, me.workflow) && w.keys[me.workflow].token == me.token ==>
            w'.keys == w.keys - {me.workflow} && !Present(w', me.workflow))
      && (a.RunScript? && Present(w, me.workflow) && w.keys[me.workflow].token != me.token ==> w'.keys == w.keys)
  {
  }

  // ---------- The TTL condition cannot be dropped ----------

  /** Who asks while a workflow is owned becomes a second owner iff the key is gone, so never in the owner's time. */
  lemma SecondOwnerIff(ttl: int, ws: seq<World>, who: seq<int>, actions: seq<Action>, i: nat, c: int, d: int, w': World)
    requires Run(ttl, ws, who, actions) && i < |ws| && CallerStep(ttl, ws[i], w', d, SetNx)
    requires c in ws[i].callers && Owns(ws[i].callers[c])
      && ws[i].callers[c].workflow == ws[i].callers[d].workflow
    ensures w'.callers[c] == ws[i].callers[c]
    ensures Owns(w'.callers[d]) <==> !Present(ws[i], ws[i].callers[d].workflow)
    ensures Owns(w'.callers[d]) ==> !InTime(ws[i].now, ws[i].callers[c])
  {
    RunInv(ttl, ws, who, actions, i);
  }

  /** A holder that overruns can share the workflow with the next one. */
  lemma OverrunShares(ttl: int) returns (ws: seq<World>, who: seq<int>, actions: seq<Action>)
    requires ttl > 0
    ensures Run(ttl, ws, who, actions)
    ensures var w := ws[|actions|];
      1 in w.callers && 2 in w.callers && Owns(w.callers[1]) && Owns(w.callers[2])
        && w.callers[1].workflow == w.callers[2].workflow
  {
    var a0, b0 := Caller(1, 7, 1, Asking), Caller(2, 7, 2, Asking);
    var w0 := World(0, map[], {}, map[1 := a0, 2 := b0]);
    var w1 := w0.(callers := map[1 := a0.(stage := Cleared), 2 := b0]);
    var w2 := World(0, map[7 := Entry(1, ttl)], {}, map[1 := a0.(stage := Locked(ttl)), 2 := b0]);
    var w3 := w2.(now := ttl);
    var w4 := w3.(callers := map[1 := a0.(stage := Locked(ttl)), 2 := b0.(stage := Cleared)]);
    var w5 := World(ttl, map[7 := Entry(2, ttl + ttl)], {},
      map[1 := a0.(stage := Locked(ttl)), 2 := b0.(stage := Locked(ttl + ttl))]);
    ws, who, actions := [w0, w1, w2, w3, w4, w5], [1, 1, 0, 2, 2], [CheckFlag, SetNx, Tick(ttl), CheckFlag, SetNx];
    assert Next(ttl, w0, w1, 1, CheckFlag);
    assert Next(ttl, w1, w2, 1, SetNx);
    assert Next(ttl, w3, w4, 2, CheckFlag);
    assert Next(ttl, w4, w5, 2, SetNx);
  }

  // ---------- In one process ----------

  /** The release function that `Acquire` returns. */
  class Lease {
    const workflow: int
    var released: bool

    constructor (workflow: int)
      ensures this.workflow == workflow && !released
    {
      this.workflow := workflow;
      released := false;
    }
  }

  class MemoryWorkflowLock {
    var locks: set<int>
    ghost var leases: set<Lease>

    /** Each locked workflow has exactly one lease that has not been released. */
    ghost predicate Valid()
      reads this, leases
    {
      && (forall l :: l in leases ==> !l.released && l.workflow in locks)
      && (forall l, m :: l in leases && m in leases && l.workflow == m.workflow ==> l == m)
      && (forall wf :: wf in locks ==> exists l :: l in leases && l.workflow == wf)
    }

    constructor ()
      ensures Valid() && locks == {} && leases == {}
    {
      locks, leases := {}, {};
    }

    method Acquire(workflow: int) returns (lease: Lease?)
      requires Valid()
      modifies this
      ensures Valid()
      ensures lease == null <==> workflow in old(locks)
      ensures lease == null ==> locks == old(locks) && leases == old(leases)
      ensures lease != null ==> fresh(lease) && lease.workflow == workflow
      ensures lease != null ==> locks == old(locks) + {workflow} && leases == old(leases) + {lease}
    {
      if workflow in locks {
        return null;
      }
      lease := new Lease(workflow);
      locks := locks + {workflow};
      leases := leases + {lease};
    }

    /** Only the first call for a lease unlocks; a later one cannot free somebody else's hold. */
    method Release(lease: Lease)
      requires Valid() && (lease in leases || lease.released)
      modifies this, lease
      ensures Valid() && lease.released
      ensures leases == old(leases) - {lease}
      ensures locks == if old(lease.released) then old(locks) else old(locks) - {lease.workflow}
    {
      if lease.released {
        return;
      }
      lease.released := true;
      locks := locks - {lease.workflow};
      leases := leases - {lease};
    }
  }
}
