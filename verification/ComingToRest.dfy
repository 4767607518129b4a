/** When the synchronisation protocol comes to rest.  A system left to itself only delivers,
    forwards and flushes; whether that ends depends on what is under way. */
module ComingToRest {
  import opened Convergence

  // A flush has something to send, as the dirty maps have it.
  ghost predicate Flagged<K, V>(s: System<K, V>, step: Step<K, V>) {
    && (step.ServerFlush? ==> s.server.pending != {})
    && (step.ClientFlush? ==> step.i < |s.clients| && s.clients[step.i].pending != {})
  }

  ghost predicate Unprompted<K, V>(s: System<K, V>, step: Step<K, V>) {
    Enabled(s, step) && !IsSet(step) && Flagged(s, step)
  }

  // A run without any set.
  ghost predicate Follows<K, V>(s: System<K, V>, steps: seq<Step<K, V>>)
    decreases |steps|
  {
    Shaped(s) && (steps != [] ==> Unprompted(s, steps[0]) && Follows(Next(s, steps[0]), steps[1..]))
  }

  ghost function End<K, V>(s: System<K, V>, steps: seq<Step<K, V>>): (r: System<K, V>)
    requires Follows(s, steps)
    decreases |steps|
  {
    if steps == [] then s else End(Next(s, steps[0]), steps[1..])
  }

  // ---------------------------------------------------------------- at most one value per field

  ghost predicate Aims<K, V>(s: Site<K, V>, goal: map<K, V>) {
    s.values.Keys == goal.Keys && s.pending <= goal.Keys && forall k :: k in s.pending ==> s.values[k] == goal[k]
  }

  ghost predicate AllCarry<K, V>(c: Channel<K, V>, goal: map<K, V>) {
    forall j, k :: 0 <= j < |c| && k in c[j] ==> k in goal && c[j][k] == goal[k]
  }

  // Whatever is flagged or on its way for a field is one and the same value, the goal's.
  ghost predicate Uncontested<K, V>(s: System<K, V>, goal: map<K, V>) {
    && Shaped(s) && Aims(s.server, goal)
    && (forall i :: 0 <= i < |s.clients| ==> Aims(s.clients[i], goal))
    && (forall i :: 0 <= i < |s.down| ==> AllCarry(s.down[i], goal))
    && (forall i :: 0 <= i < |s.up| ==> AllCarry(s.up[i], goal))
  }

  // ---------------------------------------------------------------- what is left to happen

  ghost function Wrong<K, V>(s: Site<K, V>, goal: map<K, V>): (r: set<K>)
    requires s.values.Keys == goal.Keys
  {
    set k | k in s.values && s.values[k] != goal[k]
  }

  ghost function Load<K, V>(s: Site<K, V>, goal: map<K, V>, n: nat): (r: nat)
    requires s.values.Keys == goal.Keys
  {
    |Wrong(s, goal)| * (n + 2) + |s.pending| * (n + 1)
  }

  ghost function Loads<K, V>(sites: seq<Site<K, V>>, goal: map<K, V>, n: nat): (r: nat)
    requires forall i :: 0 <= i < |sites| ==> sites[i].values.Keys == goal.Keys
  {
    if sites == [] then 0 else Load(sites[0], goal, n) + Loads(sites[1..], goal, n)
  }

  function Count<M>(cs: seq<seq<M>>): (r: nat) { if cs == [] then 0 else |cs[0]| + Count(cs[1..]) }

  // Each wrong value can still cost a delivery, a flush and its messages; each flag a flush and
  // its messages; a message to the server the forwards of it.
  ghost function Energy<K, V>(s: System<K, V>, goal: map<K, V>): (r: nat)
    requires Uncontested(s, goal)
  {
    var n := |s.clients|;
    Load(s.server, goal, n) + Loads(s.clients, goal, n) + n * Count(s.up) + Count(s.down)
  }

  lemma {:induction false} LoadsAfter<K, V>(sites: seq<Site<K, V>>, i: nat, site: Site<K, V>, goal: map<K, V>, n: nat)
    requires i < |sites| && site.values.Keys == goal.Keys
    requires forall j :: 0 <= j < |sites| ==> sites[j].values.Keys == goal.Keys
    ensures Loads(sites[i := site], goal, n) == Loads(sites, goal, n) - Load(sites[i], goal, n) + Load(site, goal, n)
  {
    hide Load;
    if i == 0 {
      assert sites[0 := site][1..] == sites[1..];
    } else {
      assert sites[i := site][1..] == sites[1..][i - 1 := site];
      LoadsAfter(sites[1..], i - 1, site, goal, n);
    }
  }

  lemma {:induction false} CountAfter<M>(cs: seq<seq<M>>, i: nat, c: seq<M>)
    requires i < |cs|
    ensures Count(cs[i := c]) == Count(cs) - |cs[i]| + |c|
  {
    if i == 0 {
      assert cs[0 := c][1..] == cs[1..];
    } else {
      assert cs[i := c][1..] == cs[1..][i - 1 := c];
      CountAfter(cs[1..], i - 1, c);
    }
  }

  lemma {:induction false} CountSent<M>(cs: seq<seq<M>>, m: M, except: int)
    ensures Count(SendToAll(cs, m, except)) == Count(cs) + |cs| - if 0 <= except < |cs| then 1 else 0
  {
    if cs != [] {
      assert SendToAll(cs, m, except)[1..] == SendToAll(cs[1..], m, except - 1);
      CountSent(cs[1..], m, except - 1);
    }
  }

  lemma LearningLowers<K, V>(s: Site<K, V>, m: map<K, V>, goal: map<K, V>, n: nat)
    requires Aims(s, goal) && m.Keys <= goal.Keys && forall k :: k in m ==> m[k] == goal[k]
    ensures Aims(Learn(s, m), goal) && Load(Learn(s, m), goal, n) <= Load(s, goal, n)
  {
    var learnt := set k | k in m && m[k] != s.values[k];
    var s' := Learn(s, m);
    assert Wrong(s', goal) == Wrong(s, goal) - learnt && learnt <= Wrong(s, goal);
    assert s'.pending == s.pending + learnt && s.pending !! learnt;
    Sizes(Wrong(s, goal), s.pending, learnt, n);
  }

  lemma Sizes<K>(wrong: set<K>, pending: set<K>, learnt: set<K>, n: nat)
    requires learnt <= wrong && pending !! learnt
    ensures |wrong - learnt| * (n + 2) + |pending + learnt| * (n + 1) <= |wrong| * (n + 2) + |pending| * (n + 1)
  {
    assert wrong == (wrong - learnt) + learnt;
    assert |wrong| == |wrong - learnt| + |learnt| && |pending + learnt| == |pending| + |learnt|;
    assert |wrong| * (n + 2) == |wrong - learnt| * (n + 2) + |learnt| * (n + 2);
    assert |pending + learnt| * (n + 1) == |pending| * (n + 1) + |learnt| * (n + 1);
  }

  lemma CalmingLowers<K, V>(s: Site<K, V>, goal: map<K, V>, n: nat)
    requires Aims(s, goal) && s.pending != {}
    ensures Aims(Calm(s), goal) && Load(Calm(s), goal, n) + n + 1 <= Load(s, goal, n)
  {
    assert Wrong(Calm(s), goal) == Wrong(s, goal);
    assert |s.pending| >= 1;
    assert |s.pending| * (n + 1) >= n + 1;
  }

  lemma DeltaIsTheGoals<K, V>(s: Site<K, V>, goal: map<K, V>)
    requires Aims(s, goal)
    ensures Delta(s).Keys <= goal.Keys && forall k :: k in Delta(s) ==> Delta(s)[k] == goal[k]
  {
  }

  lemma PushedCarries<K, V>(c: Channel<K, V>, m: map<K, V>, goal: map<K, V>)
    requires AllCarry(c, goal) && m.Keys <= goal.Keys && forall k :: k in m ==> m[k] == goal[k]
    ensures AllCarry(c + [m], goal)
  {
  }

  lemma PoppedCarries<K, V>(c: Channel<K, V>, goal: map<K, V>)
    requires c != [] && AllCarry(c, goal)
    ensures AllCarry(c[1..], goal) && c[0].Keys <= goal.Keys && forall k :: k in c[0] ==> c[0][k] == goal[k]
  {
    assert forall j :: 0 <= j < |c[1..]| ==> c[1..][j] == c[j + 1];
  }

  lemma OneMoreTimes(n: nat, c: int)
    ensures n * (c + 1) == n * c + n
  {
  }

  lemma EnergyOf<K, V>(s: System<K, V>, t: System<K, V>, goal: map<K, V>)
    requires Uncontested(s, goal) && Uncontested(t, goal) && |t.clients| == |s.clients|
    requires var n := |s.clients|;
      Load(t.server, goal, n) + Loads(t.clients, goal, n) + n * Count(t.up) + Count(t.down)
      < Load(s.server, goal, n) + Loads(s.clients, goal, n) + n * Count(s.up) + Count(s.down)
    ensures Energy(t, goal) < Energy(s, goal)
  {
  }

  lemma EnergyIs<K, V>(s: System<K, V>, goal: map<K, V>)
    requires Uncontested(s, goal) && Count(s.up) == 0 && Count(s.down) == 0
    ensures Energy(s, goal) == Load(s.server, goal, |s.clients|) + Loads(s.clients, goal, |s.clients|)
  {
  }

  lemma ServerFlushLowers<K, V>(s: System<K, V>, goal: map<K, V>)
    requires Uncontested(s, goal) && s.server.pending != {}
    ensures Uncontested(Next(s, ServerFlush), goal) && Energy(Next(s, ServerFlush), goal) < Energy(s, goal)
  {
    hide AllCarry, Aims, Load, Delta, Calm;
    var n, m := |s.clients|, Delta(s.server);
    var t := Next(s, ServerFlush);
    NextIsShaped(s, ServerFlush);
    DeltaIsTheGoals(s.server, goal);
    CalmingLowers(s.server, goal, n);
    CountSent(s.down, m, -1);
    forall i | 0 <= i < |s.down|
      ensures AllCarry(t.down[i], goal)
    {
      PushedCarries(s.down[i], m, goal);
    }
    EnergyOf(s, t, goal);
  }

  lemma ClientFlushKeeps<K, V>(s: System<K, V>, i: nat, goal: map<K, V>)
    requires Uncontested(s, goal) && i < |s.clients| && s.clients[i].pending != {}
    ensures Uncontested(Next(s, ClientFlush(i)), goal)
  {
    hide AllCarry, Delta;
    NextIsShaped(s, ClientFlush(i));
    DeltaIsTheGoals(s.clients[i], goal);
    PushedCarries(s.up[i], Delta(s.clients[i]), goal);
  }

  lemma ClientFlushLowers<K, V>(s: System<K, V>, i: nat, goal: map<K, V>)
    requires Uncontested(s, goal) && i < |s.clients| && s.clients[i].pending != {}
    ensures Uncontested(Next(s, ClientFlush(i)), goal) && Energy(Next(s, ClientFlush(i)), goal) < Energy(s, goal)
  {
    var n, m, t := |s.clients|, Delta(s.clients[i]), Next(s, ClientFlush(i));
    ClientFlushKeeps(s, i, goal);
    CalmingLowers(s.clients[i], goal, n);
    LoadsAfter(s.clients, i, Calm(s.clients[i]), goal, n);
    CountAfter(s.up, i, s.up[i] + [m]);
    assert n * Count(t.up) == n * Count(s.up) + n by { OneMoreTimes(n, Count(s.up)); }
    EnergyOf(s, t, goal);
  }

  lemma ServerReceiveLowers<K, V>(s: System<K, V>, i: nat, goal: map<K, V>)
    requires Uncontested(s, goal) && i < |s.clients| && s.up[i] != []
    ensures Uncontested(Next(s, ServerReceive(i)), goal) && Energy(Next(s, ServerReceive(i)), goal) < Energy(s, goal)
  {
    hide AllCarry, Aims, Load, Learn;
    var n, m := |s.clients|, s.up[i][0];
    var t := Next(s, ServerReceive(i));
    NextIsShaped(s, ServerReceive(i));
    PoppedCarries(s.up[i], goal);
    LearningLowers(s.server, m, goal, n);
    CountAfter(s.up, i, s.up[i][1..]);
    CountSent(s.down, m, i);
    forall j | 0 <= j < |s.down|
      ensures AllCarry(t.down[j], goal)
    {
      PushedCarries(s.down[j], m, goal);
    }
    assert n * (Count(s.up) - 1) == n * Count(s.up) - n;
    EnergyOf(s, t, goal);
  }

  lemma ClientReceiveLowers<K, V>(s: System<K, V>, i: nat, goal: map<K, V>)
    requires Uncontested(s, goal) && i < |s.clients| && s.down[i] != []
    ensures Uncontested(Next(s, ClientReceive(i)), goal) && Energy(Next(s, ClientReceive(i)), goal) < Energy(s, goal)
  {
    hide AllCarry, Load;
    var n, m := |s.clients|, s.down[i][0];
    var t := Next(s, ClientReceive(i));
    NextIsShaped(s, ClientReceive(i));
    PoppedCarries(s.down[i], goal);
    LearningLowers(s.clients[i], m, goal, n);
    LoadsAfter(s.clients, i, Learn(s.clients[i], m), goal, n);
    CountAfter(s.down, i, s.down[i][1..]);
    EnergyOf(s, t, goal);
  }

  // Nothing contested arises, and every step brings the end nearer.
  lemma StepLowers<K, V>(s: System<K, V>, step: Step<K, V>, goal: map<K, V>)
    requires Uncontested(s, goal) && Unprompted(s, step)
    ensures Uncontested(Next(s, step), goal) && Energy(Next(s, step), goal) < Energy(s, goal)
  {
    hide Uncontested, Energy, Next;
    match step
    case ServerFlush => ServerFlushLowers(s, goal);
    case ClientFlush(i) => ClientFlushLowers(s, i, goal);
    case ServerReceive(i) => ServerReceiveLowers(s, i, goal);
    case ClientReceive(i) => ClientReceiveLowers(s, i, goal);
    case _ =>
  }

  // Left to itself, an uncontested system stops after at most so many steps, in any order.
  lemma {:induction false} ComesToRest<K, V>(s: System<K, V>, steps: seq<Step<K, V>>, goal: map<K, V>)
    requires Follows(s, steps) && Uncontested(s, goal)
    ensures |steps| <= Energy(s, goal) && Uncontested(End(s, steps), goal)
    decreases |steps|
  {
    hide Uncontested, Energy, Next;
    if steps != [] {
      StepLowers(s, steps[0], goal);
      ComesToRest(Next(s, steps[0]), steps[1..], goal);
    }
  }

  // ---------------------------------------------------------------- with sets in between

  // A set of the value that the field is to have; or a flush or delivery.
  ghost predicate Conforms<K, V>(s: System<K, V>, step: Step<K, V>, goal: map<K, V>) {
    if IsSet(step) then step.k in goal && step.v == goal[step.k] else Flagged(s, step)
  }

  // The flushes and deliveries among the steps.
  ghost function Work<K, V>(steps: seq<Step<K, V>>): (r: nat) {
    if steps == [] then 0 else Work(steps[..|steps| - 1]) + if IsSet(steps[|steps| - 1]) then 0 else 1
  }

  lemma SetKeeps<K, V>(s: System<K, V>, step: Step<K, V>, goal: map<K, V>)
    requires Uncontested(s, goal) && IsSet(step) && Enabled(s, step) && Conforms(s, step, goal)
    ensures Uncontested(Next(s, step), goal) && Energy(Next(s, step), goal) <= Energy(s, goal)
  {
    var n := |s.clients|;
    NextIsShaped(s, step);
    match step
    case ServerSet(k, v) =>
      LearningLowers(s.server, map[k := v], goal, n);
      hide Load, Aims, Learn, AllCarry;
    case ClientSet(i, k, v) =>
      LearningLowers(s.clients[i], map[k := v], goal, n);
      LoadsAfter(s.clients, i, Learn(s.clients[i], map[k := v]), goal, n);
      hide Load, Aims, Learn, AllCarry;
    case _ =>
  }

  lemma {:induction false} WorkUpTo<K, V>(run: seq<System<K, V>>, steps: seq<Step<K, V>>, n: nat, goal: map<K, V>)
    requires IsRun(run, steps) && Uncontested(run[0], goal) && n < |run|
    requires forall m :: 0 <= m < n ==> Conforms(run[m], steps[m], goal)
    ensures Uncontested(run[n], goal) && Work(steps[..n]) + Energy(run[n], goal) <= Energy(run[0], goal)
  {
    if n > 0 {
      WorkUpTo(run, steps, n - 1, goal);
      assert steps[..n][..n - 1] == steps[..n - 1] && run[n - 1 + 1] == Next(run[n - 1], steps[n - 1]);
      assert Shaped(run[n - 1]) && Enabled(run[n - 1], steps[n - 1]) && Conforms(run[n - 1], steps[n - 1], goal);
      hide IsRun, Uncontested, Energy, Next, Enabled, Shaped, Conforms;
      ConformingStep(run[n - 1], steps[n - 1], goal);
    }
  }

  lemma ConformingStep<K, V>(s: System<K, V>, step: Step<K, V>, goal: map<K, V>)
    requires Uncontested(s, goal) && Shaped(s) && Enabled(s, step) && Conforms(s, step, goal)
    ensures Uncontested(Next(s, step), goal)
    ensures Energy(Next(s, step), goal) + (if IsSet(step) then 0 else 1) <= Energy(s, goal)
  {
    hide Uncontested, Energy, Next;
    if IsSet(step) { SetKeeps(s, step, goal); } else { StepLowers(s, step, goal); }
  }

  lemma {:induction false} LoadsOfAll<K, V>(sites: seq<Site<K, V>>, values: map<K, V>, goal: map<K, V>, n: nat)
    requires values.Keys == goal.Keys && forall i :: 0 <= i < |sites| ==> sites[i] == Site(values, {})
    ensures Loads(sites, goal, n) == |sites| * (|Wrong(Site(values, {}), goal)| * (n + 2))
  {
    var one := |Wrong(Site(values, {}), goal)| * (n + 2);
    assert Load(Site(values, {}), goal, n) == one;
    if sites != [] {
      LoadsOfAll(sites[1..], values, goal, n);
      hide Load;
      OneMoreTimes(one, |sites| - 1);
    }
  }

  lemma AgreedEnergy<K, V>(s: System<K, V>, goal: map<K, V>)
    requires Shaped(s) && Quiescent(s) && Agree(s) && goal.Keys == s.server.values.Keys
    ensures Uncontested(s, goal)
    ensures Energy(s, goal) == (|s.clients| + 1) * (|Wrong(s.server, goal)| * (|s.clients| + 2))
  {
    assert Uncontested(s, goal);
    assert s.server == Site(s.server.values, {});
    LoadsOfAll(s.clients, s.server.values, goal, |s.clients|);
    NothingToCount(s.down);
    NothingToCount(s.up);
    EnergyIs(s, goal);
    OneMoreTimes(|Wrong(s.server, goal)| * (|s.clients| + 2), |s.clients|);
  }

  // However sets and steps are interleaved: from agreement, and with no two sets of different
  // values of a field, there are at most (n + 1) * (n + 2) flushes and deliveries for each
  // field that changes.
  lemma WorkIsBounded<K, V>(run: seq<System<K, V>>, steps: seq<Step<K, V>>, goal: map<K, V>)
    requires IsRun(run, steps) && Shaped(run[0]) && Quiescent(run[0]) && Agree(run[0])
    requires goal.Keys == run[0].server.values.Keys
    requires forall m :: 0 <= m < |steps| ==> Conforms(run[m], steps[m], goal)
    ensures Work(steps) <= (|run[0].clients| + 1) * (|Wrong(run[0].server, goal)| * (|run[0].clients| + 2))
  {
    AgreedEnergy(run[0], goal);
    WorkUpTo(run, steps, |steps|, goal);
    assert steps[..|steps|] == steps;
  }

  // ---------------------------------------------------------------- where it stops

  // It stops nowhere else than where it is quiet: as long as anything is flagged or under way,
  // there is a step to take.
  lemma QuiescentIffNothingToDo<K, V>(s: System<K, V>)
    requires Shaped(s)
    ensures Quiescent(s) <==> forall step: Step<K, V> :: !Unprompted(s, step)
  {
    if !Quiescent(s) {
      if s.server.pending != {} {
        assert Unprompted(s, Step<K, V>.ServerFlush);
      } else if i :| 0 <= i < |s.clients| && s.clients[i].pending != {} {
        assert Unprompted(s, Step<K, V>.ClientFlush(i));
      } else if i :| 0 <= i < |s.down| && s.down[i] != [] {
        assert Unprompted(s, Step<K, V>.ClientReceive(i));
      } else {
        var i :| 0 <= i < |s.up| && s.up[i] != [];
        assert Unprompted(s, Step<K, V>.ServerReceive(i));
      }
    }
  }

  // ---------------------------------------------------------------- a lone set

  lemma {:induction false} InvariantAtTheEnd<K, V>(s: System<K, V>, steps: seq<Step<K, V>>)
    requires Follows(s, steps) && Invariant(s)
    ensures Invariant(End(s, steps)) && |End(s, steps).clients| == |s.clients|
    decreases |steps|
  {
    hide Invariant, Next;
    if steps != [] {
      NextIsShaped(s, steps[0]);
      InvariantIsKept(s, steps[0]);
      InvariantAtTheEnd(Next(s, steps[0]), steps[1..]);
    }
  }

  lemma {:induction false} SpreadingAtTheEnd<K, V>(s: System<K, V>, steps: seq<Step<K, V>>, k: K, v: V, who: int)
    requires Follows(s, steps) && Spreading(s, k, v, who)
    ensures Spreading(End(s, steps), k, v, who)
    decreases |steps|
  {
    hide Spreading, Next;
    if steps != [] {
      SpreadingIsKept(s, steps[0], k, v, who);
      SpreadingAtTheEnd(Next(s, steps[0]), steps[1..], k, v, who);
    }
  }

  // What the set makes of everybody's values.
  function Goal<K, V>(s: System<K, V>, step: Step<K, V>): (r: map<K, V>)
    requires step.ServerSet? || step.ClientSet?
  {
    s.server.values[step.k := step.v]
  }

  lemma {:induction false} LoadsAtMost<K, V>(sites: seq<Site<K, V>>, goal: map<K, V>, n: nat, most: nat)
    requires forall i :: 0 <= i < |sites| ==> sites[i].values.Keys == goal.Keys
    requires forall i :: 0 <= i < |sites| ==> Load(sites[i], goal, n) <= most
    ensures Loads(sites, goal, n) <= |sites| * most
  {
    hide Load;
    if sites != [] {
      LoadsAtMost(sites[1..], goal, n, most);
      assert |sites| * most == (|sites| - 1) * most + most;
    }
  }

  lemma {:induction false} NothingToCount<M>(cs: seq<seq<M>>)
    requires forall i :: 0 <= i < |cs| ==> cs[i] == []
    ensures Count(cs) == 0
  {
    if cs != [] { NothingToCount(cs[1..]); }
  }

  // A site that lacks one value, or flags one.
  lemma LoadOfOne<K, V>(s: Site<K, V>, goal: map<K, V>, k: K, n: nat)
    requires s.values.Keys == goal.Keys && Wrong(s, goal) <= {k} && s.pending <= {k} && Wrong(s, goal) !! s.pending
    ensures Load(s, goal, n) <= n + 2
  {
    if k in Wrong(s, goal) {
      assert Wrong(s, goal) == {k} && s.pending == {};
    } else {
      assert Wrong(s, goal) == {} && (s.pending == {} || s.pending == {k});
    }
  }

  // A site that lacks at most the one value, or flags at most it.
  ghost predicate OneOff<K, V>(s: Site<K, V>, goal: map<K, V>, k: K) {
    s.values.Keys == goal.Keys && Wrong(s, goal) <= {k} && s.pending <= {k} && Wrong(s, goal) !! s.pending
  }

  lemma SitesAfterASet<K, V>(s: System<K, V>, step: Step<K, V>)
    requires Shaped(s) && Quiescent(s) && Agree(s) && IsSet(step) && Enabled(s, step)
    ensures var t, goal := Next(s, step), Goal(s, step);
      && Uncontested(t, goal) && |t.clients| == |s.clients|
      && (forall i :: 0 <= i < |t.down| ==> t.down[i] == []) && (forall i :: 0 <= i < |t.up| ==> t.up[i] == [])
      && OneOff(t.server, goal, step.k) && forall i :: 0 <= i < |t.clients| ==> OneOff(t.clients[i], goal, step.k)
  {
    NextIsShaped(s, step);
  }

  lemma OneAndTheOthers(one: nat, others: nat, n: nat, most: nat)
    requires one <= most && others <= n * most
    ensures one + others <= (n + 1) * most
  {
  }

  lemma EnergyOfOne<K, V>(t: System<K, V>, goal: map<K, V>, k: K)
    requires Uncontested(t, goal)
    requires (forall i :: 0 <= i < |t.down| ==> t.down[i] == []) && (forall i :: 0 <= i < |t.up| ==> t.up[i] == [])
    requires OneOff(t.server, goal, k) && forall i :: 0 <= i < |t.clients| ==> OneOff(t.clients[i], goal, k)
    ensures Energy(t, goal) <= (|t.clients| + 1) * (|t.clients| + 2)
  {
    hide Shaped, Uncontested, Load, Loads, Count, Energy, Wrong;
    var n := |t.clients|;
    LoadOfOne(t.server, goal, k, n);
    forall i | 0 <= i < n
      ensures t.clients[i].values.Keys == goal.Keys && Load(t.clients[i], goal, n) <= n + 2
    {
      LoadOfOne(t.clients[i], goal, k, n);
    }
    LoadsAtMost(t.clients, goal, n, n + 2);
    NothingToCount(t.down);
    NothingToCount(t.up);
    EnergyIs(t, goal);
    OneAndTheOthers(Load(t.server, goal, n), Loads(t.clients, goal, n), n, n + 2);
  }

  lemma SetIsUncontested<K, V>(s: System<K, V>, step: Step<K, V>)
    requires Shaped(s) && Quiescent(s) && Agree(s) && IsSet(step) && Enabled(s, step)
    ensures var n := |s.clients|;
      && Uncontested(Next(s, step), Goal(s, step))
      && Energy(Next(s, step), Goal(s, step)) <= (n + 1) * (n + 2)
  {
    assert step.ServerSet? || step.ClientSet?;
    hide *;
    SitesAfterASet(s, step);
    EnergyOfOne(Next(s, step), Goal(s, step), step.k);
  }

  lemma EveryFieldSpreads<K, V>(s: System<K, V>, step: Step<K, V>, k: K)
    requires Shaped(s) && Quiescent(s) && Agree(s) && IsSet(step) && Enabled(s, step) && k in Goal(s, step)
    ensures Spreading(Next(s, step), k, Goal(s, step)[k], if k == step.k then Setter(step) else -1)
  {
    NextIsShaped(s, step);
  }

  // One set from agreement: after at most (n + 1) * (n + 2) steps nothing is left to do, and
  // then every replica has the new value and nothing else has changed.
  lemma LoneSetComesToRest<K, V>(s: System<K, V>, step: Step<K, V>, steps: seq<Step<K, V>>)
    requires Shaped(s) && Quiescent(s) && Agree(s) && IsSet(step) && Enabled(s, step)
    requires Follows(Next(s, step), steps)
    ensures |steps| <= (|s.clients| + 1) * (|s.clients| + 2)
    ensures var end := End(Next(s, step), steps);
      (forall x: Step<K, V> :: !Unprompted(end, x)) ==>
        && Quiescent(end) && |end.clients| == |s.clients|
        && end.server.values == Goal(s, step) && forall i :: 0 <= i < |end.clients| ==>
           end.clients[i].values == Goal(s, step)
  {
    var t, goal := Next(s, step), Goal(s, step);
    SetIsUncontested(s, step);
    ComesToRest(t, steps, goal);
    AgreedStart(s);
    InvariantIsKept(s, step);
    InvariantAtTheEnd(t, steps);
    NextIsShaped(s, step);
    var end := End(t, steps);
    forall k | k in goal
      ensures Spreading(end, k, goal[k], if k == step.k then Setter(step) else -1)
    {
      EveryFieldSpreads(s, step, k);
      SpreadingAtTheEnd(t, steps, k, goal[k], if k == step.k then Setter(step) else -1);
    }
    QuiescentIffNothingToDo(end);
    if Quiescent(end) {
      QuietMeansAgreed(end);
      RestsAtTheGoal(end, goal, step);
    }
  }

  lemma RestsAtTheGoal<K, V>(end: System<K, V>, goal: map<K, V>, step: Step<K, V>)
    requires Agree(end) && end.server.values.Keys == goal.Keys && IsSet(step)
    requires forall k :: k in goal ==> Spreading(end, k, goal[k], if k == step.k then Setter(step) else -1)
    ensures end.server.values == goal
  {
    forall k | k in goal
      ensures end.server.values[k] == goal[k]
    {
      var who := if k == step.k then Setter(step) else -1;
      assert Spreading(end, k, goal[k], who);
      if who >= 0 { assert Stands(end.clients[who], k, goal[k], true); }
    }
  }

  // ---------------------------------------------------------------- two values for one field

  // The server has a to send and client j has b, with nothing under way between the two.
  ghost predicate CrossedAt<K, V>(s: System<K, V>, j: nat, k: K, a: V, b: V) {
    && Shaped(s) && j < |s.clients| && a != b && s.down[j] == [] && s.up[j] == []
    && k in s.server.pending && s.server.values[k] == a
    && k in s.clients[j].pending && s.clients[j].values[k] == b
  }

  // Both send, and both hear what the other sent.
  function Round<K, V>(j: nat): (r: seq<Step<K, V>>) {
    [ServerFlush, ClientFlush(j), ClientReceive(j), ServerReceive(j)]
  }

  lemma OneMore<K, V>(s: System<K, V>, step: Step<K, V>, rest: seq<Step<K, V>>)
    requires Shaped(s) && Unprompted(s, step) && Follows(Next(s, step), rest)
    ensures Follows(s, [step] + rest) && End(s, [step] + rest) == End(Next(s, step), rest)
  {
    hide Next, Unprompted;
    assert ([step] + rest)[1..] == rest;
  }

  ghost predicate Leads<K, V>(s: System<K, V>, step: Step<K, V>, t: System<K, V>) {
    Shaped(s) && Unprompted(s, step) && t == Next(s, step)
  }

  lemma FourMore<K, V>(
    s: System<K, V>, s1: System<K, V>, s2: System<K, V>, s3: System<K, V>, s4: System<K, V>,
    a: Step<K, V>, b: Step<K, V>, c: Step<K, V>, d: Step<K, V>, rest: seq<Step<K, V>>)
    requires Leads(s, a, s1) && Leads(s1, b, s2) && Leads(s2, c, s3) && Leads(s3, d, s4) && Follows(s4, rest)
    ensures Follows(s, [a, b, c, d] + rest) && End(s, [a, b, c, d] + rest) == End(s4, rest)
  {
    hide Next, Unprompted, Shaped, Follows, End;
    OneMore(s3, d, rest);
    OneMore(s2, c, [d] + rest);
    OneMore(s1, b, [c] + ([d] + rest));
    OneMore(s, a, [b] + ([c] + ([d] + rest)));
    assert [a, b, c, d] + rest == [a] + ([b] + ([c] + ([d] + rest)));
  }

  // Both are on their way.
  ghost predicate PassingAt<K, V>(s: System<K, V>, j: nat, k: K, a: V, b: V) {
    && Shaped(s) && j < |s.clients| && a != b && |s.down[j]| == 1 && |s.up[j]| == 1
    && k in s.down[j][0] && s.down[j][0][k] == a && k in s.up[j][0] && s.up[j][0][k] == b
    && k in s.server.values && s.server.values[k] == a && s.clients[j].values[k] == b
  }

  lemma BothFlush<K, V>(s: System<K, V>, j: nat, k: K, a: V, b: V) returns (s1: System<K, V>, s2: System<K, V>)
    requires CrossedAt(s, j, k, a, b)
    ensures Leads(s, ServerFlush, s1) && Leads(s1, ClientFlush(j), s2) && PassingAt(s2, j, k, a, b)
  {
    s1 := Next(s, ServerFlush);
    NextIsShaped(s, ServerFlush);
    assert s1.down[j] == [Delta(s.server)] && Delta(s.server)[k] == a;
    s2 := Next(s1, ClientFlush(j));
    NextIsShaped(s1, ClientFlush(j));
    assert s2.up[j] == [Delta(s.clients[j])] && Delta(s.clients[j])[k] == b;
  }

  lemma BothReceive<K, V>(s: System<K, V>, j: nat, k: K, a: V, b: V) returns (s1: System<K, V>, s2: System<K, V>)
    requires PassingAt(s, j, k, a, b)
    ensures Leads(s, ClientReceive(j), s1) && Leads(s1, ServerReceive(j), s2) && CrossedAt(s2, j, k, b, a)
  {
    s1 := Next(s, ClientReceive(j));
    NextIsShaped(s, ClientReceive(j));
    s2 := Next(s1, ServerReceive(j));
    NextIsShaped(s1, ServerReceive(j));
  }

  lemma OneRound<K, V>(s: System<K, V>, j: nat, k: K, a: V, b: V, rest: seq<Step<K, V>>) returns (t: System<K, V>)
    requires CrossedAt(s, j, k, a, b)
    ensures CrossedAt(t, j, k, b, a)
    ensures Follows(t, rest) ==> Follows(s, Round(j) + rest) && End(s, Round(j) + rest) == End(t, rest)
  {
    hide CrossedAt, PassingAt, Leads, Follows, End;
    var s1, s2 := BothFlush(s, j, k, a, b);
    var s3, s4 := BothReceive(s2, j, k, a, b);
    t := s4;
    if Follows(t, rest) {
      FourMore(s, s1, s2, s3, s4, ServerFlush, ClientFlush(j), ClientReceive(j), ServerReceive(j), rest);
    }
  }

  function Rounds<K, V>(j: nat, n: nat): (r: seq<Step<K, V>>) { if n == 0 then [] else Round(j) + Rounds(j, n - 1) }

  // The two pass each other for ever, and exchange their values each time.
  lemma {:induction false} CrossedNeverRests<K, V>(s: System<K, V>, j: nat, k: K, a: V, b: V, n: nat)
    requires CrossedAt(s, j, k, a, b)
    ensures |Rounds<K, V>(j, n)| == 4 * n && Follows(s, Rounds(j, n))
    ensures CrossedAt(End(s, Rounds(j, n)), j, k, if n % 2 == 0 then a else b, if n % 2 == 0 then b else a)
    decreases n
  {
    if n > 0 {
      hide CrossedAt, Follows, End;
      var t := OneRound(s, j, k, a, b, Rounds(j, n - 1));
      CrossedNeverRests(t, j, k, b, a, n - 1);
    }
  }

  // Clients i and j have a and b to send, with nothing of theirs under way.
  ghost predicate RivalsAt<K, V>(s: System<K, V>, i: nat, j: nat, k: K, a: V, b: V) {
    && Shaped(s) && i < |s.clients| && j < |s.clients| && i != j && a != b
    && s.down[j] == [] && s.up[i] == [] && s.up[j] == []
    && k in s.clients[i].pending && s.clients[i].values[k] == a
    && k in s.clients[j].pending && s.clients[j].values[k] == b
  }

  // Both are sent.
  ghost predicate SentAt<K, V>(s: System<K, V>, i: nat, j: nat, k: K, a: V, b: V) {
    && Shaped(s) && i < |s.clients| && j < |s.clients| && i != j && a != b
    && s.down[j] == [] && |s.up[i]| == 1 && |s.up[j]| == 1
    && k in s.up[i][0] && s.up[i][0][k] == a && k in s.up[j][0] && s.up[j][0][k] == b
    && k in s.server.values && s.clients[j].values[k] == b
  }

  lemma RivalsSend<K, V>(s: System<K, V>, i: nat, j: nat, k: K, a: V, b: V) returns (s1: System<K, V>, s2: System<K, V>)
    requires RivalsAt(s, i, j, k, a, b)
    ensures Leads(s, ClientFlush(i), s1) && Leads(s1, ClientFlush(j), s2) && SentAt(s2, i, j, k, a, b)
  {
    s1 := Next(s, ClientFlush(i));
    NextIsShaped(s, ClientFlush(i));
    s2 := Next(s1, ClientFlush(j));
    NextIsShaped(s1, ClientFlush(j));
    assert s2.up[i] == [Delta(s.clients[i])] && s2.up[j] == [Delta(s.clients[j])];
  }

  // The server takes one after the other, and passes the first on to the second.
  lemma SentCross<K, V>(s: System<K, V>, i: nat, j: nat, k: K, a: V, b: V)
    returns (s1: System<K, V>, s2: System<K, V>, s3: System<K, V>)
    requires SentAt(s, i, j, k, a, b)
    ensures Leads(s, ServerReceive(i), s1) && Leads(s1, ServerReceive(j), s2)
    ensures Leads(s2, ClientReceive(j), s3) && CrossedAt(s3, j, k, b, a)
  {
    s1 := Next(s, ServerReceive(i));
    NextIsShaped(s, ServerReceive(i));
    assert s1.down[j] == [s.up[i][0]];
    s2 := Next(s1, ServerReceive(j));
    NextIsShaped(s1, ServerReceive(j));
    assert s2.down[j] == s1.down[j] && s2.clients[j] == s.clients[j];
    s3 := Next(s2, ClientReceive(j));
    NextIsShaped(s2, ClientReceive(j));
  }

  function RivalRounds<K, V>(i: nat, j: nat, n: nat): (r: seq<Step<K, V>>) {
    [ClientFlush(i), ClientFlush(j), ServerReceive(i), ServerReceive(j)] + ([ClientReceive(j)] + Rounds(j, n))
  }

  lemma RivalsNeverRest<K, V>(s: System<K, V>, i: nat, j: nat, k: K, a: V, b: V, n: nat)
    requires RivalsAt(s, i, j, k, a, b)
    ensures |RivalRounds<K, V>(i, j, n)| == 4 * n + 5 && Follows(s, RivalRounds(i, j, n))
  {
    hide CrossedAt, SentAt, Leads, RivalsAt, Rounds, Follows, End;
    var s1, s2 := RivalsSend(s, i, j, k, a, b);
    var s3, s4, s5 := SentCross(s2, i, j, k, a, b);
    CrossedNeverRests(s5, j, k, b, a, n);
    OneMore(s4, ClientReceive(j), Rounds(j, n));
    var rest := [ClientReceive(j)] + Rounds(j, n);
    FourMore(s, s1, s2, s3, s4, ClientFlush(i), ClientFlush(j), ServerReceive(i), ServerReceive(j), rest);
  }

  // ---------------------------------------------------------------- exactly when

  ghost predicate NothingUnderWay<K, V>(s: System<K, V>) {
    (forall i :: 0 <= i < |s.down| ==> s.down[i] == []) && (forall i :: 0 <= i < |s.up| ==> s.up[i] == [])
  }

  predicate Rivals<K, V(==)>(s: Site<K, V>, t: Site<K, V>, k: K)
    requires s.pending <= s.values.Keys && t.pending <= t.values.Keys
  {
    k in s.pending && k in t.pending && s.values[k] != t.values[k]
  }

  // Who flags a field has the same value to send as everybody else who flags it.
  ghost predicate Unrivalled<K(!new), V>(s: System<K, V>)
    requires Shaped(s)
  {
    && (forall i, k :: 0 <= i < |s.clients| ==> !Rivals(s.server, s.clients[i], k))
    && (forall i, j, k :: 0 <= i < |s.clients| && 0 <= j < |s.clients| ==> !Rivals(s.clients[i], s.clients[j], k))
  }

  ghost predicate StopsWithin<K(!new), V(!new)>(s: System<K, V>, most: nat) {
    forall steps: seq<Step<K, V>> :: Follows(s, steps) ==> |steps| <= most
  }

  // The value that somebody wants for the field.
  ghost function Wish<K(!new), V>(s: System<K, V>, k: K): (r: V)
    requires Shaped(s) && k in s.server.values
    ensures Unrivalled(s) && k in s.server.pending ==> r == s.server.values[k]
    ensures Unrivalled(s) ==> forall i :: 0 <= i < |s.clients| && k in s.clients[i].pending ==>
             r == s.clients[i].values[k]
  {
    if k in s.server.pending then
      assert Unrivalled(s) ==> forall i :: 0 <= i < |s.clients| ==> !Rivals(s.server, s.clients[i], k);
      s.server.values[k]
    else if !exists i :: 0 <= i < |s.clients| && k in s.clients[i].pending then s.server.values[k]
    else
      var i :| 0 <= i < |s.clients| && k in s.clients[i].pending;
      assert Unrivalled(s) ==> forall j :: 0 <= j < |s.clients| ==> !Rivals(s.clients[i], s.clients[j], k);
      s.clients[i].values[k]
  }

  lemma UnrivalledIsUncontested<K(!new), V>(s: System<K, V>) returns (goal: map<K, V>)
    requires Shaped(s) && NothingUnderWay(s) && Unrivalled(s)
    ensures Uncontested(s, goal)
  {
    goal := map k | k in s.server.values :: Wish(s, k);
  }

  lemma RivalledNeverRests<K(!new), V>(s: System<K, V>, most: nat) returns (steps: seq<Step<K, V>>)
    requires Shaped(s) && NothingUnderWay(s) && !Unrivalled(s)
    ensures Follows(s, steps) && |steps| > most
  {
    if i, k :| 0 <= i < |s.clients| && Rivals(s.server, s.clients[i], k) {
      CrossedNeverRests(s, i, k, s.server.values[k], s.clients[i].values[k], most + 1);
      steps := Rounds(i, most + 1);
    } else {
      var i, j, k :| 0 <= i < |s.clients| && 0 <= j < |s.clients| && Rivals(s.clients[i], s.clients[j], k);
      RivalsNeverRest(s, i, j, k, s.clients[i].values[k], s.clients[j].values[k], most);
      steps := RivalRounds(i, j, most);
    }
  }

  // Between updates, exactly: a system whose channels are empty comes to rest, whatever the order of
  // its steps, if and only if no two replicas have different values of a field to send.
  lemma StopsIffUnrivalled<K(!new), V(!new)>(s: System<K, V>)
    requires Shaped(s) && NothingUnderWay(s)
    ensures (exists most: nat :: StopsWithin(s, most)) <==> Unrivalled(s)
  {
    if Unrivalled(s) {
      var goal := UnrivalledIsUncontested(s);
      forall steps: seq<Step<K, V>> | Follows(s, steps)
        ensures |steps| <= Energy(s, goal)
      {
        ComesToRest(s, steps, goal);
      }
      assert StopsWithin(s, Energy(s, goal));
    } else if most: nat :| StopsWithin(s, most) {
      var steps := RivalledNeverRests(s, most);
    }
  }

  // ---------------------------------------------------------------- with values under way

  // Two values for one field on the same channel, and nobody else has another.
  function TwoOnTheWay<K, V>(k: K, a: V, b: V): (r: System<K, V>) {
    System(Site(map[k := b], {}), [Site(map[k := a], {})], [[map[k := a], map[k := b]]], [[]])
  }

  // The first is no news, and with it gone nothing is contested any more.
  lemma FirstIsNoNews<K, V>(k: K, a: V, b: V)
    ensures var s := TwoOnTheWay(k, a, b);
      && Shaped(s) && Enabled(s, ClientReceive(0))
      && (forall step: Step<K, V> :: Unprompted(s, step) ==> step == ClientReceive(0))
      && Uncontested(Next(s, ClientReceive(0)), map[k := b])
  {
    var s := TwoOnTheWay(k, a, b);
    var t := Next(s, ClientReceive(0));
    NextIsShaped(s, ClientReceive(0));
    assert s.down[0][1..] == [map[k := b]];
    assert t.down == [[map[k := b]]] && t.server == s.server && t.up == [[]];
    assert t.clients[0].pending == {} && t.clients[0].values.Keys == {k};
  }

  // So what suffices is not necessary there: the system comes to rest, although no goal has both.
  lemma SufficientOnly<K(!new), V(!new)>(k: K, a: V, b: V)
    requires a != b
    ensures var s := TwoOnTheWay(k, a, b);
      (exists most: nat :: StopsWithin(s, most)) && forall goal :: !Uncontested(s, goal)
  {
    var s, goal := TwoOnTheWay(k, a, b), map[k := b];
    FirstIsNoNews(k, a, b);
    var t := Next(s, ClientReceive(0));
    var most := 1 + Energy(t, goal);
    forall steps: seq<Step<K, V>> | Follows(s, steps)
      ensures |steps| <= most
    {
      if steps != [] { ComesToRest(t, steps[1..], goal); }
    }
    assert StopsWithin(s, most);
    assert k in s.down[0][0] && s.down[0][0][k] == a && k in s.down[0][1] && s.down[0][1][k] == b;
    forall g
      ensures !(Uncontested(s, g) && AllCarry(s.down[0], g))
    {
    }
  }
}
