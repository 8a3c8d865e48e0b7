/**
 `main` of nix/modules/services/compose-stack/compose-reload.py with --state: which services it
 hands off or recreates, in what order it acts, and what the saved mount fingerprints still say
 about the running containers after any history of reloads, failed ones included.
*/
module ReloadHistory {
  import opened Wrappers
  import opened StringOrder

  type Fingerprint = seq<string>
  type Mounts = map<string, Fingerprint>

  // ----- which services are handed off -----

  datatype Spec = Spec(handoffLabel: bool, containerName: bool, hostPorts: bool, healthcheck: bool)

  predicate Ineligible(spec: Spec) {
    spec.containerName || spec.hostPorts || !spec.healthcheck
  }

  /** What `plan` finds out about the stack; `pending`: a migration one-shot changed image too. */
  datatype Stack = Stack(specs: map<string, Spec>, running: map<string, seq<string>>, changed: set<string>,
    pending: set<string>)

  ghost predicate HandedOff(k: Stack, forced: set<string>, svc: string) {
    && svc in k.specs && k.specs[svc].handoffLabel && !Ineligible(k.specs[svc])
    && svc in k.running && |k.running[svc]| == 1
    && (svc in forced || svc in k.changed)
    && svc !in k.pending
  }

  /** `plan`: each handoff has exactly one old container, and no changed migration to wait for. */
  method Plan(k: Stack, forced: set<string>) returns (todo: seq<(string, string)>)
    ensures forall svc :: HandedOff(k, forced, svc) ==> (svc, k.running[svc][0]) in todo
    ensures forall t :: t in todo ==> HandedOff(k, forced, t.0) && k.running[t.0] == [t.1]
    ensures forall i, j :: 0 <= i < j < |todo| ==> Le(todo[i].0, todo[j].0) && todo[i].0 != todo[j].0
  {
    todo := [];
    var services := Sorted(k.specs.Keys);
    SortedAscending(k.specs.Keys);
    for n := 0 to |services|
      invariant Planned(k, forced, services[..n], todo)
    {
      var svc := services[n];
      assert svc in services;
      PlannedMore(k, forced, services, n, todo);
      if !k.specs[svc].handoffLabel || svc !in k.running || k.running[svc] == [] {
        continue;
      }
      if svc !in forced && svc !in k.changed {
        continue;
      }
      if |k.running[svc]| > 1 || Ineligible(k.specs[svc]) || svc in k.pending {
        continue;
      }
      todo := todo + [(svc, k.running[svc][0])];
    }
    assert services[..|services|] == services;
  }

  /** The part of the plan that `services` account for. */
  ghost predicate Planned(k: Stack, forced: set<string>, services: seq<string>, todo: seq<(string, string)>) {
    && (forall svc :: svc in services && HandedOff(k, forced, svc) ==> (svc, k.running[svc][0]) in todo)
    && (forall t :: t in todo ==> t.0 in services && HandedOff(k, forced, t.0) && k.running[t.0] == [t.1])
    && (forall i, j :: 0 <= i < j < |todo| ==> Le(todo[i].0, todo[j].0) && todo[i].0 != todo[j].0)
  }

  lemma PlannedMore(k: Stack, forced: set<string>, services: seq<string>, n: nat, todo: seq<(string, string)>)
    requires n < |services| && Planned(k, forced, services[..n], todo)
    requires forall i :: 0 <= i < n ==> Le(services[i], services[n]) && services[i] != services[n]
    ensures !HandedOff(k, forced, services[n]) ==> Planned(k, forced, services[..n + 1], todo)
    ensures HandedOff(k, forced, services[n]) ==>
      Planned(k, forced, services[..n + 1], todo + [(services[n], k.running[services[n]][0])])
  {
  }

  function MountsChanged(prev: Option<Mounts>, cur: Mounts): set<string> {
    if prev.None? then {}
    else set svc | svc in cur && svc in prev.value && prev.value[svc] != cur[svc]
  }

  // ----- one reload -----

  /** The host: the state file, and the fingerprint each service's container was started under. */
  datatype Host = Host(saved: Option<Mounts>, running: Mounts, ups: nat)

  // A failed handoff may leave the service on its old container or on the new one.
  datatype HandoffEnd = Succeeded | NotDone(switched: bool) | Crashed(switched: bool)

  /** A compose call: did it succeed, and which services did it get to (re)create. */
  datatype CallEnd = CallEnd(ok: bool, hit: set<string>)

  /** One run of `main`. `readable`: the state file was there, readable and of this version. */
  datatype Reload = Reload(
    cur: Mounts, readable: bool, todo: seq<string>, ends: string -> HandoffEnd, recreate: CallEnd, up: CallEnd)

  predicate WellFormed(e: Reload) {
    forall svc :: svc in e.todo ==> svc in e.cur
  }

  function Restarted(running: Mounts, cur: Mounts, services: set<string>): Mounts {
    map svc | svc in running.Keys + (services * cur.Keys) ::
      if svc in services && svc in cur then cur[svc] else running[svc]
  }

  /** Services whose container is a new one after the first `n` handoffs. */
  function Switched(e: Reload, n: nat): set<string>
    requires n <= |e.todo|
  {
    if n == 0 then {}
    else
      var end := e.ends(e.todo[n - 1]);
      Switched(e, n - 1) + (if end.Succeeded? || end.switched then {e.todo[n - 1]} else {})
  }

  /** How many handoffs are attempted: all, unless one crashes the run. */
  function Attempted(e: Reload, n: nat): nat
    requires n <= |e.todo|
    ensures n <= Attempted(e, n) <= |e.todo|
    decreases |e.todo| - n
  {
    if n == |e.todo| then n
    else if e.ends(e.todo[n]).Crashed? then n + 1
    else Attempted(e, n + 1)
  }

  predicate AllSucceeded(e: Reload) {
    forall svc :: svc in e.todo ==> e.ends(svc).Succeeded?
  }

  function Previous(h: Host, e: Reload): Option<Mounts> {
    if e.readable then h.saved else None
  }

  function Recreated(h: Host, e: Reload): set<string> {
    MountsChanged(Previous(h, e), e.cur) - (set svc | svc in e.todo)
  }

  /** Does `main` return 0? */
  predicate Succeeds(h: Host, e: Reload) {
    AllSucceeded(e) && (Recreated(h, e) == {} || e.recreate.ok) && e.up.ok
  }

  /** The final `up --remove-orphans`: starts what is missing, recreates what it hits. */
  function AfterUp(running: Mounts, e: Reload): Mounts {
    if e.up.ok then
      map svc | svc in e.cur :: if svc in running && svc !in e.up.hit then running[svc] else e.cur[svc]
    else Restarted(running, e.cur, e.up.hit)
  }

  function After(h: Host, e: Reload): Host {
    var handed := Restarted(h.running, e.cur, Switched(e, Attempted(e, 0)));
    if !AllSucceeded(e) then h.(running := handed)
    else
      var recreate := Recreated(h, e);
      var hit := if e.recreate.ok then recreate else recreate * e.recreate.hit;
      var replaced := if recreate == {} then handed else Restarted(handed, e.cur, hit);
      if recreate != {} && !e.recreate.ok then h.(running := replaced, ups := h.ups + 1)
      else
        var calls := h.ups + (if recreate == {} then 1 else 2);
        if e.up.ok then Host(Some(e.cur), AfterUp(replaced, e), calls)
        else h.(running := AfterUp(replaced, e), ups := calls)
  }

  lemma RestartedMore(running: Mounts, e: Reload, services: set<string>, svc: string)
    requires svc in e.cur
    ensures Restarted(running, e.cur, services + {svc}) == Restarted(running, e.cur, services)[svc := e.cur[svc]]
    ensures Restarted(running, e.cur, services + {}) == Restarted(running, e.cur, services)
  {
    assert services + {} == services;
  }

  class Machine {
    var saved: Option<Mounts>
    var running: Mounts
    var ups: nat   // how many times a final `up` was run

    function State(): Host
      reads this
    {
      Host(saved, running, ups)
    }

    constructor (h: Host)
      ensures State() == h
    {
      saved, running, ups := h.saved, h.running, h.ups;
    }

    /** The handoff loop of `main`: every service of `todo`, whatever became of the ones before. */
    method HandOffAll(e: Reload) returns (failed: seq<string>, crashed: bool)
      requires WellFormed(e)
      modifies `running
      ensures running == Restarted(old(running), e.cur, Switched(e, Attempted(e, 0)))
      ensures !crashed && failed == [] <==> AllSucceeded(e)
    {
      failed, crashed := [], false;
      var i := 0;
      while i < |e.todo| && !crashed
        invariant 0 <= i <= |e.todo|
        invariant running == Restarted(old(running), e.cur, Switched(e, i))
        invariant if crashed then i == Attempted(e, 0) && !AllSucceeded(e) else Attempted(e, 0) == Attempted(e, i)
        invariant failed == [] && !crashed <==> forall k :: 0 <= k < i ==> e.ends(e.todo[k]).Succeeded?
        decreases |e.todo| - i, !crashed
      {
        var svc := e.todo[i];
        var end := e.ends(svc);
        RestartedMore(old(running), e, Switched(e, i), svc);
        if end.Succeeded? || end.switched {
          running := running[svc := e.cur[svc]];
        }
        crashed := end.Crashed?;
        if !end.Succeeded? {
          failed := failed + [svc];
        }
        i := i + 1;
      }
    }

    /** `main`, from reading the state file to saving it. */
    method Run(e: Reload) returns (exit: int)
      requires WellFormed(e)
      modifies this
      ensures State() == After(old(State()), e)
      ensures exit == 0 <==> Succeeds(old(State()), e)
    {
      var prev := if e.readable then saved else None;
      var forced := MountsChanged(prev, e.cur);
      var recreate := forced - (set svc | svc in e.todo);
      var failed, crashed := HandOffAll(e);
      if crashed || failed != [] {
        return 1;
      }
      if recreate != {} {
        ups := ups + 1;
        running := Restarted(running, e.cur, if e.recreate.ok then recreate else recreate * e.recreate.hit);
        if !e.recreate.ok {
          return 1;
        }
      }
      ups := ups + 1;
      running := AfterUp(running, e);
      if !e.up.ok {
        return 1;
      }
      saved := Some(e.cur);
      return 0;
    }
  }

  // ----- what one reload promises -----

  /** A failed handoff: neither final `up`, and any failed reload leaves the state file alone. */
  lemma FailureLeavesState(h: Host, e: Reload)
    requires !Succeeds(h, e)
    ensures After(h, e).saved == h.saved
    ensures !AllSucceeded(e) ==> After(h, e).ups == h.ups
  {
  }

  /** Whatever happens, a service is on the container it had or on one started under `cur`. */
  lemma OnlyCurrentIsStarted(h: Host, e: Reload, svc: string)
    requires svc in After(h, e).running
    ensures (svc in h.running && After(h, e).running[svc] == h.running[svc])
         || (svc in e.cur && After(h, e).running[svc] == e.cur[svc])
  {
  }

  lemma {:induction false} AllSwitched(e: Reload, n: nat)
    requires AllSucceeded(e) && n <= |e.todo|
    ensures Switched(e, n) == set svc | svc in e.todo[..n]
  {
    if n > 0 {
      AllSwitched(e, n - 1);
      assert e.todo[n - 1] in e.todo;
      assert e.todo[..n] == e.todo[..n - 1] + [e.todo[n - 1]];
    }
  }

  lemma HandedAreSwitched(e: Reload)
    requires AllSucceeded(e)
    ensures Switched(e, Attempted(e, 0)) == set svc | svc in e.todo
  {
    AttemptsAll(e, 0);
    AllSwitched(e, |e.todo|);
    assert e.todo[..|e.todo|] == e.todo;
  }

  lemma {:induction false} AttemptsAll(e: Reload, n: nat)
    requires AllSucceeded(e) && n <= |e.todo|
    ensures Attempted(e, n) == |e.todo|
    decreases |e.todo| - n
  {
    if n < |e.todo| {
      assert e.todo[n] in e.todo;
      AttemptsAll(e, n + 1);
    }
  }

  /**
   After a reload that exits 0, a service is on its just-saved fingerprint exactly when its mounts
   moved, or something else replaced or started it, or it was on that fingerprint already.
  */
  lemma InSyncAfterSuccess(h: Host, e: Reload, svc: string)
    requires WellFormed(e) && Succeeds(h, e) && svc in e.cur
    ensures var h' := After(h, e);
      && h'.saved == Some(e.cur) && svc in h'.running
      && (h'.running[svc] == e.cur[svc] <==>
            || svc in MountsChanged(Previous(h, e), e.cur) || svc in e.todo || svc in e.up.hit
            || svc !in h.running || h.running[svc] == e.cur[svc])
  {
    HandedAreSwitched(e);
  }

  // ----- any history of reloads -----

  /** Every service in the saved state that runs, runs under its saved fingerprint. */
  ghost predicate InSync(h: Host) {
    h.saved.Some? ==> forall svc :: svc in h.saved.value && svc in h.running ==> h.running[svc] == h.saved.value[svc]
  }

  /** The same, but for what failed reloads since the last success (`since`) may have started. */
  ghost predicate InSyncBut(h: Host, since: seq<Mounts>) {
    h.saved.Some? ==> forall svc :: svc in h.saved.value && svc in h.running ==>
      h.running[svc] == h.saved.value[svc] || StartedIn(since, svc, h.running[svc])
  }

  ghost predicate StartedIn(since: seq<Mounts>, svc: string, f: Fingerprint) {
    exists m :: m in since && svc in m && m[svc] == f
  }

  /** No mount is back at its saved fingerprint after being something else in a failed reload. */
  ghost predicate NoReturn(h: Host, since: seq<Mounts>, e: Reload) {
    Previous(h, e).Some? ==>
      forall svc, m | svc in h.saved.value && svc in e.cur && e.cur[svc] == h.saved.value[svc] ::
        m in since && svc in m ==> m[svc] == e.cur[svc]
  }

  /** Services recorded for the first time run under the fingerprint recorded. */
  ghost predicate FirstRecords(h: Host, e: Reload) {
    forall svc :: svc in e.cur && !(Previous(h, e).Some? && svc in Previous(h, e).value) ==>
      svc in After(h, e).running && After(h, e).running[svc] == e.cur[svc]
  }

  /** Where a history has got to: the host, and the fingerprints of the failed reloads since the last success. */
  datatype Trail = Trail(host: Host, since: seq<Mounts>)

  function Next(t: Trail, e: Reload): Trail {
    Trail(After(t.host, e), if Succeeds(t.host, e) then [] else t.since + [e.cur])
  }

  function Walk(t: Trail, events: seq<Reload>, n: nat): Trail
    requires n <= |events|
  {
    if n == 0 then t else Next(Walk(t, events, n - 1), events[n - 1])
  }

  ghost predicate Fair(t: Trail, e: Reload) {
    WellFormed(e) && (Succeeds(t.host, e) ==> NoReturn(t.host, t.since, e) && FirstRecords(t.host, e))
  }

  ghost predicate FairAt(t: Trail, events: seq<Reload>, n: nat)
    requires n < |events|
  {
    Fair(Walk(t, events, n), events[n])
  }

  lemma SuccessInSync(h: Host, since: seq<Mounts>, e: Reload)
    requires WellFormed(e) && InSyncBut(h, since) && Succeeds(h, e) && NoReturn(h, since, e) && FirstRecords(h, e)
    ensures InSync(After(h, e))
  {
    var h' := After(h, e);
    forall svc | svc in e.cur ensures svc in h'.running && h'.running[svc] == e.cur[svc] {
      InSyncAfterSuccess(h, e, svc);
    }
  }

  lemma StepInSync(t: Trail, e: Reload)
    requires Fair(t, e) && InSyncBut(t.host, t.since)
    ensures InSyncBut(Next(t, e).host, Next(t, e).since)
    ensures Succeeds(t.host, e) ==> InSync(Next(t, e).host)
  {
    var h, h' := t.host, After(t.host, e);
    if Succeeds(h, e) {
      SuccessInSync(h, t.since, e);
    } else if h.saved.Some? {
      FailureLeavesState(h, e);
      forall svc | svc in h.saved.value && svc in h'.running
        ensures h'.running[svc] == h.saved.value[svc] || StartedIn(t.since + [e.cur], svc, h'.running[svc])
      {
        OnlyCurrentIsStarted(h, e, svc);
        if svc in h.running && h'.running[svc] == h.running[svc] {
          StartedInMore(t.since, e.cur, svc, h'.running[svc]);
        } else {
          assert e.cur in t.since + [e.cur];
        }
      }
    }
  }

  lemma StartedInMore(since: seq<Mounts>, more: Mounts, svc: string, f: Fingerprint)
    ensures StartedIn(since, svc, f) ==> StartedIn(since + [more], svc, f)
  {
  }

  lemma {:induction false} InSyncButThroughout(t: Trail, events: seq<Reload>, n: nat)
    requires n <= |events| && InSyncBut(t.host, t.since)
    requires forall k :: 0 <= k < n ==> FairAt(t, events, k)
    ensures InSyncBut(Walk(t, events, n).host, Walk(t, events, n).since)
  {
    if n > 0 {
      InSyncButThroughout(t, events, n - 1);
      assert FairAt(t, events, n - 1);
      StepInSync(Walk(t, events, n - 1), events[n - 1]);
    }
  }

  /**
   Over any history: after every reload that exits 0, every service in the saved state runs a
   container started under its saved fingerprint.
  */
  lemma InSyncAfterEverySuccess(h: Host, events: seq<Reload>, n: nat)
    requires n < |events| && InSync(h)
    requires forall k :: 0 <= k <= n ==> FairAt(Trail(h, []), events, k)
    requires Succeeds(Walk(Trail(h, []), events, n).host, events[n])
    ensures InSync(Walk(Trail(h, []), events, n + 1).host)
  {
    InSyncButThroughout(Trail(h, []), events, n);
    assert FairAt(Trail(h, []), events, n);
    StepInSync(Walk(Trail(h, []), events, n), events[n]);
  }

  /** Without NoReturn it is false: "app" is handed off, the reload fails on "web", and the old mount comes back. */
  lemma ReturnBreaksSync(a: Fingerprint, b: Fingerprint) returns (h: Host, e1: Reload, e2: Reload)
    requires a != b
    ensures
      && WellFormed(e1) && WellFormed(e2) && InSync(h)
      && !Succeeds(h, e1) && Succeeds(After(h, e1), e2) && FirstRecords(After(h, e1), e2)
      && !InSync(After(After(h, e1), e2))
  {
    var both := map["web" := a, "app" := a];
    h := Host(Some(both), both, 0);
    e1 := Reload(map["web" := b, "app" := b], true, ["app", "web"],
      (svc: string) => if svc == "app" then Succeeded else NotDone(false), CallEnd(true, {}), CallEnd(true, {}));
    e2 := Reload(both, true, [], (svc: string) => Succeeded, CallEnd(true, {}), CallEnd(true, {}));
    FirstHalf(h, e1, a, b);
    SecondHalf(After(h, e1), e2, a, b);
  }

  lemma FirstHalf(h: Host, e: Reload, a: Fingerprint, b: Fingerprint)
    requires h.saved == Some(h.running) && h.running == map["web" := a, "app" := a]
    requires e.cur == map["web" := b, "app" := b] && e.todo == ["app", "web"]
    requires e.ends("app") == Succeeded && e.ends("web") == NotDone(false)
    ensures !Succeeds(h, e) && After(h, e).running == map["web" := a, "app" := b] && After(h, e).saved == h.saved
  {
    assert e.todo[1] == "web" && e.todo[0] == "app";
    assert Attempted(e, 2) == 2 && Attempted(e, 1) == 2 && Attempted(e, 0) == 2;
    assert Switched(e, 0) == {} && Switched(e, 1) == {"app"} && Switched(e, 2) == {"app"};
    assert "web" in e.todo;
  }

  lemma SecondHalf(h: Host, e: Reload, a: Fingerprint, b: Fingerprint)
    requires a != b && h.running == map["web" := a, "app" := b]
    requires h.saved == Some(e.cur) && e.cur == map["web" := a, "app" := a]
    requires e.readable && e.todo == [] && e.recreate == CallEnd(true, {}) && e.up == CallEnd(true, {})
    ensures Succeeds(h, e) && FirstRecords(h, e) && !InSync(After(h, e))
  {
    assert Attempted(e, 0) == 0 && Switched(e, 0) == {};
    assert MountsChanged(Previous(h, e), e.cur) == {};
    assert Recreated(h, e) == {};
    assert After(h, e).running["app"] == b;
  }
}
