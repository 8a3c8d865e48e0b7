/**
 `handoff`, `_drain`, `_abort` and `_safe_handoff` of
 nix/modules/services/compose-stack/compose-reload.py, against the adversary of Docker.dfy.
 Whatever fails, at every moment a container of the service is running, and no old container
 stops before all new ones were seen running and healthy in one poll.
*/
module Handoff {
  import opened Wrappers
  import opened Docker

  // True or False as the source returns them, or the exception that got out.
  datatype Result = Done(ok: bool) | Raised(error: CallError)

  datatype Times = Times(timeout: nat, drain: nat, poll: nat)

  /** One poll of `ids`; `one` after another, so time passes in between. */
  datatype Polled = Polled(error: Option<CallError>, allGood: bool, someBad: bool)

  method PollNew(s: ComposeService, ids: set<string>) returns (r: Polled)
    requires s.Valid()
    modifies s`containers, s`turns, s`history, s`kept, s`poll
    ensures s.Valid() && old(s.history) <= s.history
    ensures old(s.kept) <= s.kept
    ensures r.error.None? && r.allGood ==> ids <= s.poll
  {
    var rest := ids;
    r := Polled(None, true, false);
    while rest != {}
      invariant rest <= ids
      invariant s.Valid() && old(s.history) <= s.history && old(s.kept) <= s.kept
      invariant r.error.None? && (r.allGood ==> ids - rest <= s.poll)
      decreases rest
    {
      var c :| c in rest;
      rest := rest - {c};
      var error, running, health := s.Inspect(c);
      if error.Some? {
        return Polled(error, false, false);
      }
      r := r.(allGood := r.allGood && running && health.Healthy?,
              someBad := r.someBad || !running || health.Unhealthy?);
    }
  }

  /** One poll of the draining containers: are they all out of the rotation? */
  method PollDrained(s: ComposeService, ids: set<string>) returns (error: Option<CallError>, out: bool)
    requires s.Valid()
    modifies s`containers, s`turns, s`history, s`kept, s`poll
    ensures s.Valid() && old(s.history) <= s.history && old(s.kept) <= s.kept
  {
    var rest := ids;
    error, out := None, true;
    while rest != {}
      invariant s.Valid() && old(s.history) <= s.history && old(s.kept) <= s.kept
      decreases rest
    {
      var c :| c in rest;
      rest := rest - {c};
      var e, running, health := s.Inspect(c);
      if e.Some? {
        return e, false;
      }
      out := out && (!running || health.Unhealthy?);
    }
  }

  method Drain(s: ComposeService, old_: set<string>, t: Times) returns (error: Option<CallError>)
    requires s.Valid() && t.poll > 0
    modifies s`containers, s`turns, s`history, s`kept, s`poll, s`clock
    ensures s.Valid() && old(s.history) <= s.history && old(s.kept) <= s.kept
  {
    var targets: set<string>, rest := {}, old_;
    while rest != {}
      invariant s.Valid() && old(s.history) <= s.history && old(s.kept) <= s.kept
      decreases rest
    {
      var c :| c in rest;
      rest := rest - {c};
      // A failed command skips this container's draining; a timeout gets out.
      var asked, drains := s.Harmless();
      if asked == Some(TimedOut) {
        return asked;
      }
      if asked.None? && drains {
        var touched, _ := s.Harmless();
        if touched == Some(TimedOut) {
          return touched;
        }
        if touched.None? {
          targets := targets + {c};
        }
      }
    }
    if targets == {} {
      return None;
    }
    var deadline := s.clock + t.timeout;
    while true
      invariant s.Valid() && old(s.history) <= s.history && old(s.kept) <= s.kept
      decreases deadline - s.clock
    {
      var e, out := PollDrained(s, targets);
      if e.Some? {
        return e;
      }
      if out || s.clock >= deadline {
        return None;
      }
      s.Sleep(t.poll);
    }
  }

  /** Remove the new containers; the old ones are left alone. */
  method Abort(s: ComposeService, new_: set<string>) returns (r: Result)
    requires s.Valid() && new_ !! s.incumbents && s.incumbents * s.kept != {}
    modifies s`containers, s`turns, s`history, s`kept, s`halted, s`poll
    ensures s.Valid() && old(s.history) <= s.history
    ensures s.incumbents * s.kept == s.incumbents * old(s.kept)
    ensures r == Done(false) || r.Raised?
    ensures r.Done? ==> new_ !! s.containers.Keys || new_ == {}
  {
    var rest := new_;
    while rest != {}
      invariant s.Valid() && old(s.history) <= s.history && s.kept == old(s.kept)
      decreases rest
    {
      var c :| c in rest;
      rest := rest - {c};
      var e, _ := s.Harmless();
      if e == Some(TimedOut) {
        return Raised(TimedOut);
      }
    }
    if new_ != {} {
      assert s.incumbents * (s.kept - new_) == s.incumbents * s.kept;
      var e := s.Stop(new_);
      assert s.incumbents * (s.kept - new_) == s.incumbents * s.kept;
      if e.Some? {
        return Raised(e.value);
      }
      e := s.Remove(new_);
      if e.Some? {
        return Raised(e.value);
      }
    }
    return Done(false);
  }

  /** Poll the new containers until they are all good (None), or give up on them. */
  method AwaitHealthy(s: ComposeService, old_: set<string>, new_: set<string>, t: Times) returns (r: Option<Result>)
    requires s.Valid() && old_ == s.incumbents && old_ <= s.kept && s.proved == {} && old_ != {} && new_ !! old_ &&
      t.poll > 0
    modifies s`containers, s`turns, s`history, s`kept, s`halted, s`poll, s`clock
    ensures s.Valid() && old(s.history) <= s.history && old_ <= s.kept
    ensures r.None? ==> new_ <= s.poll
    ensures r.Some? ==> r.value != Done(true)
  {
    var deadline := s.clock + t.timeout;
    while true
      invariant s.Valid() && old(s.history) <= s.history && old_ <= s.kept
      decreases deadline - s.clock
    {
      var polled := PollNew(s, new_);
      if polled.error.Some? {
        return Some(Raised(polled.error.value));
      }
      if polled.allGood {
        return None;
      }
      if polled.someBad || s.clock >= deadline {
        assert s.incumbents * s.kept == old_;
        var aborted := Abort(s, new_);
        return Some(aborted);
      }
      s.Sleep(t.poll);
    }
  }

  /** Drain, stop and remove the old containers, once the new ones are proved. */
  method Retire(s: ComposeService, old_: set<string>, t: Times) returns (r: Result)
    requires s.Valid() && old_ == s.incumbents && s.proved != {} && s.proved <= s.kept && t.poll > 0
    modifies s`containers, s`turns, s`history, s`kept, s`halted, s`poll, s`clock
    ensures s.Valid() && old(s.history) <= s.history && s.proved <= s.kept
    ensures r == Done(true) || r.Raised?
    ensures r == Done(true) ==> old_ !! s.containers.Keys
  {
    var e := Drain(s, old_, t);
    if e.Some? {
      return Raised(e.value);
    }
    s.Sleep(t.drain);
    assert s.proved <= s.kept - old_;
    e := s.Stop(old_);
    if e.Some? {
      return Raised(e.value);
    }
    e := s.Remove(old_);
    if e.Some? {
      return Raised(e.value);
    }
    return Done(true);
  }

  /** Scale up, and see which containers are not the old ones, running or not. */
  method StartNew(s: ComposeService, old_: set<string>) returns (error: Option<CallError>, new_: set<string>)
    requires s.Valid() && old_ == s.incumbents && s.proved == {}
    modifies s`containers, s`turns, s`history, s`started
    ensures s.Valid() && old(s.history) <= s.history && new_ !! old_
    ensures error.None? ==> s.started == new_
  {
    new_ := {};
    error := s.ScaleUp();
    if error.Some? {
      return;
    }
    var all: set<string>;
    error, all := s.AllContainers();
    if error.Some? {
      return;
    }
    new_ := all - old_;
    s.Begin(new_);
  }

  method Handoff(s: ComposeService, old_: set<string>, t: Times) returns (r: Result)
    requires s.Valid() && old_ == s.incumbents && old_ <= s.kept && s.proved == {} && old_ != {} && t.poll > 0
    modifies s`containers, s`turns, s`history, s`kept, s`halted, s`poll, s`clock, s`started, s`proved
    ensures s.Valid() && old(s.history) <= s.history
    // True: as many proved new containers as there were old ones, still running, and the old ones are gone.
    ensures r == Done(true) ==>
      && s.proved == s.started && |s.proved| == |old_| && s.proved <= s.kept && old_ !! s.containers.Keys
    // False: every old container is still running (they are all still kept).
    ensures r == Done(false) ==> s.proved == {} && old_ <= s.kept
  {
    var e, new_ := StartNew(s, old_);
    if e.Some? {
      return Raised(e.value);
    }
    if |new_| != |old_| {
      assert s.incumbents * s.kept == old_;
      r := Abort(s, new_);
      assert old_ <= s.kept;
      return;
    }
    assert new_ != {};
    var gaveUp := AwaitHealthy(s, old_, new_, t);
    if gaveUp.Some? {
      assert old_ <= s.kept;
      return gaveUp.value;
    }
    s.Prove(new_);
    r := Retire(s, old_, t);
  }

  /** `_safe_handoff`: any error counts as a failed handoff, cleaned up only while an old container runs. */
  method SafeHandoff(s: ComposeService, old_: set<string>, t: Times) returns (r: Result)
    requires s.Valid() && old_ == s.incumbents && old_ <= s.kept && s.proved == {} && old_ != {} && t.poll > 0
    modifies s`containers, s`turns, s`history, s`kept, s`halted, s`poll, s`clock, s`started, s`proved
    ensures s.Valid() && old(s.history) <= s.history
    ensures forall i :: 0 <= i < |s.history| ==> Safe(s.history[i], old_)
    ensures ProvedInOnePoll(s.history)
    ensures s.history != [] && s.history[|s.history| - 1] == Moment(s.containers, s.poll, s.started, s.proved)
    ensures r == Done(true) ==>
      && s.proved == s.started && |s.proved| == |old_| && AllRun(s.containers, s.proved) && old_ !! s.containers.Keys
  {
    r := Handoff(s, old_, t);
    if r.Raised? {
      var e, running := s.Running();
      if e.Some? {
        return if e.value.Failed? then Done(false) else Raised(TimedOut);
      }
      if c :| c in old_ && c in running {
        assert c in s.incumbents * s.kept;
        var all: set<string>;
        e, all := s.AllContainers();
        if e.Some? {
          return if e.value.Failed? then Done(false) else Raised(TimedOut);
        }
        r := Abort(s, all - old_);
        if r == Raised(Failed) {
          r := Done(false);
        }
        return;
      }
      return Done(false);
    }
  }
}
