/**
 The one thing Docker.dfy leaves out: a `docker stop` of the old containers that times out in
 nix/modules/services/compose-stack/compose-reload.py and takes effect only later. `_safe_handoff`
 looks once for a running old container and, finding one, removes the new ones.
*/
module LateStop {
  import opened Wrappers

  /**
   Times count from the call of `docker stop`. effect: when the old containers stop (None: never);
   look: when `ps --quiet` answers, after the timeout; removal: when the new ones are gone, if they are removed.
  */
  datatype Race = Race(old_: set<string>, new_: set<string>, effect: Option<nat>, look: nat, removal: nat)

  predicate OldRuns(r: Race, t: nat) {
    r.effect.None? || t < r.effect.value
  }

  /** `any(c in stack.running(svc) for c in old)`, then `_abort` */
  predicate Aborts(r: Race) {
    OldRuns(r, r.look)
  }

  function RunningAt(r: Race, t: nat): set<string> {
    (if OldRuns(r, t) then r.old_ else {}) + (if Aborts(r) && t >= r.removal then {} else r.new_)
  }

  ghost predicate AlwaysServed(r: Race) {
    forall t: nat :: RunningAt(r, t) != {}
  }

  /**
   The service always has a running container exactly when the stop has taken effect by the time of the
   look, or never does.
  */
  lemma AlwaysServedIff(r: Race)
    requires r.old_ != {} && r.new_ != {} && r.look <= r.removal
    ensures AlwaysServed(r) <==> r.effect.None? || r.effect.value <= r.look
  {
    if r.effect.Some? && r.effect.value > r.look {
      var t := if r.effect.value >= r.removal then r.effect.value else r.removal;
      assert RunningAt(r, t) == {};
    }
  }

  /**
   The run that ends without the service: the old container is seen running, the new one removed, then
   the old one stops.
  */
  lemma LateStopLeavesNothing(old_: string, new_: string, timeout: nat)
    ensures var r := Race({old_}, {new_}, Some(timeout + 2), timeout, timeout + 1);
      Aborts(r) && RunningAt(r, timeout + 1) == {old_} && RunningAt(r, timeout + 2) == {}
  {
  }
}
