/**
 The containers of one compose service, the docker and compose calls that
 nix/modules/services/compose-stack/compose-reload.py makes for it, and an adversary.
 Any call may fail, with any part of its effect done, and between calls the world may do
 anything to the containers, except that a container in `kept` keeps running: those are the
 old ones on entry and every container once seen running and healthy, until this tool
 stops them. A container this tool stopped stays stopped.
*/
module Docker {
  import opened Wrappers

  // Container id -> is it running.
  type Containers = map<string, bool>

  datatype Health = Healthy | Unhealthy | Starting | NoCheck

  // A failed command, or one that ran past its timeout: the source tells them apart when it catches.
  datatype CallError = Failed | TimedOut

  /** What the adversary has in store for one call. */
  datatype Turn = Turn(
    before: Containers, error: Option<CallError>, after: Containers, hit: set<string>, health: Health, late: nat)

  /**
   A moment of a handoff: the containers; those seen running and healthy since the tool last slept; the
   new ones it has to wait for; and, once it takes them for proved, those.
  */
  datatype Moment = Moment(containers: Containers, poll: set<string>, started: set<string>, proved: set<string>)

  predicate Runs(s: Containers, c: string) {
    c in s && s[c]
  }

  predicate AllRun(s: Containers, ids: set<string>) {
    forall c :: c in ids ==> Runs(s, c)
  }

  /** A container is running, and no old one stops before all the new ones are proved. */
  ghost predicate Safe(m: Moment, old_: set<string>) {
    && (exists c :: Runs(m.containers, c))
    && (AllRun(m.containers, old_) || (m.proved != {} && m.proved == m.started))
  }

  /** What counts as proved was, at some moment before, seen running and healthy in one poll, all of it. */
  ghost predicate ProvedInOnePoll(history: seq<Moment>) {
    forall i :: 0 <= i < |history| && history[i].proved != {} ==> SeenAtOnce(history[..i + 1], history[i].proved)
  }

  ghost predicate SeenAtOnce(history: seq<Moment>, ids: set<string>) {
    exists j :: 0 <= j < |history| && ids <= history[j].poll
  }

  /** A history in which nothing went wrong. */
  ghost predicate AllSafe(history: seq<Moment>, old_: set<string>) {
    ProvedInOnePoll(history) && forall i :: 0 <= i < |history| ==> Safe(history[i], old_)
  }

  lemma SeenStays(history: seq<Moment>, i: nat, ids: set<string>)
    requires i <= |history| && SeenAtOnce(history[..i], ids)
    ensures SeenAtOnce(history, ids)
  {
    var j :| 0 <= j < i && ids <= history[..i][j].poll;
    assert ids <= history[j].poll;
  }

  lemma OneMoreMoment(history: seq<Moment>, m: Moment)
    requires ProvedInOnePoll(history)
    requires m.proved == {} || m.proved <= m.poll || (history != [] && m.proved == history[|history| - 1].proved)
    ensures ProvedInOnePoll(history + [m])
  {
    var more := history + [m];
    forall i | 0 <= i < |more| && more[i].proved != {} ensures SeenAtOnce(more[..i + 1], more[i].proved) {
      if i < |history| {
        assert more[..i + 1] == history[..i + 1];
      } else if m.proved <= m.poll {
        assert more[..i + 1][i].proved <= more[..i + 1][i].poll;
      } else {
        assert history[..|history|] == history && more[..i + 1][..i] == history;
        SeenStays(more[..i + 1], i, m.proved);
      }
    }
  }

  function Halted(s: Containers, ids: set<string>): (r: Containers)
    ensures forall c :: Runs(r, c) <==> Runs(s, c) && c !in ids
  {
    map c | c in s :: s[c] && c !in ids
  }

  function Exited(s: Containers, ids: set<string>): (r: set<string>)
    ensures forall c :: c in r <==> c in ids && c in s && !Runs(s, c)
  {
    set c | c in ids && c in s && !s[c]
  }

  function Without(s: Containers, gone: set<string>): (r: Containers)
    requires forall c :: c in gone ==> !Runs(s, c)
    ensures r.Keys == s.Keys - gone && forall c :: Runs(r, c) <==> Runs(s, c)
  {
    map c | c in s && c !in gone :: s[c]
  }

  class ComposeService {
    var containers: Containers
    var turns: nat
    var clock: int
    var kept: set<string>
    var halted: set<string>
    const world: nat -> Turn
    ghost const incumbents: set<string>   // the old containers of this handoff
    ghost var poll: set<string>           // seen running and healthy since the last sleep
    ghost var started: set<string>        // the new containers, once they are listed
    ghost var proved: set<string>         // the same, once all were seen so in one poll
    ghost var history: seq<Moment>        // every state the service has been in

    constructor (containers: Containers, world: nat -> Turn, incumbents: set<string>)
      requires incumbents != {} && AllRun(containers, incumbents)
      ensures Valid() && history == [Moment(containers, {}, {}, {})] && proved == {} && kept == incumbents
      ensures this.containers == containers && this.incumbents == incumbents && this.world == world
    {
      this.containers, this.turns, this.clock := containers, 0, 0;
      this.world, this.incumbents := world, incumbents;
      this.kept, this.halted := incumbents, {};
      this.poll, this.started, this.proved := {}, {}, {};
      this.history := [Moment(containers, {}, {}, {})];
    }

    ghost predicate Valid()
      reads this
    {
      && kept != {} && Possible(containers) && kept !! halted
      && incumbents <= kept + halted
      && (proved == {} ==> incumbents <= kept)
      && poll <= kept && proved !! incumbents && (proved != {} ==> proved == started)
      && AllSafe(history, incumbents)
      && history != [] && history[|history| - 1] == Moment(containers, poll, started, proved)
    }

    /** The states the world may move to. */
    predicate Possible(s: Containers)
      reads `kept, `halted
    {
      AllRun(s, kept) && forall c :: c in halted ==> !Runs(s, c)
    }

    ghost method Record()
      requires kept != {} && Possible(containers) && (proved == {} ==> incumbents <= kept)
      requires proved != {} ==> proved == started
      requires history != [] && (proved <= poll || proved == history[|history| - 1].proved)
      requires AllSafe(history, incumbents)
      modifies `history
      ensures history == old(history) + [Moment(containers, poll, started, proved)]
      ensures AllSafe(history, incumbents)
    {
      var c :| c in kept;
      assert Runs(containers, c);
      OneMoreMoment(history, Moment(containers, poll, started, proved));
      history := history + [Moment(containers, poll, started, proved)];
    }

    /** The world's move before a call. */
    method Interfere() returns (turn: Turn)
      requires Valid()
      modifies `containers, `turns, `history
      ensures Valid() && old(history) <= history
    {
      turn := world(turns);
      turns := turns + 1;
      if Possible(turn.before) {
        containers := turn.before;
      }
      Record();
    }

    /** `up --no-recreate --scale`: existing containers stay, none is stopped. */
    method ScaleUp() returns (error: Option<CallError>)
      requires Valid()
      modifies `containers, `turns, `history
      ensures Valid() && old(history) <= history
    {
      var turn := Interfere();
      if (forall c :: c in containers ==> c in turn.after && (containers[c] ==> turn.after[c])) &&
        Possible(turn.after) {
        containers := turn.after;
      }
      Record();
      error := turn.error;
    }

    /** `ps --quiet`: the running containers. */
    method Running() returns (error: Option<CallError>, ids: set<string>)
      requires Valid()
      modifies `containers, `turns, `history
      ensures Valid() && old(history) <= history
      ensures error.None? ==> ids == set c | c in containers && containers[c]
    {
      var turn := Interfere();
      error, ids := turn.error, set c | c in containers && containers[c];
    }

    /** `ps --all --quiet`: all of them, whatever their state. */
    method AllContainers() returns (error: Option<CallError>, ids: set<string>)
      requires Valid()
      modifies `containers, `turns, `history
      ensures Valid() && old(history) <= history
      ensures error.None? ==> ids == containers.Keys
    {
      var turn := Interfere();
      error, ids := turn.error, containers.Keys;
    }

    /** `health`: the state is the true one; what the healthcheck says is up to the world. */
    method Inspect(c: string) returns (error: Option<CallError>, running: bool, health: Health)
      requires Valid()
      modifies `containers, `turns, `history, `kept, `poll
      ensures Valid() && old(history) <= history
      ensures old(kept) <= kept
      ensures poll == if error.None? && running && health.Healthy? then old(poll) + {c} else old(poll)
    {
      var turn := Interfere();
      if turn.error.Some? || c !in containers {
        return Some(if turn.error.Some? then turn.error.value else Failed), false, turn.health;
      }
      running, health := containers[c], turn.health;
      if running && health.Healthy? {
        kept, poll := kept + {c}, poll + {c};
        Record();
      }
      error := None;
    }

    /** A call that touches no container's state: `logs`, `exec touch`, the healthcheck's text. */
    method Harmless() returns (error: Option<CallError>, answer: bool)
      requires Valid()
      modifies `containers, `turns, `history
      ensures Valid() && old(history) <= history
    {
      var turn := Interfere();
      error, answer := turn.error, turn.health.Healthy?;
    }

    /**
     `docker stop`. A failing call has stopped an arbitrary part of the containers. Never called
     so that nothing is left that is known to keep running, nor on an old container before the
     new ones are proved.
    */
    method Stop(ids: set<string>) returns (error: Option<CallError>)
      requires Valid()
      requires kept - ids != {} && (proved == {} ==> ids !! incumbents)
      modifies `containers, `turns, `history, `kept, `halted, `poll
      ensures Valid() && old(history) <= history
      ensures kept - ids == old(kept) - ids
      ensures error.None? ==> forall c :: c in ids ==> !Runs(containers, c)
    {
      var turn := Interfere();
      var stopped := if turn.error.None? then ids else ids * turn.hit;
      containers := Halted(containers, stopped);
      kept, halted, poll := kept - stopped, halted + stopped, poll - stopped;
      Record();
      error := turn.error;
    }

    /** `docker rm`: refuses a running container; a failing call has removed a part. */
    method Remove(ids: set<string>) returns (error: Option<CallError>)
      requires Valid()
      modifies `containers, `turns, `history
      ensures Valid() && old(history) <= history
      ensures error.None? ==> ids !! containers.Keys
    {
      var turn := Interfere();
      var removable := Exited(containers, ids);
      var fine := turn.error.None? && removable == ids;
      var gone := if fine then ids else removable * turn.hit;
      containers := Without(containers, gone);
      Record();
      error := if fine then None else Some(if turn.error.Some? then turn.error.value else Failed);
    }

    method Sleep(seconds: nat)
      requires Valid()
      modifies `containers, `turns, `history, `clock, `poll
      ensures Valid() && old(history) <= history
      ensures clock >= old(clock) + seconds
    {
      poll := {};
      Record();
      var turn := Interfere();
      clock := clock + seconds + turn.late;
    }

    /** The listing names the new containers: all there are but the old ones. */
    ghost method Begin(ids: set<string>)
      requires Valid() && proved == {} && ids == containers.Keys - incumbents
      modifies `started, `history
      ensures Valid() && old(history) <= history && started == ids
    {
      started := ids;
      Record();
    }

    /** The new containers are proved: each was seen running and healthy since the last sleep. */
    ghost method Prove(ids: set<string>)
      requires Valid() && ids != {} && ids == started && ids <= poll && ids !! incumbents
      modifies `proved, `history
      ensures Valid() && old(history) <= history && proved == ids
    {
      proved := ids;
      Record();
    }
  }
}
