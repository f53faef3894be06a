/** The readiness poller both environment managers run: probe the web interface,
    stop as soon as a probe answers with an accepted status, swallow request
    failures, sleep five seconds between attempts and give up once the deadline
    has passed.  Wall-clock time becomes an integer count of seconds, and the web
    interface an oracle that answers a probe given when it starts and how many
    probes came before. */
module Polling {

  /** What one probe (`requests.get(url, verify=False, timeout=5)`) came to, and how
      many seconds it took. */
  datatype Probe = Status(code: int, took: nat) | RequestFailed(took: nat)

  /** The pause between attempts, `time.sleep(5)`. */
  const PauseSeconds: nat := 5

  /** `MAX_WAIT_TIME` of both managers. */
  const MaxWait: nat := 180

  predicate Accepted(p: Probe, accepted: set<int>) {
    p.Status? && p.code in accepted
  }

  /** The result of a poll, the clock when it ended and the start times of all probes. */
  datatype Poll = Poll(ok: bool, now: int, probes: seq<int>)

  /** The loop from the clock reading `now` on, with `probes` already issued. */
  function Run(respond: (int, nat) -> Probe, accepted: set<int>, deadline: int, now: int, probes: seq<int>): (r: Poll)
    decreases deadline - now
  {
    if now >= deadline then Poll(false, now, probes)
    else
      var p := respond(now, |probes|);
      if Accepted(p, accepted) then Poll(true, now + p.took, probes + [now])
      else Run(respond, accepted, deadline, now + p.took + PauseSeconds, probes + [now])
  }

  /** The probes of a run extend the ones before it; each new probe starts before the
      deadline, no earlier than the run, and at least a pause after the previous new one;
      the clock never goes back; a failed run ends at or after the deadline. */
  lemma {:induction false} RunShape(respond: (int, nat) -> Probe, accepted: set<int>, deadline: int, now: int, probes: seq<int>)
    ensures var r := Run(respond, accepted, deadline, now, probes);
      && |probes| <= |r.probes| && r.probes[..|probes|] == probes
      && (|r.probes| > |probes| ==> r.probes[|probes|] == now)
      && (forall i :: |probes| <= i < |r.probes| ==> now <= r.probes[i] < deadline)
      && (forall i :: |probes| <= i < |r.probes| - 1 ==> r.probes[i] + PauseSeconds <= r.probes[i + 1])
      && now <= r.now
      && (!r.ok ==> r.now >= deadline)
    decreases deadline - now
  {
    if now < deadline {
      var p := respond(now, |probes|);
      if !Accepted(p, accepted) {
        var next := now + p.took + PauseSeconds;
        RunShape(respond, accepted, deadline, next, probes + [now]);
        var r := Run(respond, accepted, deadline, next, probes + [now]);
        assert r.probes[..|probes| + 1][..|probes|] == r.probes[..|probes|];
        assert r.probes[|probes|] == now;
      }
    }
  }

  /** A run succeeds exactly when it made a probe and its last probe was accepted: a
      failed request or any other status never ends the loop with success. */
  lemma {:induction false} RunSucceedsOnAccepted(respond: (int, nat) -> Probe, accepted: set<int>, deadline: int, now: int, probes: seq<int>)
    ensures var r := Run(respond, accepted, deadline, now, probes);
      r.ok <==> |r.probes| > |probes| && Accepted(respond(r.probes[|r.probes| - 1], |r.probes| - 1), accepted)
    decreases deadline - now
  {
    if now < deadline {
      var p := respond(now, |probes|);
      if !Accepted(p, accepted) {
        var next := now + p.took + PauseSeconds;
        RunSucceedsOnAccepted(respond, accepted, deadline, next, probes + [now]);
        RunShape(respond, accepted, deadline, next, probes + [now]);
      }
    }
  }

  /** Every failed attempt costs at least a pause, so a run that starts `w` seconds
      before its deadline probes at most ⌈w / 5⌉ times: 36 times for 180 seconds. */
  lemma {:induction false} RunProbeBound(respond: (int, nat) -> Probe, accepted: set<int>, deadline: int, now: int, probes: seq<int>)
    ensures var r := Run(respond, accepted, deadline, now, probes);
      PauseSeconds * (|r.probes| - |probes|) < (if now < deadline then deadline - now else 0) + PauseSeconds
    decreases deadline - now
  {
    if now < deadline {
      var p := respond(now, |probes|);
      if !Accepted(p, accepted) {
        RunProbeBound(respond, accepted, deadline, now + p.took + PauseSeconds, probes + [now]);
      }
    }
  }

  /** The 180-second wait of both managers probes at most 36 times. */
  lemma MaxWaitProbes(respond: (int, nat) -> Probe, accepted: set<int>, start: int)
    ensures |Run(respond, accepted, start + MaxWait, start, []).probes| <= 36
  {
    RunProbeBound(respond, accepted, start + MaxWait, start, []);
  }

  /** A status the poller never sees accepted keeps it polling until the deadline. */
  lemma {:induction false} RunNeverAccepted(respond: (int, nat) -> Probe, accepted: set<int>, deadline: int, now: int, probes: seq<int>)
    requires forall t: int, i: nat :: !Accepted(respond(t, i), accepted)
    ensures !Run(respond, accepted, deadline, now, probes).ok
    decreases deadline - now
  {
    if now < deadline {
      var p := respond(now, |probes|);
      RunNeverAccepted(respond, accepted, deadline, now + p.took + PauseSeconds, probes + [now]);
    }
  }

  /** Accepting more statuses never turns a success into a failure: whatever the
      200-only poller accepts, the poller that also accepts 302 accepts as well. */
  lemma {:induction false} RunMonotone(respond: (int, nat) -> Probe, fewer: set<int>, more: set<int>, deadline: int, now: int, probes: seq<int>)
    requires fewer <= more
    requires Run(respond, fewer, deadline, now, probes).ok
    ensures Run(respond, more, deadline, now, probes).ok
    decreases deadline - now
  {
    var p := respond(now, |probes|);
    if !Accepted(p, more) {
      RunMonotone(respond, fewer, more, deadline, now + p.took + PauseSeconds, probes + [now]);
    }
  }

  /** The machine the poller runs on: its clock, the probes issued so far and the web
      interface's behaviour. */
  class Machine {
    var now: int
    var probes: seq<int>
    const respond: (int, nat) -> Probe

    constructor (start: int, respond: (int, nat) -> Probe)
      ensures now == start && probes == [] && this.respond == respond
    {
      now, probes := start, [];
      this.respond := respond;
    }

    /** One probe: it starts now and takes the time the web interface takes. */
    method Probe() returns (p: Probe)
      modifies this
      ensures p == respond(old(now), |old(probes)|)
      ensures probes == old(probes) + [old(now)] && now == old(now) + p.took
    {
      p := respond(now, |probes|);
      probes := probes + [now];
      now := now + p.took;
    }

    method Sleep(seconds: nat)
      modifies this
      ensures now == old(now) + seconds && probes == old(probes)
    {
      now := now + seconds;
    }

    /** The polling loop: `True` as soon as a probe is accepted, `False` once
        `maxWait` seconds have passed since the start. */
    method WaitUntil(accepted: set<int>, maxWait: nat) returns (ok: bool)
      modifies this
      ensures Poll(ok, now, probes) == Run(respond, accepted, old(now) + maxWait, old(now), old(probes))
    {
      var start := now;
      while now - start < maxWait
        invariant Run(respond, accepted, start + maxWait, now, probes)
               == Run(respond, accepted, start + maxWait, old(now), old(probes))
        decreases start + maxWait - now
      {
        var p := Probe();
        if Accepted(p, accepted) {
          return true;
        }
        Sleep(PauseSeconds);
      }
      ok := false;
    }
  }
}
