/** The Domain controller of internal/controller/domain_controller.go: verification, registration
    refresh and the requeue delay, with the retry intervals of internal/config/config.go.

    Times are whole nanoseconds since the epoch; an unset time is `None`. A time written to the
    Domain's status comes back truncated to whole seconds, which `Saved` does. DNS, HTTP, DNSZone and
    registry answers, and the random jitter, are parameters. The domain name is immutable and taken
    to be registrable.
 */
module DomainController {
  import opened Ordering

  const SECOND := 1_000_000_000

  function Trunc(t: int): int { t - t % SECOND }

  function TruncOption(t: Option<int>): Option<int> { if t.Some? then Some(Trunc(t.value)) else None }

  // ----- Retry intervals -----

  datatype RetryInterval = RetryInterval(interval: nat, maxElapsed: Option<int>)

  const DEFAULT_INTERVAL := 300 * SECOND

  predicate Covers(r: RetryInterval, elapsed: int) { r.maxElapsed.None? || elapsed <= r.maxElapsed.value }

  function IntervalFor(rs: seq<RetryInterval>, elapsed: int): nat
  {
    if rs == [] then DEFAULT_INTERVAL
    else if Covers(rs[0], elapsed) then rs[0].interval
    else IntervalFor(rs[1..], elapsed)
  }

  method GetRetryInterval(rs: seq<RetryInterval>, elapsed: int) returns (d: nat)
    ensures d == IntervalFor(rs, elapsed)
    ensures || (exists i :: 0 <= i < |rs| && Covers(rs[i], elapsed) && d == rs[i].interval && forall k :: 0 <= k < i ==> !Covers(rs[k], elapsed))
            || (d == DEFAULT_INTERVAL && forall k :: 0 <= k < |rs| ==> !Covers(rs[k], elapsed))
  {
    for i := 0 to |rs|
      invariant IntervalFor(rs, elapsed) == IntervalFor(rs[i..], elapsed)
      invariant forall k :: 0 <= k < i ==> !Covers(rs[k], elapsed)
    {
      if rs[i].maxElapsed.None? || elapsed <= rs[i].maxElapsed.value {
        return rs[i].interval;
      }
      assert rs[i..][1..] == rs[i + 1..];
    }
    d := DEFAULT_INTERVAL;
  }

  // ----- Status -----

  /** A condition that is absent or Unknown is `Unset`: the controller treats both alike. */
  datatype Truth = Unset | No | Yes
  datatype Condition = Condition(status: Truth, transition: int)
  datatype Timers = Timers(next: Option<int>, last: Option<int>)
  datatype Scaffold = Scaffold(content: string, timers: Timers)
  datatype Status = Status(verified: Condition, dns: Truth, http: Truth, zone: Truth, scaffold: Option<Scaffold>, registration: Timers)

  datatype Desired = Desired(verification: Option<int>, registration: Option<int>)

  function SavedTimers(t: Timers): Timers { Timers(TruncOption(t.next), TruncOption(t.last)) }

  /** What a later reconcile reads back. */
  function Saved(st: Status): Status
  {
    st.(verified := st.verified.(transition := Trunc(st.verified.transition)),
        scaffold := if st.scaffold.Some? then Some(st.scaffold.value.(timers := SavedTimers(st.scaffold.value.timers))) else None,
        registration := SavedTimers(st.registration))
  }

  // ----- Desired refresh attempts -----

  predicate Pending(t: Timers, desired: int) { t.last.None? || t.last.value < desired }

  predicate Expedites(t: Timers, desired: Option<int>, now: int)
  {
    desired.Some? && desired.value <= now && Pending(t, desired.value)
  }

  function DesiredWake(t: Timers, desired: Option<int>, now: int): Option<int>
  {
    if desired.Some? && desired.value > now && Pending(t, desired.value) then desired else None
  }

  function Earlier(a: Option<int>, b: Option<int>): Option<int>
  {
    if a.None? || (b.Some? && b.value < a.value) then b else a
  }

  /** An attempt, the desired time that expedited it if any, its retry interval and the jitter added. */
  datatype Attempt = Attempt(at: int, expedited: Option<int>, interval: nat, jitter: nat)

  function After(a: Attempt): Timers { Timers(Some(a.at + a.interval + a.jitter), Some(a.at)) }

  // ----- Verification -----

  /** What the world answers during one reconcile. */
  datatype Probe = Probe(zone: bool, dns: bool, http: bool, content: string, jitter: nat)

  function Start(c: Condition, now: int): Condition { if c.status == Unset then Condition(No, now) else c }

  function Or(t: Truth, ok: bool): Truth { if ok then Yes else if t == Unset then No else t }

  datatype Verification = Verification(status: Status, next: Option<int>, attempt: Option<Attempt>)

  function Verify(rs: seq<RetryInterval>, st: Status, desired: Option<int>, now: int, p: Probe): Verification
  {
    var v := Start(st.verified, now);
    if v.status == Yes then Verification(st, None, None)
    else if Or(st.zone, p.zone) == Yes then
      Verification(st.(verified := v.(status := Yes), dns := Unset, http := Unset, zone := Yes, scaffold := None), None, None)
    else
      var open := st.(verified := v, dns := Or(st.dns, false), http := Or(st.http, false), zone := Or(st.zone, false));
      if st.scaffold.None? then
        Verification(open.(scaffold := Some(Scaffold(p.content, Timers(Some(now), None)))), Some(now), None)
      else
        var t := st.scaffold.value.timers;
        var expedite := Expedites(t, desired, now);
        if t.next.Some? && t.next.value > now && !expedite then
          Verification(open, Earlier(t.next, DesiredWake(t, desired, now)), None)
        else
          var a := Attempt(now, if expedite then desired else None, IntervalFor(rs, now - v.transition), p.jitter);
          var dns := Or(st.dns, p.dns);
          var http := if dns == Yes then Or(st.http, false) else Or(st.http, p.http);
          if dns == Yes || http == Yes then
            Verification(st.(verified := v.(status := Yes), dns := Unset, http := Unset, zone := Unset, scaffold := None), None, Some(a))
          else
            Verification(open.(scaffold := Some(st.scaffold.value.(timers := After(a)))), After(a).next, Some(a))
  }

  // ----- Registration -----

  datatype Lookup =
    | Refreshed(suggestedDelay: int)
    | RateLimited(retryAfter: int, suggestedDelay: int)
    | Failed

  datatype RegistrationConfig = RegistrationConfig(refreshInterval: nat, retryBackoff: nat)

  function RefreshDelay(cfg: RegistrationConfig, l: Lookup): nat
  {
    match l
    case Refreshed(s) => if s > cfg.refreshInterval then s else cfg.refreshInterval
    case RateLimited(r, s) => var d := if s > r then s else r; if d <= 0 then cfg.retryBackoff else d
    case Failed => cfg.retryBackoff
  }

  datatype Refresh = Refresh(timers: Timers, next: Option<int>, attempt: Option<Attempt>)

  function Register(cfg: RegistrationConfig, t: Timers, desired: Option<int>, now: int, l: Lookup, jitter: nat): Refresh
  {
    var expedite := Expedites(t, desired, now);
    var due := if t.next.Some? && t.next.value > now then t.next else None;
    var wake := Earlier(DesiredWake(t, desired, now), due);
    if wake.Some? && !expedite then Refresh(t, wake, None)
    else
      var a := Attempt(now, if expedite then desired else None, RefreshDelay(cfg, l), if l.Failed? then 0 else jitter);
      Refresh(After(a), After(a).next, Some(a))
  }

  // ----- Requeue -----

  function Requeue(wake: Option<int>, now: int): Option<int>
  {
    if wake.None? then None
    else if wake.value - now < SECOND then Some(SECOND)
    else Some(Trunc(wake.value - now))
  }

  /** The earliest of two timers and the delay until it. */
  method RequeueAfter(verification: Option<int>, registration: Option<int>, now: int) returns (delay: Option<int>)
    ensures delay == Requeue(Earlier(verification, registration), now)
    ensures delay.None? <==> verification.None? && registration.None?
    ensures delay.Some? ==> delay.value >= SECOND
    ensures forall w :: w in [verification, registration] && w.Some? ==> delay.Some? && now + delay.value <= (if w.value > now + SECOND then w.value else now + SECOND)
  {
    var wake: Option<int> := None;
    if verification.Some? {
      wake := verification;
    }
    if registration.Some? {
      if wake.None? || registration.value < wake.value {
        wake := registration;
      }
    }
    if wake.Some? {
      if wake.value > now {
        var remaining := wake.value - now;
        if remaining < SECOND {
          return Some(SECOND);
        }
        return Some(remaining - remaining % SECOND);
      }
      return Some(SECOND);
    }
    delay := None;
  }

  /** Sleeping as told at most twice reaches a future timer, less than a second late. */
  lemma TwoSleepsSuffice(wake: int, now: int)
    requires wake > now
    ensures var first := now + Requeue(Some(wake), now).value;
            var second := first + Requeue(Some(wake), first).value;
            wake <= first < wake + SECOND || (first < wake <= second < wake + SECOND)
  {
  }

  // ----- The object -----

  class Domain {
    var status: Status
    var desired: Desired

    /** `reconcileVerification`, field by field. */
    method ReconcileVerification(rs: seq<RetryInterval>, now: int, p: Probe) returns (next: Option<int>, attempt: Option<Attempt>)
      modifies this`status
      ensures Verification(status, next, attempt) == Verify(rs, old(status), desired.verification, now, p)
    {
      next, attempt := None, None;
      var verified := Start(status.verified, now);
      var dns, http, zone := Or(status.dns, false), Or(status.http, false), Or(status.zone, false);
      if verified.status == Yes {
        return;
      }
      if p.zone {
        zone := Yes;
      }
      if zone == Yes {
        status := status.(verified := verified.(status := Yes), scaffold := None, dns := Unset, http := Unset, zone := Yes);
        return;
      }
      if status.scaffold.None? {
        status := status.(scaffold := Some(Scaffold(p.content, Timers(Some(now), None))));
        next := Some(now);
      } else {
        var timers := status.scaffold.value.timers;
        var expedite := false;
        var desiredWake: Option<int> := None;
        if desired.verification.Some? {
          var d := desired.verification.value;
          var pending := timers.last.None? || timers.last.value < d;
          if d <= now && pending {
            expedite := true;
          } else if pending && d > now {
            desiredWake := Some(d);
          }
        }
        if timers.next.Some? && timers.next.value - now > 0 && !expedite {
          next := timers.next;
          if desiredWake.Some? && desiredWake.value < next.value {
            next := desiredWake;
          }
        } else {
          var interval := GetRetryInterval(rs, now - verified.transition);
          attempt := Some(Attempt(now, if expedite then desired.verification else None, interval, p.jitter));
          timers := Timers(Some(now + interval + p.jitter), Some(now));
          status := status.(scaffold := Some(status.scaffold.value.(timers := timers)));
          next := timers.next;
          if p.dns {
            dns := Yes;
          }
          if dns != Yes && p.http {
            http := Yes;
          }
          if dns == Yes || http == Yes {
            status := status.(verified := verified.(status := Yes), scaffold := None, dns := Unset, http := Unset, zone := Unset);
            return None, attempt;
          }
        }
      }
      status := status.(verified := verified, dns := dns, http := http, zone := zone);
    }

    method ReconcileRegistration(cfg: RegistrationConfig, now: int, l: Lookup, jitter: nat) returns (next: Option<int>, attempt: Option<Attempt>)
      modifies this`status
      ensures var r := Register(cfg, old(status).registration, desired.registration, now, l, jitter);
              status == old(status).(registration := r.timers) && next == r.next && attempt == r.attempt
    {
      var t := status.registration;
      var wake: Option<int> := None;
      var expedite := false;
      if desired.registration.Some? {
        var d := desired.registration.value;
        var pending := t.last.None? || t.last.value < d;
        if d <= now && pending {
          expedite := true;
        } else if pending && d > now {
          wake := Some(d);
        }
      }
      if t.next.Some? && t.next.value > now && !expedite {
        if wake.None? || t.next.value < wake.value {
          wake := t.next;
        }
      }
      if wake.Some? && !expedite {
        return wake, None;
      }
      var delay := RefreshDelay(cfg, l);
      var spread := if l.Failed? then 0 else jitter;
      attempt := Some(Attempt(now, if expedite then desired.registration else None, delay, spread));
      next := Some(now + delay + spread);
      status := status.(registration := Timers(next, Some(now)));
    }
  }
}
