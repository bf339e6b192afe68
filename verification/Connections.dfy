/**
 Connection counts per IP address (src/security/rate_limit.rs) against the connections that are open. The gateway reports
 the end of every connection that was let in, and of no other (src/network/gateway.rs).
 */
module Connections {
  type Ip = string

  datatype Limits = Limits(perIp: nat, exempt: set<Ip>)

  /** The stored counts, and the connections that are open. */
  datatype State = State(active: map<Ip, nat>, open: multiset<Ip>)

  // ---------- The steps ----------

  predicate Allowed(l: Limits, active: map<Ip, nat>, ip: Ip) {
    ip in l.exempt || ip !in active || active[ip] < l.perIp
  }

  function Started(l: Limits, active: map<Ip, nat>, ip: Ip): map<Ip, nat> {
    if ip in l.exempt || !Allowed(l, active, ip) then active
    else active[ip := if ip in active then active[ip] + 1 else 1]
  }

  function Ended(l: Limits, active: map<Ip, nat>, ip: Ip): map<Ip, nat> {
    if ip in l.exempt || ip !in active then active
    else if active[ip] > 1 then active[ip := active[ip] - 1]
    else active - {ip}
  }

  datatype Step = Arrive(ip: Ip) | Depart(ip: Ip)

  /** A connection is opened when it is allowed; one that is not open cannot end. */
  function Apply(l: Limits, st: State, step: Step): State {
    match step
    case Arrive(ip) =>
      State(Started(l, st.active, ip), if Allowed(l, st.active, ip) then st.open + multiset{ip} else st.open)
    case Depart(ip) => if ip in st.open then State(Ended(l, st.active, ip), st.open - multiset{ip}) else st
  }

  function Run(l: Limits, steps: seq<Step>): State {
    if steps == [] then State(map[], multiset{}) else Apply(l, Run(l, steps[..|steps| - 1]), steps[|steps| - 1])
  }

  // ---------- The counts ----------

  function Ceiling(l: Limits): nat {
    if l.perIp == 0 then 1 else l.perIp
  }

  /** The count of an address is the number of its open connections; there is none when there are none. */
  ghost predicate Counted(l: Limits, st: State) {
    && (forall ip :: ip in st.active ==> ip !in l.exempt && st.active[ip] == st.open[ip] && 1 <= st.active[ip] <= Ceiling(l))
    && (forall ip :: ip in st.open && ip !in l.exempt ==> ip in st.active)
  }

  lemma ArriveKeepsCounts(l: Limits, st: State, ip: Ip)
    requires Counted(l, st)
    ensures Counted(l, Apply(l, st, Arrive(ip)))
  {
  }

  lemma DepartKeepsCounts(l: Limits, st: State, ip: Ip)
    requires Counted(l, st)
    ensures Counted(l, Apply(l, st, Depart(ip)))
  {
  }

  lemma StepKeepsCounts(l: Limits, st: State, step: Step)
    requires Counted(l, st)
    ensures Counted(l, Apply(l, st, step))
  {
    match step
    case Arrive(ip) => ArriveKeepsCounts(l, st, ip);
    case Depart(ip) => DepartKeepsCounts(l, st, ip);
  }

  /** Whether an address may open another connection, by the connections it has open. */
  lemma AllowedIff(l: Limits, st: State, ip: Ip)
    requires Counted(l, st)
    ensures Allowed(l, st.active, ip) <==> ip in l.exempt || st.open[ip] < Ceiling(l)
  {
  }

  /** Over every sequence of arrivals and departures, in every order, the counts are those of the open connections. */
  lemma {:induction false} RunsCount(l: Limits, steps: seq<Step>)
    ensures Counted(l, Run(l, steps))
  {
    if steps != [] {
      RunsCount(l, steps[..|steps| - 1]);
      StepKeepsCounts(l, Run(l, steps[..|steps| - 1]), steps[|steps| - 1]);
    }
  }

  /**
   In every run: an arrival is turned away exactly when its address is not exempt and already has as many open
   connections as the limit allows, which is one even for a limit of zero; and no such address ever has more.
   */
  lemma TurnedAwayIff(l: Limits, steps: seq<Step>, ip: Ip)
    ensures !Allowed(l, Run(l, steps).active, ip)
        <==> ip !in l.exempt && Run(l, steps).open[ip] == if l.perIp == 0 then 1 else l.perIp
    ensures ip !in l.exempt ==> Run(l, steps).open[ip] <= if l.perIp == 0 then 1 else l.perIp
  {
    RunsCount(l, steps);
  }

  /** In every run: an arrival that is not turned away opens one connection, and a departure ends one that is open. */
  lemma RunsOpen(l: Limits, steps: seq<Step>, step: Step, ip: Ip)
    ensures var before, after := Run(l, steps).open, Run(l, steps + [step]).open;
            && (step == Arrive(ip) && (ip in l.exempt || before[ip] < if l.perIp == 0 then 1 else l.perIp) ==>
                  after[ip] == before[ip] + 1)
            && (step == Depart(ip) && before[ip] > 0 ==> after[ip] == before[ip] - 1)
            && (step.ip != ip || (step.Depart? && before[ip] == 0) ==> after[ip] == before[ip])
            && (step == Arrive(ip) && ip !in l.exempt && before[ip] >= (if l.perIp == 0 then 1 else l.perIp) ==>
                  after[ip] == before[ip])
  {
    assert (steps + [step])[..|steps|] == steps;
    TurnedAwayIff(l, steps, ip);
  }

  // ---------- The limiter ----------

  class RateLimiter {
    const limits: Limits
    var active: map<Ip, nat>
    ghost var open: multiset<Ip>

    ghost predicate Valid()
      reads this
    {
      Counted(limits, State(active, open))
    }

    constructor (limits: Limits)
      ensures Valid() && this.limits == limits && active == map[] && open == multiset{}
    {
      this.limits := limits;
      active, open := map[], multiset{};
    }

    method OnConnectionStart(ip: Ip) returns (allowed: bool)
      requires Valid()
      modifies this
      ensures Valid()
      ensures allowed <==> ip in limits.exempt || old(open)[ip] < Ceiling(limits)
      ensures State(active, open) == Apply(limits, old(State(active, open)), Arrive(ip))
    {
      ArriveKeepsCounts(limits, State(active, open), ip);
      AllowedIff(limits, State(active, open), ip);
      allowed := true;
      if ip !in limits.exempt {
        if ip in active {
          if active[ip] >= limits.perIp {
            allowed := false;
          } else {
            active := active[ip := active[ip] + 1];
          }
        } else {
          active := active[ip := 1];
        }
      }
      open := if allowed then open + multiset{ip} else open;
    }

    method OnConnectionEnd(ip: Ip)
      requires Valid()
      modifies this
      ensures Valid()
      ensures State(active, open) == Apply(limits, old(State(active, open)), Depart(ip))
    {
      DepartKeepsCounts(limits, State(active, open), ip);
      if ip !in limits.exempt && ip in active {
        if active[ip] > 1 {
          active := active[ip := active[ip] - 1];
        } else {
          active := active - {ip};
        }
      }
      open := open - multiset{ip};
    }
  }
}
