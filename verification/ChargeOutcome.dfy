/**
 What one charge, from its start to its outcome, does to the usage counter: the sum of the changes
 made by the charging thread's own steps, on any run, with any number of other threads in between.
 */
module ChargeOutcome {
  import opened Words
  import opened UsageAccounting
  import opened UsageTheorems

  /** A thread between the start of a charge and its outcome. */
  predicate InCharge(th: Thread) {
    || th.Charging? || th.Casing? || th.Evicting? || th.Settling? || th.Adding?
    || th.Charged? || th.FailedStrict? || th.FailedLoose?
  }

  /** Throughout the run, thread t works on one charge. */
  ghost predicate OneCharge(s: State, acts: seq<Action>, t: nat) {
    forall k :: 0 <= k <= |acts| ==> t < |Run(s, acts[..k]).threads| && InCharge(Run(s, acts[..k]).threads[t])
  }

  /** Sum of the changes that steps of thread t make to the usage counter. */
  function OwnUsage(s: State, acts: seq<Action>, t: nat): int {
    if acts == [] then 0 else
      var front, last := acts[..|acts| - 1], acts[|acts| - 1];
      var r := Run(s, front);
      OwnUsage(s, front, t) + (if last.t == t then Apply(r, last).usage - r.usage else 0)
  }

  /** Sum of the charges that steps of thread t take out of slots. */
  function OwnEvicted(s: State, acts: seq<Action>, t: nat): int {
    if acts == [] then 0 else
      var front, last := acts[..|acts| - 1], acts[|acts| - 1];
      var r := Run(s, front);
      OwnEvicted(s, front, t) + (if last.t == t then Charges(r.slots) - Charges(Apply(r, last).slots) else 0)
  }

  lemma ChargeStepFrame(s: State, a: Action)
    requires a.t < |s.threads| && InCharge(s.threads[a.t])
    requires InCharge(Apply(s, a).threads[a.t])
    ensures var s' := Apply(s, a);
            && s'.threads == s.threads[a.t := s'.threads[a.t]] && s'.threads[a.t].op == s.threads[a.t].op
            && s'.metadata == s.metadata && s'.standalones == s.standalones
  {
    hide Add;
  }

  lemma OtherStepFrame(s: State, a: Action, t: nat)
    requires a.t != t && t < |s.threads|
    ensures t < |Apply(s, a).threads| && Apply(s, a).threads[t] == s.threads[t]
  {
    hide Add, LooseNeed, AfterReserve, Holds;
  }

  /** By conservation, a thread's own step moves usage by what it has in flight, less what it evicts. */
  lemma OwnStep(s: State, a: Action)
    requires Inv(s) && a.t < |s.threads| && InCharge(s.threads[a.t]) && InCharge(Apply(s, a).threads[a.t])
    ensures var s' := Apply(s, a);
            Same(s'.usage - s.usage,
                 UsageInFlight(s'.threads[a.t]) - UsageInFlight(s.threads[a.t]) - (Charges(s.slots) - Charges(s'.slots)))
  {
    hide Apply, Same, UsageInFlight, OccupancyInFlight, StandaloneInFlight, Charges, InCharge, ThreadOk;
    var s' := Apply(s, a);
    StepKeeps(s, a);
    ChargeStepFrame(s, a);
    ThreadReplaced(s.threads, a.t, s'.threads[a.t]);
    SameSum(s'.usage, TotalUsage(s'), s.usage, TotalUsage(s));
  }

  lemma ChargeFront(s: State, acts: seq<Action>, t: nat)
    requires acts != [] && OneCharge(s, acts, t)
    ensures var front := acts[..|acts| - 1];
            && OneCharge(s, front, t) && t < |Run(s, front).threads| && InCharge(Run(s, front).threads[t])
            && t < |Run(s, acts).threads| && InCharge(Run(s, acts).threads[t])
  {
    hide Run, InCharge;
    var front := acts[..|acts| - 1];
    forall k | 0 <= k <= |front|
      ensures t < |Run(s, front[..k]).threads| && InCharge(Run(s, front[..k]).threads[t])
    {
      assert front[..k] == acts[..k];
    }
    assert front[..|front|] == front && acts[..|acts|] == acts;
  }

  lemma {:induction false} InvRun(s: State, acts: seq<Action>)
    requires Inv(s)
    ensures Inv(Run(s, acts))
  {
    hide Inv, Apply;
    if acts != [] {
      InvRun(s, acts[..|acts| - 1]);
      StepKeeps(Run(s, acts[..|acts| - 1]), acts[|acts| - 1]);
    }
  }

  /** So do all of them together. */
  lemma {:induction false} OwnSteps(s: State, acts: seq<Action>, t: nat)
    requires Inv(s) && OneCharge(s, acts, t) && t < |s.threads| && s.threads[t].Charging?
    ensures t < |Run(s, acts).threads| && InCharge(Run(s, acts).threads[t]) && Run(s, acts).threads[t].op == s.threads[t].op
    ensures Same(OwnUsage(s, acts, t), UsageInFlight(Run(s, acts).threads[t]) - OwnEvicted(s, acts, t))
  {
    hide Inv, Apply, Same, UsageInFlight, Charges, InCharge, OneCharge;
    if acts == [] {
      ChargingHasNothing(s.threads[t]);
    } else {
      var front, last := acts[..|acts| - 1], acts[|acts| - 1];
      ChargeFront(s, acts, t);
      OwnSteps(s, front, t);
      InvRun(s, front);
      var r := Run(s, front);
      if last.t == t {
        OwnStep(r, last);
        ChargeStepFrame(r, last);
        SameSum(OwnUsage(s, front, t), UsageInFlight(r.threads[t]) - OwnEvicted(s, front, t),
                Apply(r, last).usage - r.usage,
                UsageInFlight(Apply(r, last).threads[t]) - UsageInFlight(r.threads[t]) - (Charges(r.slots) - Charges(Apply(r, last).slots)));
      } else {
        OtherStepFrame(r, last, t);
      }
    }
  }

  lemma ChargingHasNothing(th: Thread)
    requires th.Charging?
    ensures UsageInFlight(th) == 0 && Same(0, 0) && InCharge(th)
  {
  }

  /**
   Counting only the charging thread's own steps, modulo 2^64: a failed charge has lowered usage by
   exactly what it evicted, and a successful one has moved it by its charge minus what it evicted,
   for the strict and the non-strict policy, whatever all other threads do meanwhile.
   */
  lemma ChargeMovesUsage(s: State, before: seq<Action>, acts: seq<Action>, t: nat)
    requires Init(s) && t < |Run(s, before).threads| && Run(s, before).threads[t].Charging?
    requires OneCharge(Run(s, before), acts, t)
    ensures var r := Run(s, before); var r' := Run(r, acts);
            && t < |r'.threads|
            && (r'.threads[t].FailedStrict? || r'.threads[t].FailedLoose? ==> Same(OwnUsage(r, acts, t), -OwnEvicted(r, acts, t)))
            && (r'.threads[t].Charged? ==> Same(OwnUsage(r, acts, t), r.threads[t].op.charge - OwnEvicted(r, acts, t)))
  {
    hide Inv, Same, Run, OneCharge, OwnUsage, OwnEvicted;
    RunKeeps(s, before);
    OwnSteps(Run(s, before), acts, t);
  }

  /** The assertion on success after a strict eviction: something was evicted. */
  lemma StrictSuccessEvicted(s: State, acts: seq<Action>, t: nat, lucky: bool)
    requires Init(s) && t < |Run(s, acts).threads| && Run(s, acts).threads[t].Settling?
    requires Apply(Run(s, acts), Step(t, lucky)).threads[t].Charged?
    ensures Run(s, acts).threads[t].count > 0
  {
    hide Run, Same, Add;
    RunKeeps(s, acts);
    assert ThreadOk(Run(s, acts).threads[t]);
  }
}
