/** What a slot's request generation counts. */
module RouterRequests {
  import opened RouterSpec
  import opened RouterMachine
  import opened RouterInvariant
  import opened RouterSteps

  /** A call that succeeded in slot `i` and is eligible for completion makes its request. */
  ghost predicate Eligible(s: Sys, e: Step, i: nat) {
    e.Ask? && e.eligible && e.t in s.calls && s.calls[e.t].pc == Ran(true) && s.calls[e.t].slot == i
  }

  /** Has slot `i` seen an eligible call in the first `k` steps? */
  ghost predicate Seen(states: seq<Sys>, steps: seq<Step>, k: nat, i: nat)
    requires |states| == |steps| + 1 && k <= |steps|
  {
    exists j :: 0 <= j < k && Eligible(states[j], steps[j], i)
  }

  /** How many of the first `k` steps ask for a completion pass of slot `i`: every eligible
      `task.start`, and the slot's first eligible call whatever it is. */
  ghost function Asked(states: seq<Sys>, steps: seq<Step>, k: nat, i: nat): nat
    requires |states| == |steps| + 1 && k <= |steps|
  {
    if k == 0 then 0
    else
      var s, e := states[k - 1], steps[k - 1];
      Asked(states, steps, k - 1, i)
      + if Eligible(s, e, i) && (s.calls[e.t].isTaskStart || !Seen(states, steps, k - 1, i)) then 1 else 0
  }

  ghost predicate Keeps(r: Router, r': Router, i: nat) {
    && |r.slots| <= |r'.slots|
    && (i < |r.slots| ==> r'.slots[i].generation == r.slots[i].generation
                          && r'.slots[i].recoveryChecked == r.slots[i].recoveryChecked)
    && (|r.slots| <= i < |r'.slots| ==> r'.slots[i].generation == 0 && !r'.slots[i].recoveryChecked)
  }

  lemma EnterKeeps(s: Sys, t: nat, i: nat)
    requires Inv(s) && Enabled(s, Enter(t))
    ensures Keeps(s.r, Apply(s, Enter(t)).r, i)
  {
    AdmitDecides(s.r, s.calls[t].session, s.calls[t].bridgeId);
  }

  lemma LaunchKeeps(s: Sys, t: nat, starts: bool, i: nat)
    requires Enabled(s, Launch(t, starts))
    ensures Keeps(s.r, Apply(s, Launch(t, starts)).r, i)
  {
  }

  lemma RearmKeeps(s: Sys, w: nat, starts: bool, i: nat)
    requires Enabled(s, Rearm(w, starts))
    ensures Keeps(s.r, Apply(s, Rearm(w, starts)).r, i)
  {
  }

  lemma FinishKeeps(s: Sys, w: nat, stillActive: bool, i: nat)
    requires Enabled(s, FinishCycle(w, stillActive))
    ensures Keeps(s.r, Apply(s, FinishCycle(w, stillActive)).r, i)
  {
  }

  /** A call that does not ask leaves the record of requests alone. */
  lemma CallKeeps(s: Sys, e: Step, i: nat)
    requires Enabled(s, e) && !Eligible(s, e, i) && (e.Begin? || e.Ask? || e.Leave?)
    ensures Keeps(s.r, Apply(s, e).r, i)
  {
  }

  /** No other step touches what a slot has recorded about requests. */
  lemma OthersKeep(s: Sys, e: Step, i: nat)
    requires Inv(s) && Enabled(s, e) && !Eligible(s, e, i)
    ensures Keeps(s.r, Apply(s, e).r, i)
  {
    match e
    case Enter(t) => EnterKeeps(s, t, i);
    case Launch(t, starts) => LaunchKeeps(s, t, starts, i);
    case Rearm(w, starts) => RearmKeeps(s, w, starts, i);
    case FinishCycle(w, stillActive) => FinishKeeps(s, w, stillActive, i);
    case Begin(_) => CallKeeps(s, e, i);
    case Ask(_, _) => CallKeeps(s, e, i);
    case Leave(_) => CallKeeps(s, e, i);
    case _ =>
  }

  lemma AskCounts(s: Sys, t: nat, i: nat)
    requires Enabled(s, Ask(t, true)) && Eligible(s, Ask(t, true), i)
    ensures var slot, slot' := s.r.slots[i], Apply(s, Ask(t, true)).r.slots[i];
            |Apply(s, Ask(t, true)).r.slots| == |s.r.slots|
            && slot'.recoveryChecked
            && slot'.generation
               == slot.generation + if s.calls[t].isTaskStart || !slot.recoveryChecked then 1 else 0
  {
  }

  /** What a slot has recorded is what was asked for in the first `k` steps. */
  ghost predicate Counted(states: seq<Sys>, steps: seq<Step>, k: nat, i: nat)
    requires |states| == |steps| + 1 && k <= |steps|
  {
    if i < |states[k].r.slots| then
      states[k].r.slots[i].generation == Asked(states, steps, k, i)
      && (states[k].r.slots[i].recoveryChecked <==> Seen(states, steps, k, i))
    else Asked(states, steps, k, i) == 0 && !Seen(states, steps, k, i)
  }

  lemma SeenGrows(states: seq<Sys>, steps: seq<Step>, k: nat, i: nat)
    requires |states| == |steps| + 1 && k < |steps|
    ensures Seen(states, steps, k + 1, i) <==> Seen(states, steps, k, i) || Eligible(states[k], steps[k], i)
  {
  }

  lemma CountsAsk(states: seq<Sys>, steps: seq<Step>, k: nat, i: nat)
    requires IsRun(states, steps) && k < |steps| && Counted(states, steps, k, i) && Eligible(states[k], steps[k], i)
    ensures Counted(states, steps, k + 1, i)
  {
    SeenGrows(states, steps, k, i);
    AskCounts(states[k], steps[k].t, i);
  }

  lemma CountsOther(states: seq<Sys>, steps: seq<Step>, k: nat, i: nat)
    requires IsRun(states, steps) && k < |steps| && Counted(states, steps, k, i) && !Eligible(states[k], steps[k], i)
    requires Inv(states[k])
    ensures Counted(states, steps, k + 1, i)
  {
    SeenGrows(states, steps, k, i);
    OthersKeep(states[k], steps[k], i);
  }

  /** In every run a slot's generation is exactly the number of completion passes asked for, and
      recovery is marked checked exactly once an eligible call has been seen. */
  lemma {:induction false} GenerationCounts(states: seq<Sys>, steps: seq<Step>, k: nat, i: nat)
    requires IsRun(states, steps) && k <= |steps|
    ensures Counted(states, steps, k, i)
  {
    if k > 0 {
      GenerationCounts(states, steps, k - 1, i);
      RunInv(states, steps, k - 1);
      if Eligible(states[k - 1], steps[k - 1], i) {
        CountsAsk(states, steps, k - 1, i);
      } else {
        CountsOther(states, steps, k - 1, i);
      }
    }
  }
}
