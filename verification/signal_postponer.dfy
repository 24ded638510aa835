/** Postponing a burst of notifications: a short timer restarted by each of them, and a long one that bounds the wait. */
module SignalPostponer {
  import opened Common

  /** The notifications number from .. upTo - 1 were answered by one call at this time. */
  datatype Fire = Fire(from: nat, upTo: nat, at: nat)

  /** A timer is inactive, or runs out at a known time. */
  datatype State = State(
    delay: nat,
    patience: nat,
    now: nat,
    lazinessTimer: Option<nat>,
    patienceTimer: Option<nat>,
    // the history of the run
    notifications: seq<nat>,
    fires: seq<Fire>)

  datatype Step = Wait(until: nat) | Notify | Timeout

  function Init(delay: nat, patience: nat): State {
    State(delay, patience, 0, None, None, [], [])
  }

  /** No timer is due before t. */
  predicate NotDueBefore(st: State, t: nat) {
    && (st.lazinessTimer.Some? ==> t <= st.lazinessTimer.value)
    && (st.patienceTimer.Some? ==> t <= st.patienceTimer.value)
  }

  predicate Due(st: State) {
    st.lazinessTimer == Some(st.now) || st.patienceTimer == Some(st.now)
  }

  predicate Enabled(st: State, step: Step) {
    match step
    case Wait(until) => st.now <= until && NotDueBefore(st, until)
    case Notify => true
    case Timeout => Due(st)
  }

  function Notified(st: State): State {
    st.(patienceTimer := if st.lazinessTimer.None? then Some(st.now + st.patience) else st.patienceTimer,
        lazinessTimer := Some(st.now + st.delay),
        notifications := st.notifications + [st.now])
  }

  function Stopped(st: State): State {
    st.(lazinessTimer := None, patienceTimer := None)
  }

  /** Where the notifications not answered yet begin. */
  function Answered(st: State): nat {
    if st.fires == [] then 0 else st.fires[|st.fires| - 1].upTo
  }

  function Fired(st: State): State {
    st.(fires := st.fires + [Fire(Answered(st), |st.notifications|, st.now)])
  }

  /** The timer that ran out is inactive; the callback runs, then both timers are stopped. */
  function Take(st: State, step: Step): State
    requires Enabled(st, step)
  {
    match step
    case Wait(until) => st.(now := until)
    case Notify => Notified(st)
    case Timeout => Stopped(Fired(st))
  }

  // ---------------------------------------------------------------------------
  // What every run keeps
  // ---------------------------------------------------------------------------

  /** Answered when its burst has been quiet for `delay`, or `patience` after the burst began, whichever is first. */
  ghost predicate OnTime(st: State, f: Fire) {
    && f.from < f.upTo <= |st.notifications|
    && st.notifications[f.upTo - 1] <= f.at
    && f.at == Min(st.notifications[f.upTo - 1] + st.delay, st.notifications[f.from] + st.patience)
  }

  /** The fires answer the notifications in turn, none twice and none left between. */
  ghost predicate Contiguous(fires: seq<Fire>) {
    && (fires != [] ==> fires[0].from == 0)
    && forall j :: 0 < j < |fires| ==> fires[j].from == fires[j - 1].upTo
  }

  ghost predicate Ordered(notifications: seq<nat>, now: nat) {
    && (forall i, j :: 0 <= i <= j < |notifications| ==> notifications[i] <= notifications[j])
    && forall i :: 0 <= i < |notifications| ==> notifications[i] <= now
  }

  ghost predicate TimersMatchBurst(st: State) {
    && (st.lazinessTimer.Some? <==> st.patienceTimer.Some?)
    && (st.lazinessTimer.Some? <==> Answered(st) < |st.notifications|)
    && Answered(st) <= |st.notifications|
    && (st.lazinessTimer.Some? ==>
        && st.lazinessTimer.value == st.notifications[|st.notifications| - 1] + st.delay
        && st.patienceTimer.value == st.notifications[Answered(st)] + st.patience)
  }

  ghost predicate Inv(st: State) {
    && TimersMatchBurst(st)
    && NotDueBefore(st, st.now)
    && Ordered(st.notifications, st.now)
    && Contiguous(st.fires)
    && (forall j :: 0 <= j < |st.fires| ==> OnTime(st, st.fires[j]))
  }

  lemma NotifyKeeps(st: State)
    requires Inv(st)
    ensures Inv(Notified(st))
  {
    var next := Notified(st);
    forall j | 0 <= j < |next.fires|
      ensures OnTime(next, next.fires[j])
    {
      assert OnTime(st, st.fires[j]);
    }
  }

  lemma NewFireOnTime(st: State)
    requires TimersMatchBurst(st) && NotDueBefore(st, st.now) && Ordered(st.notifications, st.now) && Due(st)
    ensures OnTime(st, Fire(Answered(st), |st.notifications|, st.now))
  {
  }

  lemma OneMoreContiguous(st: State)
    requires Contiguous(st.fires)
    ensures Contiguous(Fired(st).fires)
  {
    var fires := Fired(st).fires;
    forall j | 0 < j < |fires|
      ensures fires[j].from == fires[j - 1].upTo
    {
      if j < |st.fires| {
        assert fires[j] == st.fires[j] && fires[j - 1] == st.fires[j - 1];
      }
    }
  }

  lemma TimeoutKeeps(st: State)
    requires Inv(st) && Due(st)
    ensures Inv(Take(st, Timeout))
  {
    var next := Take(st, Timeout);
    NewFireOnTime(st);
    OneMoreContiguous(st);
    forall j | 0 <= j < |next.fires|
      ensures OnTime(next, next.fires[j])
    {
      OnTimeStays(st, next, next.fires[j]);
    }
  }

  lemma OnTimeStays(st: State, next: State, f: Fire)
    requires OnTime(st, f)
    requires next.notifications == st.notifications && next.delay == st.delay && next.patience == st.patience
    ensures OnTime(next, f)
  {
  }

  lemma StepKeeps(st: State, step: Step)
    requires Inv(st) && Enabled(st, step)
    ensures Inv(Take(st, step))
    ensures Take(st, step).delay == st.delay && Take(st, step).patience == st.patience
  {
    match step
    case Wait(until) =>
      forall j | 0 <= j < |st.fires|
        ensures OnTime(Take(st, step), st.fires[j])
      {
        assert OnTime(st, st.fires[j]);
      }
    case Notify => NotifyKeeps(st);
    case Timeout => TimeoutKeeps(st);
  }

  ghost predicate IsRun(run: seq<State>, steps: seq<Step>, delay: nat, patience: nat) {
    && |run| == |steps| + 1 && run[0] == Init(delay, patience)
    && forall i :: 0 <= i < |steps| ==> Enabled(run[i], steps[i]) && run[i + 1] == Take(run[i], steps[i])
  }

  /** In every run both timers are active or both inactive, and every fire is on time. */
  lemma {:induction false} EveryRunKeeps(run: seq<State>, steps: seq<Step>, delay: nat, patience: nat, n: nat)
    requires IsRun(run, steps, delay, patience) && n < |run|
    ensures Inv(run[n]) && run[n].delay == delay && run[n].patience == patience
  {
    if n > 0 {
      EveryRunKeeps(run, steps, delay, patience, n - 1);
      assert run[n] == Take(run[n - 1], steps[n - 1]);
      StepKeeps(run[n - 1], steps[n - 1]);
    }
  }

  // ---------------------------------------------------------------------------
  // Answers
  // ---------------------------------------------------------------------------

  ghost predicate AnsweredInTime(st: State, k: nat, j: nat)
    requires k < |st.notifications| && j < |st.fires|
  {
    && st.fires[j].from <= k < st.fires[j].upTo
    && st.notifications[k] <= st.fires[j].at <= st.notifications[k] + st.patience
  }

  /** A fire covering k exists as soon as the fires have come that far. */
  lemma {:induction false} Covering(fires: seq<Fire>, k: nat) returns (j: nat)
    requires Contiguous(fires) && fires != [] && k < fires[|fires| - 1].upTo
    ensures j < |fires| && fires[j].from <= k < fires[j].upTo
    decreases |fires|
  {
    var last := |fires| - 1;
    if fires[last].from <= k {
      j := last;
    } else {
      assert last > 0 && fires[last].from == fires[last - 1].upTo;
      j := Covering(fires[..last], k);
    }
  }

  /** Every notification is answered within patience, or its burst is still open and patience has not run out. */
  lemma EveryNotificationAnswered(st: State, k: nat)
    requires Inv(st) && k < |st.notifications|
    ensures if k < Answered(st) then exists j :: 0 <= j < |st.fires| && AnsweredInTime(st, k, j)
            else st.patienceTimer.Some? && st.now <= st.patienceTimer.value <= st.notifications[k] + st.patience
  {
    if k < Answered(st) {
      var j := Covering(st.fires, k);
      assert OnTime(st, st.fires[j]);
      assert AnsweredInTime(st, k, j);
    }
  }

  lemma {:induction false} FiresUpTo(fires: seq<Fire>)
    requires Contiguous(fires) && forall j :: 0 <= j < |fires| ==> fires[j].from < fires[j].upTo
    ensures fires != [] ==> |fires| <= fires[|fires| - 1].upTo
  {
    if |fires| > 1 {
      FiresUpTo(fires[..|fires| - 1]);
    }
  }

  lemma FiresNeverOutnumber(st: State)
    requires Inv(st)
    ensures |st.fires| <= |st.notifications|
  {
    forall j | 0 <= j < |st.fires|
      ensures st.fires[j].from < st.fires[j].upTo
    {
      assert OnTime(st, st.fires[j]);
    }
    FiresUpTo(st.fires);
  }

  // ---------------------------------------------------------------------------
  // A callback that notifies
  // ---------------------------------------------------------------------------

  /** The callback notifies before both timers are stopped. */
  function TimeoutNotifying(st: State): State {
    Stopped(Notified(Fired(st)))
  }

  /** That notification is lost: no timer runs for it, so however long nothing else happens it stays unanswered. */
  lemma NotificationInCallbackIsLost(st: State, until: nat)
    requires Inv(st) && Due(st) && st.now <= until
    ensures var lost := TimeoutNotifying(st);
            && Answered(lost) == |lost.notifications| - 1 && lost.lazinessTimer == None == lost.patienceTimer
            && Enabled(lost, Wait(until)) && !Due(Take(lost, Wait(until))) && !Inv(lost)
  {
  }

  // ---------------------------------------------------------------------------
  // The two timers as they are kept
  // ---------------------------------------------------------------------------

  class Postponer {
    var lazinessTimer: Option<nat>
    var patienceTimer: Option<nat>
    var delay: nat
    var patience: nat
    ghost var state: State

    constructor (delay: nat, patience: nat)
      ensures Valid() && state == Init(delay, patience)
    {
      this.delay, this.patience := delay, patience;
      lazinessTimer, patienceTimer := None, None;
      state := Init(delay, patience);
    }

    ghost predicate Valid()
      reads this
    {
      && delay == state.delay && patience == state.patience
      && lazinessTimer == state.lazinessTimer && patienceTimer == state.patienceTimer
    }

    method NotifyAt(now: nat)
      requires Valid() && now == state.now
      modifies this
      ensures Valid() && state == Take(old(state), Notify)
    {
      if lazinessTimer.None? {
        patienceTimer := Some(now + patience);
      }
      lazinessTimer := Some(now + delay);
      state := Notified(state);
    }

    method StopTimers()
      requires Valid()
      modifies this
      ensures Valid() && state == Stopped(old(state))
    {
      lazinessTimer := None;
      patienceTimer := None;
      state := Stopped(state);
    }

    /** One of the timers ran out. */
    method TimedOut()
      requires Valid() && Due(state)
      modifies this
      ensures Valid() && state == Take(old(state), Timeout)
    {
      state := Fired(state);
      StopTimers();
    }
  }
}
