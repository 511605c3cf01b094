/**
 The guest agent's filesystem freeze (vsock.go): the safety timer beside
 freeze_fs, thaw_fs and post_resume, under one lock, with kernel calls that may fail
 and timer callbacks that may already be on their way when they are stopped.
 */
module FreezeThaw {
  import opened Options

  // ----- How long a freeze may last -----

  const SECOND: int := 1_000_000_000
  const MIN_THAW_AFTER := SECOND
  const DEFAULT_THAW_AFTER := 600 * SECOND
  const MAX_THAW_AFTER := 1800 * SECOND
  const TWO_63: int := 0x8000_0000_0000_0000

  predicate Int64(x: int) {
    -TWO_63 <= x < TWO_63
  }

  /** What an int64 holds after arithmetic that came to `x`. */
  function Wrap64(x: int): (w: int)
    ensures Int64(w) && (Int64(x) ==> w == x)
  {
    (x + TWO_63) % (2 * TWO_63) - TWO_63
  }

  function ClampFreezeThawAfter(d: int): (r: int)
    ensures MIN_THAW_AFTER <= r <= MAX_THAW_AFTER
    ensures MIN_THAW_AFTER <= d <= MAX_THAW_AFTER ==> r == d
    ensures d <= 0 ==> r == DEFAULT_THAW_AFTER
    ensures 0 < d < MIN_THAW_AFTER ==> r == MIN_THAW_AFTER
    ensures MAX_THAW_AFTER < d ==> r == MAX_THAW_AFTER
  {
    if d <= 0 then DEFAULT_THAW_AFTER
    else if d < MIN_THAW_AFTER then MIN_THAW_AFTER
    else if d > MAX_THAW_AFTER then MAX_THAW_AFTER
    else d
  }

  /** The delay a request's thaw_after_ms leads to, the product to nanoseconds wrapping as int64 does. */
  function ThawDelay(ms: int): int {
    ClampFreezeThawAfter(Wrap64(ms * 1_000_000))
  }

  /** Every request, whatever its value, gets a delay between one second and thirty minutes; sane ones get their own. */
  lemma ThawDelayBounded(ms: int)
    ensures SECOND <= ThawDelay(ms) <= 1800 * SECOND
    ensures 0 < ms <= 1000 ==> ThawDelay(ms) == MIN_THAW_AFTER
    ensures 1000 <= ms <= 1_800_000 ==> ThawDelay(ms) == ms * 1_000_000
    ensures 1_800_000 <= ms <= 9_223_372_036_854 ==> ThawDelay(ms) == MAX_THAW_AFTER
    ensures -9_223_372_036_854 <= ms <= 0 ==> ThawDelay(ms) == DEFAULT_THAW_AFTER
  {
  }

  /** What an int64 keeps of `x`, read without a sign. */
  function Low64(x: int): int {
    x % (2 * TWO_63)
  }

  lemma WrapOfLow(x: int)
    ensures Wrap64(x) == if Low64(x) < TWO_63 then Low64(x) else Low64(x) - 2 * TWO_63
  {
  }

  /**
   The delay is what the request asks for, clamped, if and only if the product fits, or
   is too large and what is left of it asks for the longest delay too, or is too small
   and what is left of it asks for the default.
   */
  lemma ThawDelayExactly(ms: int)
    ensures var left := Low64(ms * 1_000_000);
      ThawDelay(ms) == ClampFreezeThawAfter(ms * 1_000_000) <==>
        || -9_223_372_036_854 <= ms <= 9_223_372_036_854
        || (ms > 0 && MAX_THAW_AFTER <= left < TWO_63)
        || (ms < 0 && (left == 0 || left == DEFAULT_THAW_AFTER || left >= TWO_63))
  {
    WrapOfLow(ms * 1_000_000);
  }

  /** The first request that does not fit is given the default delay instead of the longest. */
  lemma ThawDelayWraps()
    ensures Int64(9_223_372_036_855) && ThawDelay(9_223_372_036_855) == DEFAULT_THAW_AFTER
    ensures ClampFreezeThawAfter(9_223_372_036_855 * 1_000_000) == MAX_THAW_AFTER
  {
  }

  // ----- The machine -----

  /** A timer: armed, its callback fired and waiting for the lock, stopped in time, or its callback run. */
  datatype TimerState = Armed | Fired | Stopped | Ran

  /** `gen` is the generation its callback was given, `freeze` the freeze_fs that armed it. */
  datatype Timer = Timer(gen: nat, freeze: nat, state: TimerState)

  /**
   The handler's fields, the timers, whether the kernel holds the freeze, how many
   freeze_fs calls have succeeded, and whether a thaw_fs or a safety thaw has
   failed since the last of them.
   */
  datatype State = State(
    frozen: bool, gen: nat, timer: Option<nat>,
    timers: map<nat, Timer>, kernelFrozen: bool,
    freezes: nat, thawFailed: bool)

  const THAWED := State(false, 0, None, map[], false, 0, false)

  /** Stop on the current timer: an armed one never fires, a fired one is already on its way. */
  function StopTimer(s: State): State {
    match s.timer
    case None => s
    case Some(id) =>
      if id in s.timers && s.timers[id].state.Armed?
      then s.(timers := s.timers[id := s.timers[id].(state := Stopped)])
      else s
  }

  function FreezeFs(s: State, kernelOk: bool, id: nat): State {
    if !s.frozen && !kernelOk then s
    else
      var t := StopTimer(s);
      t.(frozen := true, kernelFrozen := s.kernelFrozen || !s.frozen, gen := s.gen + 1, timer := Some(id),
         timers := t.timers[id := Timer(s.gen + 1, s.freezes + 1, Armed)],
         freezes := s.freezes + 1, thawFailed := false)
  }

  function ThawFs(s: State, kernelOk: bool): State {
    var t := StopTimer(s).(timer := None, gen := s.gen + 1);
    if kernelOk then t.(frozen := false, kernelFrozen := false) else t.(thawFailed := true)
  }

  function SafetyThaw(s: State, id: nat, kernelOk: bool): State
    requires id in s.timers
  {
    var ran := s.(timers := s.timers[id := s.timers[id].(state := Ran)]);
    if !s.frozen || s.gen != s.timers[id].gen then ran
    else if kernelOk then ran.(timer := None, frozen := false, kernelFrozen := false)
    else ran.(timer := None, thawFailed := true)
  }

  function ThawAfterResume(s: State, kernelOk: bool): State {
    if !s.frozen || !kernelOk then s
    else StopTimer(s).(timer := None, gen := s.gen + 1, frozen := false, kernelFrozen := false)
  }

  datatype Event =
    | OnFreezeFs(kernelOk: bool, id: nat)
    | OnThawFs(kernelOk: bool)
    | OnPostResume(kernelOk: bool)
    | Fires(id: nat)
    | Callback(id: nat, kernelOk: bool)

  ghost predicate Next(s: State, e: Event, t: State) {
    match e
    case OnFreezeFs(ok, id) => id !in s.timers && t == FreezeFs(s, ok, id)
    case OnThawFs(ok) => t == ThawFs(s, ok)
    case OnPostResume(ok) => t == ThawAfterResume(s, ok)
    case Fires(id) =>
      id in s.timers && s.timers[id].state.Armed? && t == s.(timers := s.timers[id := s.timers[id].(state := Fired)])
    case Callback(id, ok) =>
      id in s.timers && s.timers[id].state.Fired? && t == SafetyThaw(s, id, ok)
  }

  // ----- What every step keeps -----

  ghost predicate TimersSound(s: State) {
    && (s.timer.Some? ==> s.timer.value in s.timers)
    && (forall id :: id in s.timers ==>
          && s.timers[id].gen <= s.gen
          && (s.timers[id].gen == s.gen ==> s.timers[id].freeze == s.freezes && (s.timer.None? || s.timer == Some(id)))
          && (s.timers[id].state.Armed? ==> s.timer == Some(id)))
  }

  /** A callback of the current generation that is armed or on its way. */
  ghost predicate Guards(s: State, id: nat) {
    id in s.timers && s.timers[id].gen == s.gen && (s.timers[id].state.Armed? || s.timers[id].state.Fired?)
  }

  ghost predicate SafetyNet(s: State) {
    exists id :: Guards(s, id)
  }

  ghost predicate Guarded(s: State) {
    && s.frozen == s.kernelFrozen && TimersSound(s)
    && (s.frozen && !s.thawFailed ==> SafetyNet(s))
  }

  /** A failed thaw has used the callback up. */
  ghost predicate UsedUp(s: State) {
    && (s.frozen && !s.thawFailed ==> s.timer.Some?)
    && (s.thawFailed ==> forall id :: !Guards(s, id))
  }

  ghost predicate Inv(s: State) {
    Guarded(s) && UsedUp(s)
  }

  lemma FreezeKeeps(s: State, kernelOk: bool, id: nat)
    requires Guarded(s) && id !in s.timers
    ensures Guarded(FreezeFs(s, kernelOk, id))
  {
    if s.frozen || kernelOk {
      assert Guards(FreezeFs(s, kernelOk, id), id);
    }
  }

  lemma ThawKeeps(s: State, kernelOk: bool)
    requires Guarded(s)
    ensures Guarded(ThawFs(s, kernelOk)) && Guarded(ThawAfterResume(s, kernelOk))
  {
  }

  lemma FiresKeeps(s: State, id: nat)
    requires Guarded(s) && id in s.timers && s.timers[id].state.Armed?
    ensures Guarded(s.(timers := s.timers[id := s.timers[id].(state := Fired)]))
  {
    var t := s.(timers := s.timers[id := s.timers[id].(state := Fired)]);
    assert forall other :: Guards(s, other) ==> Guards(t, other);
  }

  lemma CallbackKeeps(s: State, id: nat, kernelOk: bool)
    requires Guarded(s) && id in s.timers && s.timers[id].state.Fired?
    ensures Guarded(SafetyThaw(s, id, kernelOk))
  {
    var t := SafetyThaw(s, id, kernelOk);
    if s.frozen && s.gen != s.timers[id].gen {
      assert forall other :: Guards(s, other) ==> Guards(t, other);
    }
  }

  lemma NoneNew(s: State, e: Event, t: State, id: nat)
    requires Next(s, e, t) && TimersSound(s) && Guards(t, id)
    ensures e.OnFreezeFs? || Guards(s, id)
  {
  }

  lemma UsedUpKept(s: State, e: Event, t: State)
    requires Inv(s) && Next(s, e, t)
    ensures UsedUp(t)
  {
    if t.thawFailed {
      forall id
        ensures !Guards(t, id)
      {
        if Guards(t, id) {
          NoneNew(s, e, t, id);
        }
      }
    }
  }

  lemma NextKeeps(s: State, e: Event, t: State)
    requires Inv(s) && Next(s, e, t)
    ensures Inv(t)
  {
    UsedUpKept(s, e, t);
    match e
    case OnFreezeFs(ok, id) => FreezeKeeps(s, ok, id);
    case OnThawFs(ok) => ThawKeeps(s, ok);
    case OnPostResume(ok) => ThawKeeps(s, ok);
    case Fires(id) => FiresKeeps(s, id);
    case Callback(id, ok) => CallbackKeeps(s, id, ok);
  }

  ghost predicate Run(states: seq<State>, events: seq<Event>) {
    && |states| == |events| + 1 && states[0] == THAWED
    && forall i :: 0 <= i < |events| ==> Next(states[i], events[i], states[i + 1])
  }

  lemma {:induction false} RunKeeps(states: seq<State>, events: seq<Event>, i: nat)
    requires Run(states, events) && i < |states|
    ensures Inv(states[i])
  {
    if i > 0 {
      RunKeeps(states, events, i - 1);
      NextKeeps(states[i - 1], events[i - 1], states[i]);
    }
  }

  /**
   In every run the flag says what the kernel holds, and a frozen filesystem has a
   callback of its own generation armed or on its way if and only if no thaw_fs and
   no safety thaw has failed since the last freeze_fs.
   */
  lemma FrozenMeansGuarded(states: seq<State>, events: seq<Event>, i: nat)
    requires Run(states, events) && i < |states|
    ensures states[i].frozen == states[i].kernelFrozen
    ensures states[i].frozen ==> (SafetyNet(states[i]) <==> !states[i].thawFailed)
  {
    RunKeeps(states, events, i);
  }

  /** A callback that lifts a freeze was armed by the very freeze_fs it lifts, however late it runs. */
  lemma OldCallbackNeverThaws(states: seq<State>, events: seq<Event>, i: nat)
    requires Run(states, events) && i < |events| && events[i].Callback?
    requires states[i].kernelFrozen && !states[i + 1].kernelFrozen
    ensures events[i].id in states[i].timers && states[i].timers[events[i].id].freeze == states[i].freezes
  {
    RunKeeps(states, events, i);
  }

  /** The kernel refuses a thaw: a thaw_fs, or the callback of the freeze it holds. */
  predicate ThawRefused(s: State, e: Event) {
    match e
    case OnThawFs(ok) => !ok
    case Callback(id, ok) => !ok && s.frozen && id in s.timers && s.timers[id].gen == s.gen
    case _ => false
  }

  /** In every run a refused thaw leaves a frozen filesystem frozen, with no callback of its generation left. */
  lemma FailedThawLeavesNoNet(states: seq<State>, events: seq<Event>, i: nat)
    requires Run(states, events) && i < |events| && states[i].frozen && ThawRefused(states[i], events[i])
    ensures states[i + 1].kernelFrozen && !SafetyNet(states[i + 1])
  {
    RunKeeps(states, events, i);
    RunKeeps(states, events, i + 1);
    assert Next(states[i], events[i], states[i + 1]);
  }

  // ----- What each step does, seen from outside -----

  /** No timer is armed but those in `left`, and none that has fired is held back. */
  ghost predicate OnlyArmed(s: State, t: State, left: set<nat>) {
    && (forall id :: id in t.timers && t.timers[id].state.Armed? ==> id in left)
    && (forall id :: id in s.timers && s.timers[id].state.Fired? ==> id in t.timers && t.timers[id].state.Fired?)
  }

  /** `id` is the one callback that guards the freeze. */
  ghost predicate OnlyGuard(s: State, id: nat) {
    Guards(s, id) && forall other :: Guards(s, other) ==> other == id
  }

  ghost predicate SameGuards(s: State, t: State) {
    forall id :: Guards(s, id) <==> Guards(t, id)
  }

  /** The callback that was armed by the freeze now held. */
  ghost predicate OwnFreeze(s: State, id: nat) {
    s.kernelFrozen && id in s.timers && s.timers[id].gen == s.gen
  }

  /** A step in terms of the kernel's state and the callbacks that can still lift it. */
  ghost predicate Effect(s: State, e: Event, t: State) {
    match e
    case OnFreezeFs(ok, id) =>
      if s.kernelFrozen || ok then t.kernelFrozen && OnlyGuard(t, id) && t.timers[id].state.Armed? && OnlyArmed(s, t, {id})
      else t == s
    case OnThawFs(ok) =>
      t.kernelFrozen == (s.kernelFrozen && !ok) && !SafetyNet(t) && OnlyArmed(s, t, {}) && t.timer.None?
    case OnPostResume(ok) =>
      if s.kernelFrozen && ok then !t.kernelFrozen && !SafetyNet(t) && OnlyArmed(s, t, {}) && t.timer.None?
      else t == s
    case Fires(id) =>
      t.kernelFrozen == s.kernelFrozen && SameGuards(s, t) && id in t.timers && t.timers[id].state.Fired?
    case Callback(id, ok) =>
      && id in t.timers && t.timers[id].state.Ran?
      && (if OwnFreeze(s, id) then t.kernelFrozen == !ok && !SafetyNet(t) && t.timer.None?
          else t.kernelFrozen == s.kernelFrozen && (s.kernelFrozen ==> SameGuards(s, t)))
  }

  lemma NewGuard(s: State, id: nat, kernelOk: bool)
    requires Inv(s) && id !in s.timers && (s.frozen || kernelOk)
    ensures Effect(s, OnFreezeFs(kernelOk, id), FreezeFs(s, kernelOk, id))
  {
    var t := FreezeFs(s, kernelOk, id);
    assert Guards(t, id) && t.kernelFrozen;
  }

  lemma CallbackEffect(s: State, id: nat, kernelOk: bool)
    requires Inv(s) && id in s.timers && s.timers[id].state.Fired?
    ensures Effect(s, Callback(id, kernelOk), SafetyThaw(s, id, kernelOk))
  {
    var t := SafetyThaw(s, id, kernelOk);
    if OwnFreeze(s, id) {
      assert Guards(s, id);
      assert s.timer == Some(id);
    }
  }

  /**
   In every run: an acknowledged freeze_fs leaves the kernel frozen with its own timer
   armed and no other callback able to lift the freeze, a thaw the kernel grants leaves
   it thawed with none, and a callback lifts its own freeze or changes nothing.
   */
  lemma EveryStepTakesEffect(states: seq<State>, events: seq<Event>, i: nat)
    requires Run(states, events) && i < |events|
    ensures Effect(states[i], events[i], states[i + 1])
  {
    RunKeeps(states, events, i);
    RunKeeps(states, events, i + 1);
    var s, t := states[i], states[i + 1];
    assert Next(s, events[i], t);
    match events[i]
    case OnFreezeFs(ok, id) =>
      if s.frozen || ok {
        NewGuard(s, id, ok);
      }
    case Callback(id, ok) => CallbackEffect(s, id, ok);
    case _ =>
  }

  // ----- The handler -----

  /** freezeState and the handlers that change it; the kernel and the timers are kept beside it. */
  class FreezeState {
    var frozen: bool
    var gen: nat
    var timer: Option<nat>
    var timers: map<nat, Timer>
    var kernelFrozen: bool
    var freezes: nat
    var thawFailed: bool

    ghost function View(): State
      reads this
    {
      State(frozen, gen, timer, timers, kernelFrozen, freezes, thawFailed)
    }

    constructor ()
      ensures View() == THAWED
    {
      frozen, gen, timer, timers, kernelFrozen := false, 0, None, map[], false;
      freezes, thawFailed := 0, false;
    }

    method Stop()
      modifies this`timers
      ensures View() == StopTimer(old(View()))
    {
      if timer.Some? && timer.value in timers && timers[timer.value].state.Armed? {
        timers := timers[timer.value := timers[timer.value].(state := Stopped)];
      }
    }

    /** Returns whether the call was acknowledged, and the delay its safety thaw was given. */
    method OnFreezeFs(ms: int, kernelOk: bool, id: nat) returns (ok: bool, delay: int)
      requires id !in timers
      modifies this
      ensures View() == FreezeFs(old(View()), kernelOk, id)
      ensures delay == ThawDelay(ms) && (ok <==> old(frozen) || kernelOk)
    {
      delay := ThawDelay(ms);
      if !frozen {
        if !kernelOk {
          return false, delay;
        }
        kernelFrozen := true;
        frozen := true;
      }
      Stop();
      gen := gen + 1;
      freezes, thawFailed := freezes + 1, false;
      timers := timers[id := Timer(gen, freezes, Armed)];
      timer := Some(id);
      ok := true;
    }

    method OnThawFs(kernelOk: bool) returns (ok: bool)
      modifies this
      ensures View() == ThawFs(old(View()), kernelOk)
      ensures ok == kernelOk && (ok ==> !kernelFrozen)
    {
      Stop();
      timer := None;
      gen := gen + 1;
      if !kernelOk {
        thawFailed := true;
        return false;
      }
      kernelFrozen := false;
      frozen := false;
      return true;
    }

    method SafetyThawCallback(id: nat, kernelOk: bool)
      requires id in timers && timers[id].state.Fired?
      modifies this
      ensures View() == SafetyThaw(old(View()), id, kernelOk)
    {
      var armedAt := timers[id].gen;
      timers := timers[id := timers[id].(state := Ran)];
      if !frozen || gen != armedAt {
        return;
      }
      timer := None;
      if !kernelOk {
        thawFailed := true;
        return;
      }
      kernelFrozen := false;
      frozen := false;
    }

    method OnPostResume(kernelOk: bool)
      modifies this
      ensures View() == ThawAfterResume(old(View()), kernelOk)
    {
      if !frozen || !kernelOk {
        return;
      }
      Stop();
      timer := None;
      gen := gen + 1;
      kernelFrozen := false;
      frozen := false;
    }
  }
}
