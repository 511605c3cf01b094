/**
 Renewing one saved SSO login from any number of aerolvm processes on a machine.
 The login file and the lock file are registers the processes share; the provider
 rotates refresh tokens, so each may be exchanged once. A process takes the lock,
 loads the file, exchanges the refresh token, saves the file and unlocks, each a
 step of its own, and it may die between any two.
 */
module Sso {
  import opened Options

  const RENEW_BEFORE: int := 60
  const RENEW_RETRY_AFTER: int := 60

  /** `who` stands for the server, the issuer and the client id that sameLogin compares; times are in seconds. */
  datatype Login = Login(who: nat, refresh: Option<nat>, expiry: int)

  /** Where a process is in renew; `same` is stillSaved. */
  datatype Stage = Outside | Locked | Ready(same: bool) | Exchanged(same: bool, next: Login) | Leaving

  datatype Process = Process(login: Login, stage: Stage)

  /**
   `spent` holds every refresh token the provider has exchanged, `issued` counts
   the tokens handed out so far, and `reused` says that some process has sent a
   token already spent.
   */
  datatype State = State(
    file: Option<Login>, lock: bool, processes: map<nat, Process>,
    spent: set<nat>, issued: nat, reused: bool)

  datatype Event =
    | Spawn(p: nat)
    | Die(p: nat)
    | Lock(p: nat)
    | Load(p: nat, now: int)
    | LoadFails(p: nat)
    | NoRefreshToken(p: nat)
    | Exchange(p: nat, expiry: int)
    | ExchangeFails(p: nat, rotated: bool)
    | Save(p: nat)
    | SaveFails(p: nat)
    | Unlock(p: nat)
    | Takeover
    | Replace(login: Option<Login>)

  predicate Fresh(login: Login, now: int) {
    login.expiry - now >= RENEW_BEFORE
  }

  /** What renew makes of the saved login: adopt it when it is still this one, and stop there when another process renewed it. */
  function AfterLoad(p: Process, file: Option<Login>, now: int): Process {
    if file.Some? && file.value.who == p.login.who
    then Process(file.value, if Fresh(file.value, now) then Leaving else Ready(true))
    else p.(stage := Ready(false))
  }

  /** Over another login, or none, the renewed one is not saved: only this process has it. */
  function AfterExchange(p: Process, next: Login, same: bool): Process {
    if same then p.(stage := Exchanged(same, next)) else Process(next, Leaving)
  }

  function Put(s: State, p: nat, q: Process): State {
    s.(processes := s.processes[p := q])
  }

  predicate CanSend(s: State, p: nat) {
    p in s.processes && s.processes[p].stage.Ready? && s.processes[p].login.refresh.Some?
  }

  predicate Enabled(s: State, e: Event) {
    match e
    case Spawn(p) => p !in s.processes && s.file.Some?
    case Die(p) => p in s.processes
    case Lock(p) => p in s.processes && s.processes[p].stage.Outside? && !s.lock
    case Load(p, _) => p in s.processes && s.processes[p].stage.Locked?
    case LoadFails(p) => p in s.processes && s.processes[p].stage.Locked?
    case NoRefreshToken(p) => p in s.processes && s.processes[p].stage.Ready? && s.processes[p].login.refresh.None?
    case Exchange(p, _) => CanSend(s, p)
    case ExchangeFails(p, _) => CanSend(s, p)
    case Save(p) => p in s.processes && s.processes[p].stage.Exchanged?
    case SaveFails(p) => p in s.processes && s.processes[p].stage.Exchanged?
    case Unlock(p) => p in s.processes && s.processes[p].stage.Leaving?
    case Takeover => s.lock
    case Replace(login) => login.Some? && login.value.refresh.Some? ==> login.value.refresh.value == s.issued
  }

  function Do(s: State, e: Event): State
    requires Enabled(s, e)
  {
    match e
    case Spawn(p) => Put(s, p, Process(s.file.value, Outside))
    case Die(p) => s.(processes := s.processes - {p})
    case Lock(p) => Put(s, p, s.processes[p].(stage := Locked)).(lock := true)
    case Load(p, now) => Put(s, p, AfterLoad(s.processes[p], s.file, now))
    case LoadFails(p) => Put(s, p, s.processes[p].(stage := Ready(false)))
    case NoRefreshToken(p) => Put(s, p, s.processes[p].(stage := Leaving))
    case Exchange(p, expiry) =>
      var q := s.processes[p];
      var next := Login(q.login.who, Some(s.issued), expiry);
      Put(s, p, AfterExchange(q, next, q.stage.same))
        .(spent := s.spent + {q.login.refresh.value}, issued := s.issued + 1,
          reused := s.reused || q.login.refresh.value in s.spent)
    case ExchangeFails(p, rotated) =>
      var q := s.processes[p];
      Put(s, p, q.(stage := Leaving))
        .(spent := if rotated then s.spent + {q.login.refresh.value} else s.spent,
          reused := s.reused || q.login.refresh.value in s.spent)
    case Save(p) => Put(s, p, Process(s.processes[p].stage.next, Leaving)).(file := Some(s.processes[p].stage.next))
    case SaveFails(p) => Put(s, p, s.processes[p].(stage := Leaving))
    case Unlock(p) => Put(s, p, s.processes[p].(stage := Outside)).(lock := false)
    case Takeover => s.(lock := false)
    case Replace(login) => s.(file := login, issued := s.issued + 1)
  }

  ghost predicate Next(s: State, e: Event, t: State) {
    Enabled(s, e) && t == Do(s, e)
  }

  ghost predicate Known(s: State, refresh: Option<nat>) {
    refresh.Some? ==> refresh.value < s.issued
  }

  ghost predicate Unspent(s: State, refresh: Option<nat>) {
    refresh.Some? ==> refresh.value !in s.spent
  }

  ghost predicate Critical(s: State, p: nat) {
    p in s.processes && !s.processes[p].stage.Outside?
  }

  /** The saved login holds no refresh token, so that there is none to send. */
  ghost predicate NoToken(s: State) {
    s.file.Some? && s.file.value.refresh.None?
  }

  /** The lock was left by a process that died before its exchange, or after its save. */
  ghost predicate Abandoned(s: State) {
    (forall p :: !Critical(s, p)) && (s.file.Some? ==> Unspent(s, s.file.value.refresh))
  }

  /**
   The steps the promise survives. The provider refusing an exchange, a death anywhere
   and taking over an abandoned lock are among them. Replacing the saved login from
   outside is left out altogether.
   */
  ghost predicate Benign(s: State, e: Event) {
    match e
    case LoadFails(_) => NoToken(s)
    case SaveFails(_) => NoToken(s)
    case ExchangeFails(_, rotated) => rotated ==> NoToken(s)
    case Takeover => NoToken(s) || Abandoned(s)
    case Replace(_) => false
    case _ => true
  }

  ghost predicate OneHolder(s: State) {
    && (forall p, q :: Critical(s, p) && Critical(s, q) ==> p == q)
    && (forall p :: Critical(s, p) ==> s.lock)
  }

  /**
   Each process works for the saved login, with a token that is the file's or spent;
   past its load with exactly what the file holds, and past its exchange, until it has
   saved, with what the file still holds.
   */
  ghost predicate ProcessSound(s: State, p: nat)
    requires p in s.processes && s.file.Some?
  {
    var q := s.processes[p];
    && q.login.who == s.file.value.who
    && q.login.refresh.Some? && (q.login.refresh.value in s.spent || q.login.refresh == s.file.value.refresh)
    && (q.stage.Ready? ==> q.stage.same && q.login == s.file.value)
    && (q.stage.Exchanged? ==>
          && q.stage.same && q.stage.next.who == s.file.value.who && !Unspent(s, s.file.value.refresh)
          && q.stage.next.refresh.Some? && Known(s, q.stage.next.refresh) && Unspent(s, q.stage.next.refresh))
  }

  /** The file's token is unspent, but for the time between an exchange and the save that follows it, when the lock is held. */
  ghost predicate FileSound(s: State)
    requires s.file.Some?
  {
    && s.file.value.refresh.Some? && Known(s, s.file.value.refresh)
    && (!Unspent(s, s.file.value.refresh) ==>
          s.lock && forall p :: Critical(s, p) ==> s.processes[p].stage.Exchanged?)
  }

  ghost predicate TokenInv(s: State) {
    && s.file.Some? && OneHolder(s) && FileSound(s) && !s.reused
    && (forall p :: p in s.processes ==> ProcessSound(s, p))
    && (forall token :: token in s.spent ==> token < s.issued)
  }

  /** Without a token in the file no process ever has one. */
  ghost predicate NoTokenInv(s: State) {
    && NoToken(s) && !s.reused
    && forall p :: p in s.processes ==> s.processes[p].login.refresh.None? && !s.processes[p].stage.Exchanged?
  }

  ghost predicate Inv(s: State) {
    TokenInv(s) || NoTokenInv(s)
  }

  lemma OnlyHolder(s: State, p: nat)
    requires OneHolder(s) && Critical(s, p)
    ensures s.lock && forall q :: Critical(s, q) ==> q == p
  {
  }

  lemma HolderKept(s: State, e: Event, t: State)
    requires OneHolder(s) && Next(s, e, t) && Benign(s, e) && !NoToken(s)
    ensures OneHolder(t)
  {
    assert forall p :: Critical(t, p) ==> Critical(s, p) || e == Lock(p);
    if e.Unlock? {
      OnlyHolder(s, e.p);
    }
  }

  lemma SenderHoldsTheFile(s: State, p: nat)
    requires TokenInv(s) && CanSend(s, p)
    ensures s.processes[p].stage.same && s.processes[p].login == s.file.value
    ensures s.processes[p].login.refresh.value !in s.spent && Critical(s, p)
  {
  }

  lemma ProcessKept(s: State, e: Event, t: State, q: nat)
    requires TokenInv(s) && Next(s, e, t) && Benign(s, e) && q in t.processes
    ensures t.file.Some? && ProcessSound(t, q)
  {
    assert q in s.processes ==> ProcessSound(s, q);
    match e
    case Exchange(p, _) =>
      SenderHoldsTheFile(s, p);
      OnlyHolder(s, p);
      assert q != p ==> !Critical(s, q);
    case ExchangeFails(p, _) => SenderHoldsTheFile(s, p);
    case Save(p) =>
      assert ProcessSound(s, p) && Critical(s, p);
      OnlyHolder(s, p);
      assert q != p ==> !Critical(s, q);
    case _ =>
  }

  lemma FileKept(s: State, e: Event, t: State)
    requires TokenInv(s) && Next(s, e, t) && Benign(s, e)
    ensures t.file.Some? && FileSound(t) && !t.reused && forall token :: token in t.spent ==> token < t.issued
  {
    assert forall p :: Critical(t, p) ==> Critical(s, p) || e == Lock(p);
    match e
    case Exchange(p, _) =>
      SenderHoldsTheFile(s, p);
      OnlyHolder(s, p);
    case ExchangeFails(p, _) =>
      SenderHoldsTheFile(s, p);
    case Load(p, _) =>
      assert Critical(s, p);
    case Save(p) =>
      assert ProcessSound(s, p);
    case Unlock(p) =>
      assert Critical(s, p);
    case _ =>
  }

  lemma TokenKept(s: State, e: Event, t: State)
    requires TokenInv(s) && Next(s, e, t) && Benign(s, e)
    ensures TokenInv(t)
  {
    HolderKept(s, e, t);
    forall p | p in t.processes
      ensures t.file.Some? && ProcessSound(t, p)
    {
      ProcessKept(s, e, t, p);
    }
    FileKept(s, e, t);
  }

  lemma NoTokenKept(s: State, e: Event, t: State)
    requires NoTokenInv(s) && Next(s, e, t) && !e.Replace?
    ensures NoTokenInv(t)
  {
  }

  lemma NextKeeps(s: State, e: Event, t: State)
    requires Inv(s) && Next(s, e, t) && Benign(s, e)
    ensures Inv(t)
  {
    if TokenInv(s) {
      TokenKept(s, e, t);
    } else {
      NoTokenKept(s, e, t);
    }
  }

  /**
   A load takes over what the file holds of the process's login, and leads to a renewal
   exactly when the login is another one or has less than a minute left.
   */
  lemma LoadedExactly(s: State, p: nat, now: int, t: State)
    requires Next(s, Load(p, now), t)
    ensures p in s.processes && p in t.processes
    ensures var same := s.file.Some? && s.file.value.who == s.processes[p].login.who;
      && t.processes[p].login == (if same then s.file.value else s.processes[p].login)
      && (t.processes[p].stage.Ready? <==> !same || s.file.value.expiry < now + 60)
      && (!t.processes[p].stage.Ready? ==> t.processes[p].stage.Leaving?)
      && (t.processes[p].stage.Ready? ==> t.processes[p].stage.same == same)
  {
  }

  /** A process can die at any point, any process can be started, and a token sent after it was exchanged is noticed. */
  lemma SpentAndReused(s: State, e: Event, t: State, p: nat)
    requires Next(s, e, t) && forall token :: token in s.spent ==> token < s.issued
    ensures p in s.processes ==> Enabled(s, Die(p)) && p !in Do(s, Die(p)).processes
    ensures p !in s.processes && s.file.Some? ==> Enabled(s, Spawn(p))
    ensures (e.Exchange? || e.ExchangeFails?) ==>
      CanSend(s, e.p) && (t.reused <==> s.reused || s.processes[e.p].login.refresh.value in s.spent)
    ensures e.Exchange? || (e.ExchangeFails? && e.rotated) ==> s.processes[e.p].login.refresh.value in t.spent
    ensures e.Replace? && t.file.Some? && t.file.value.refresh.Some? ==>
      t.file.value.refresh.value !in s.spent && t.file.value.refresh.value < t.issued
    ensures !e.Exchange? && !e.ExchangeFails? ==> t.reused == s.reused && t.spent == s.spent
  {
  }

  /** How many steps of its own a process has left under the lock. */
  function StepsLeft(stage: Stage): nat {
    match stage
    case Outside => 0
    case Leaving => 1
    case Exchanged(_, _) => 2
    case Ready(_) => 3
    case Locked => 4
  }

  /** The process a step belongs to. */
  function Mover(e: Event): Option<nat> {
    match e
    case Spawn(p) => Some(p)
    case Die(p) => Some(p)
    case Lock(p) => Some(p)
    case Load(p, _) => Some(p)
    case LoadFails(p) => Some(p)
    case NoRefreshToken(p) => Some(p)
    case Exchange(p, _) => Some(p)
    case ExchangeFails(p, _) => Some(p)
    case Save(p) => Some(p)
    case SaveFails(p) => Some(p)
    case Unlock(p) => Some(p)
    case Takeover => None
    case Replace(_) => None
  }

  /** A renewal is over after at most four more steps of its own, no other process's step touches it, and it always has a next one. */
  lemma RenewalEnds(s: State, e: Event, t: State, p: nat)
    requires Next(s, e, t) && Critical(s, p)
    ensures if Mover(e) == Some(p) then p !in t.processes || StepsLeft(t.processes[p].stage) < StepsLeft(s.processes[p].stage)
            else p in t.processes && t.processes[p] == s.processes[p]
    ensures Enabled(s, Load(p, 0)) || Enabled(s, NoRefreshToken(p)) || Enabled(s, Exchange(p, 0))
      || Enabled(s, Save(p)) || Enabled(s, Unlock(p))
  {
  }

  // ----- Whole runs -----

  /** A machine on which someone has just signed in; every earlier token is older than `issued`. */
  ghost predicate SignedIn(s: State) {
    && s.file.Some? && !s.lock && s.processes == map[] && s.spent == {} && !s.reused
    && Known(s, s.file.value.refresh)
  }

  ghost predicate Run(states: seq<State>, events: seq<Event>) {
    && |states| == |events| + 1 && SignedIn(states[0])
    && forall i :: 0 <= i < |events| ==> Next(states[i], events[i], states[i + 1])
  }

  /** The steps from `from` up to `to` are benign where they are taken. */
  ghost predicate AllBenign(states: seq<State>, events: seq<Event>, from: nat, to: nat)
    requires from <= to <= |events| < |states|
  {
    forall i :: from <= i < to ==> Benign(states[i], events[i])
  }

  lemma {:induction false} RunKeeps(states: seq<State>, events: seq<Event>, i: nat)
    requires Run(states, events) && i <= |events| && AllBenign(states, events, 0, i)
    ensures Inv(states[i])
  {
    if i > 0 {
      RunKeeps(states, events, i - 1);
      NextKeeps(states[i - 1], events[i - 1], states[i]);
    }
  }

  /**
   However many processes renew the login, dying wherever they do and their abandoned
   locks taken over, no refresh token is sent after it has been exchanged.
   */
  lemma NoTokenIsSentTwice(states: seq<State>, events: seq<Event>, i: nat)
    requires Run(states, events) && i <= |events| && AllBenign(states, events, 0, i)
    ensures !states[i].reused
    ensures forall p :: CanSend(states[i], p) ==> states[i].processes[p].login.refresh.value !in states[i].spent
  {
    RunKeeps(states, events, i);
    forall p | CanSend(states[i], p)
      ensures states[i].processes[p].login.refresh.value !in states[i].spent
    {
      if TokenInv(states[i]) {
        SenderHoldsTheFile(states[i], p);
      }
    }
  }
}
