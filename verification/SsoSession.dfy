/**
 One process's SSO session: when it hands out its ID token, when it renews the
 login first, and what one renewal does with the answers it gets.
 */
module SsoSession {
  import opened Options
  import opened Sso

  /** A clock that reads this looks like "no renewal failed". */
  const ZERO_TIME: int := 0

  /** The session's fields under its mutex. */
  datatype Fields = Fields(login: Login, failedAt: int, cause: string)

  /** How one renewal ends; the login may have been reloaded even when it fails. */
  datatype Renewal = Renewed(login: Login) | NotRenewed(login: Login, error: string)

  predicate Attempts(f: Fields, now: int) {
    !Fresh(f.login, now) && (f.failedAt == ZERO_TIME || now - f.failedAt >= RENEW_RETRY_AFTER)
  }

  function AfterToken(f: Fields, now: int, r: Renewal): Fields {
    if !Attempts(f, now) then f
    else match r
      case Renewed(login) => Fields(login, ZERO_TIME, "")
      case NotRenewed(login, error) => Fields(login, now, error)
  }

  datatype Call = Call(now: int, renewal: Renewal)

  ghost predicate Session(fields: seq<Fields>, calls: seq<Call>) {
    && |fields| == |calls| + 1
    && forall i :: 0 <= i < |calls| ==> fields[i + 1] == AfterToken(fields[i], calls[i].now, calls[i].renewal)
  }

  ghost predicate AttemptedAt(fields: seq<Fields>, calls: seq<Call>, i: nat)
    requires Session(fields, calls) && i < |calls|
  {
    Attempts(fields[i], calls[i].now)
  }

  lemma {:induction false} FailureRemembered(fields: seq<Fields>, calls: seq<Call>, i: nat, j: nat)
    requires Session(fields, calls) && i < j < |calls|
    requires AttemptedAt(fields, calls, i) && calls[i].renewal.NotRenewed?
    requires forall k: nat :: i < k < j ==> !AttemptedAt(fields, calls, k)
    ensures fields[j].failedAt == calls[i].now
  {
    if i + 1 < j {
      FailureRemembered(fields, calls, i, j - 1);
      assert !AttemptedAt(fields, calls, j - 1);
    }
  }

  /** After a failed renewal the session does not ask the provider again for a minute, whatever the clock does meanwhile. */
  lemma RetriesAreSpaced(fields: seq<Fields>, calls: seq<Call>, i: nat, j: nat)
    requires Session(fields, calls) && i < j < |calls|
    requires AttemptedAt(fields, calls, i) && calls[i].renewal.NotRenewed? && AttemptedAt(fields, calls, j)
    requires forall k: nat :: i < k < j ==> !AttemptedAt(fields, calls, k)
    requires calls[i].now != ZERO_TIME
    ensures calls[j].now - calls[i].now >= RENEW_RETRY_AFTER
  {
    FailureRemembered(fields, calls, i, j);
  }

  /** A failure at the zero time is forgotten: the very next call asks again. */
  lemma ZeroTimeIsForgotten(f: Fields, error: string)
    requires f.failedAt == ZERO_TIME && !Fresh(f.login, ZERO_TIME)
    ensures var fields := [f, Fields(f.login, ZERO_TIME, error), Fields(f.login, ZERO_TIME, error)];
      var calls := [Call(ZERO_TIME, NotRenewed(f.login, error)), Call(ZERO_TIME, NotRenewed(f.login, error))];
      Session(fields, calls) && AttemptedAt(fields, calls, 0) && AttemptedAt(fields, calls, 1)
  {
  }

  /** A renewal is tried exactly when less than a minute is left and no failure less than a minute old is remembered. */
  lemma AttemptsExactly(f: Fields, now: int)
    ensures Attempts(f, now) <==> f.login.expiry < now + 60 && (f.failedAt == ZERO_TIME || f.failedAt + 60 <= now)
  {
  }

  // ----- The session's own code -----

  datatype Answer = Refused(error: string) | Granted(refresh: Option<nat>, expiry: int)

  /** What the lock, the file, the clock and the provider answer during one renewal. */
  datatype World = World(
    lockError: Option<string>, file: Option<Login>, now: int, answer: Answer, saveError: Option<string>)

  const NO_REFRESH_TOKEN := "the login holds no refresh token"

  /** The process in `renew` just after it has loaded the file. */
  function Loaded(login: Login, w: World): Process {
    AfterLoad(Process(login, Locked), w.file, w.now)
  }

  function Granting(login: Login, a: Answer): Login
    requires a.Granted?
  {
    Login(login.who, a.refresh, a.expiry)
  }

  function AfterRenew(login: Login, w: World): Renewal {
    var q := Loaded(login, w);
    if w.lockError.Some? then NotRenewed(login, w.lockError.value)
    else if q.stage.Leaving? then Renewed(q.login)
    else if q.login.refresh.None? then NotRenewed(q.login, NO_REFRESH_TOKEN)
    else match w.answer
      case Refused(error) => NotRenewed(q.login, error)
      case Granted(_, _) =>
        if q.stage == Ready(true) && w.saveError.Some? then NotRenewed(q.login, w.saveError.value)
        else Renewed(Granting(q.login, w.answer))
  }

  class SsoSession {
    var login: Login
    var failedAt: int
    var cause: string

    ghost function View(): Fields
      reads this
    {
      Fields(login, failedAt, cause)
    }

    constructor (saved: Login)
      ensures View() == Fields(saved, ZERO_TIME, "")
    {
      login, failedAt, cause := saved, ZERO_TIME, "";
    }

    /**
     renew. It reports the refresh token it sent and the login it wrote to the
     file: it sends the saved login's token whenever that is still this login, and
     writes only what it was granted and only over the login it loaded.
     */
    method Renew(w: World) returns (err: Option<string>, sent: Option<nat>, saved: Option<Login>)
      modifies this`login
      ensures AfterRenew(old(login), w) == (if err.Some? then NotRenewed(login, err.value) else Renewed(login))
      ensures sent.Some? ==>
        sent == if w.file.Some? && w.file.value.who == old(login).who then w.file.value.refresh else old(login).refresh
      ensures sent.Some? ==> w.lockError.None? && Loaded(old(login), w).stage.Ready?
      ensures saved.Some? ==>
        && sent.Some? && w.file.Some? && w.file.value.who == old(login).who
        && w.answer.Granted? && saved.value == Granting(w.file.value, w.answer)
      ensures sent.Some? && err.None? && saved.None? ==> w.file.None? || w.file.value.who != old(login).who
      ensures w.lockError.Some? ==> err == w.lockError && sent.None? && login == old(login)
      ensures w.lockError.None? ==>
        var same := w.file.Some? && w.file.value.who == old(login).who;
        var loaded := if same then w.file.value else old(login);
        && (same && w.now + 60 <= loaded.expiry ==> err.None? && sent.None? && login == loaded)
        && (!(same && w.now + 60 <= loaded.expiry) ==>
              && sent == loaded.refresh && (sent.None? ==> err.Some? && login == loaded)
              && (sent.Some? && w.answer.Refused? ==> err == Some(w.answer.error) && login == loaded)
              && (sent.Some? && w.answer.Granted? && same && w.saveError.Some? ==> err == w.saveError && login == loaded && saved.None?)
              && (sent.Some? && w.answer.Granted? && !(same && w.saveError.Some?) ==>
                    err.None? && login == Login(loaded.who, w.answer.refresh, w.answer.expiry) && (same ==> saved == Some(login))))
    {
      err, sent, saved := None, None, None;
      if w.lockError.Some? {
        return w.lockError, None, None;
      }
      var stillSaved := w.file.Some? && w.file.value.who == login.who;
      if stillSaved {
        login := w.file.value;
        if login.expiry - w.now >= RENEW_BEFORE {
          return;
        }
      }
      if login.refresh.None? {
        err := Some(NO_REFRESH_TOKEN);
        return;
      }
      sent := login.refresh;
      match w.answer {
        case Refused(error) =>
          err := Some(error);
          return;
        case Granted(refresh, expiry) =>
          var next := Login(login.who, refresh, expiry);
          if stillSaved {
            if w.saveError.Some? {
              err := w.saveError;
              return;
            }
            saved := Some(next);
          }
          login := next;
      }
    }

    /** token: which login is used now; one too close to its expiry is renewed before. */
    method Token(now: int, w: World) returns (used: Login, err: Option<string>, tried: bool)
      modifies this
      ensures View() == AfterToken(old(View()), now, AfterRenew(old(login), w))
      ensures used == login
      ensures old(login).expiry >= now + 60 ==> used == old(login) && err.None? && !tried
      ensures old(login).expiry < now + 60 && old(failedAt) != ZERO_TIME && now < old(failedAt) + 60 ==>
        used == old(login) && err == Some(old(cause)) && !tried
      ensures old(login).expiry < now + 60 && (old(failedAt) == ZERO_TIME || old(failedAt) + 60 <= now) ==>
        tried && (if err.Some? then failedAt == now && cause == err.value else failedAt == ZERO_TIME)
      ensures err == if Fresh(old(login), now) then None
        else if !Attempts(old(View()), now) then Some(old(cause))
        else if AfterRenew(old(login), w).Renewed? then None else Some(AfterRenew(old(login), w).error)
    {
      if login.expiry - now >= RENEW_BEFORE {
        return login, None, false;
      }
      if failedAt != ZERO_TIME && now - failedAt < RENEW_RETRY_AFTER {
        return login, Some(cause), false;
      }
      var failure, sent, saved := Renew(w);
      if failure.Some? {
        failedAt, cause := now, failure.value;
        return login, failure, true;
      }
      failedAt, cause := ZERO_TIME, "";
      return login, None, true;
    }
  }
}
