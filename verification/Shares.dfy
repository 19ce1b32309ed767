/** The passcode of a share link and the lockout that throttles guessing it. */
module Shares {
  import opened Wrappers
  import opened Calendar
  import opened Arithmetic

  type Hash(==) = string

  /** The throttling columns of a share row. */
  datatype Throttle = Throttle(failedAttempts: nat, lockedUntil: Option<Time>)

  const FRESH := Throttle(0, None)

  predicate Locked(t: Throttle, now: Time) { t.lockedUntil.Some? && now < t.lockedUntil.value }

  /** UPDATE ... failed_attempts + 1, and lock until lockUntil once maxAttempts is reached. */
  function Failure(t: Throttle, maxAttempts: int, lockUntil: Time): Throttle {
    Throttle(t.failedAttempts + 1, if t.failedAttempts + 1 >= maxAttempts then Some(lockUntil) else t.lockedUntil)
  }

  datatype VerifyOutcome = NotSetUp | LockedOut | WrongCode | SignedIn | NotSaved

  class UserShare {
    var passcodeHash: Option<Hash>
    var throttle: Throttle
    ghost var faults: nat

    constructor ()
      ensures passcodeHash.None? && throttle == FRESH && faults == 0
    {
      passcodeHash, throttle, faults := None, FRESH, 0;
    }

    /** Whether a write gets through. */
    method Through() returns (ok: bool)
      modifies `faults
      ensures faults == old(faults) + if ok then 0 else 1
    {
      ok := *;
      if !ok { faults := faults + 1; }
    }

    /** The holder's first visit; a passcode once set is never overwritten here. */
    method Setup(hash: Hash) returns (ok: bool)
      modifies this
      ensures old(passcodeHash).Some? ==> !ok
      ensures passcodeHash == if ok then Some(hash) else old(passcodeHash)
      ensures throttle == if ok then Throttle(0, None) else old(throttle)
      ensures faults == old(faults) ==> (ok <==> old(passcodeHash).None?)
    {
      if passcodeHash.Some? { return false; }
      ok := Through();
      if ok { passcodeHash, throttle := Some(hash), FRESH; }
    }

    /** The admin's reset. */
    method Reset() returns (ok: bool)
      modifies this
      ensures ok ==> passcodeHash.None? && throttle == Throttle(0, None)
      ensures !ok ==> passcodeHash == old(passcodeHash) && throttle == old(throttle) && faults > old(faults)
    {
      ok := Through();
      if ok { passcodeHash, throttle := None, FRESH; }
    }

    /**
      One visit: the lock is checked at `now`, and a wrong code is counted, with the lock time computed at
      `later`. A failure that could not be written down goes uncounted.
    */
    method Verify(now: Time, later: Time, correct: bool, rehashed: Option<Hash>, maxAttempts: int, lockFor: nat)
      returns (r: VerifyOutcome, ghost recorded: bool)
      modifies this
      ensures r.NotSetUp? <==> old(passcodeHash).None?
      ensures r.LockedOut? <==>
        old(passcodeHash).Some? && old(throttle).lockedUntil.Some? && now < old(throttle).lockedUntil.value
      ensures r.WrongCode? <==> old(passcodeHash).Some? && !r.LockedOut? && !correct
      ensures r.WrongCode? && recorded ==>
        && throttle.failedAttempts == old(throttle).failedAttempts + 1
        && throttle.lockedUntil == if old(throttle).failedAttempts + 1 >= maxAttempts then Some(later + lockFor)
                                   else old(throttle).lockedUntil
      ensures r.SignedIn? ==> throttle.failedAttempts == 0 && throttle.lockedUntil.None?
      ensures !(r.WrongCode? && recorded) && !r.SignedIn? ==> throttle == old(throttle)
      ensures passcodeHash == old(passcodeHash) || (r.SignedIn? && passcodeHash == rehashed)
      ensures !correct && old(passcodeHash).Some? ==>
        throttle == Guessed(old(throttle), Guess(now, later, recorded), maxAttempts, lockFor)
      ensures faults == old(faults) ==>
        && (r.WrongCode? ==> recorded) && !r.NotSaved?
        && (correct && old(passcodeHash).Some? ==>
              old(throttle).lockedUntil.None? || old(throttle).lockedUntil.value <= now ==> r.SignedIn?)
        && (r.SignedIn? && rehashed.Some? ==> passcodeHash == rehashed)
    {
      recorded := false;
      if passcodeHash.None? { return NotSetUp, recorded; }
      if Locked(throttle, now) { return LockedOut, recorded; }
      var written := Through();
      if !correct {
        if written { throttle := Failure(throttle, maxAttempts, later + lockFor); }
        return WrongCode, written;
      }
      if !written { return NotSaved, recorded; }
      throttle := FRESH;
      if rehashed.Some? {
        var upgraded := Through();
        if upgraded { passcodeHash := rehashed; }
      }
      r := SignedIn;
    }
  }

  // ---------------------------------------------------------------- runs of wrong codes

  /** A visit with a wrong code; `recorded` says whether the failure could be written down. */
  datatype Guess = Guess(now: Time, later: Time, recorded: bool)

  function Guessed(t: Throttle, g: Guess, maxAttempts: int, lockFor: nat): Throttle {
    if !Locked(t, g.now) && g.recorded then Failure(t, maxAttempts, g.later + lockFor) else t
  }

  function AfterGuesses(gs: seq<Guess>, maxAttempts: int, lockFor: nat): Throttle {
    if gs == [] then FRESH
    else Guessed(AfterGuesses(gs[..|gs| - 1], maxAttempts, lockFor), gs[|gs| - 1], maxAttempts, lockFor)
  }

  /** How many of the guesses were looked at rather than turned away, and how many of those went unrecorded. */
  function Evaluated(gs: seq<Guess>, maxAttempts: int, lockFor: nat): nat {
    if gs == [] then 0
    else
      var before := gs[..|gs| - 1];
      Evaluated(before, maxAttempts, lockFor)
      + if Locked(AfterGuesses(before, maxAttempts, lockFor), gs[|gs| - 1].now) then 0 else 1
  }

  function Unrecorded(gs: seq<Guess>, maxAttempts: int, lockFor: nat): nat {
    if gs == [] then 0
    else
      var before := gs[..|gs| - 1];
      Unrecorded(before, maxAttempts, lockFor)
      + if !Locked(AfterGuesses(before, maxAttempts, lockFor), gs[|gs| - 1].now) && !gs[|gs| - 1].recorded then 1 else 0
  }

  ghost predicate ClockAdvances(gs: seq<Guess>) {
    && (forall i | 0 <= i < |gs| :: gs[i].now <= gs[i].later)
    && (forall i | 0 < i < |gs| :: gs[i - 1].later <= gs[i].now)
  }

  /** While failures accrue, the lock only ever moves forward. */
  lemma {:induction false} LockNeverMovesBack(gs: seq<Guess>, i: nat, maxAttempts: int, lockFor: nat)
    requires ClockAdvances(gs) && i <= |gs|
    requires AfterGuesses(gs[..i], maxAttempts, lockFor).lockedUntil.Some?
    ensures AfterGuesses(gs, maxAttempts, lockFor).lockedUntil.Some?
    ensures AfterGuesses(gs[..i], maxAttempts, lockFor).lockedUntil.value
            <= AfterGuesses(gs, maxAttempts, lockFor).lockedUntil.value
  {
    if i == |gs| {
      assert gs[..i] == gs;
    } else {
      var before := gs[..|gs| - 1];
      assert before[..i] == gs[..i];
      LockNeverMovesBack(before, i, maxAttempts, lockFor);
    }
  }

  /** Every recorded guess from the last allowed one on has pushed the lock one duration further. */
  lemma {:induction false} LockKeepsPace(gs: seq<Guess>, maxAttempts: int, lockFor: nat)
    requires ClockAdvances(gs) && gs != [] && maxAttempts >= 1
    ensures
      var t := AfterGuesses(gs, maxAttempts, lockFor);
      && t.failedAttempts + Unrecorded(gs, maxAttempts, lockFor) == Evaluated(gs, maxAttempts, lockFor)
      && (t.failedAttempts < maxAttempts ==> t.lockedUntil.None?)
      && (t.failedAttempts >= maxAttempts ==>
            && t.lockedUntil.Some?
            && Times(t.failedAttempts - maxAttempts + 1, lockFor) <= t.lockedUntil.value - gs[0].now
            && Times(t.failedAttempts - maxAttempts, lockFor) <= gs[|gs| - 1].now - gs[0].now)
    ensures gs[0].now <= gs[|gs| - 1].now
  {
    var n := |gs| - 1;
    var before, g := gs[..n], gs[n];
    if n > 0 {
      assert forall i | 0 <= i < n :: before[i] == gs[i];
      assert gs[n - 1].later <= gs[n].now;
      LockKeepsPace(before, maxAttempts, lockFor);
    }
  }

  /** How many failures may still be counted from t on before the lock sets in. */
  function AttemptsLeft(t: Throttle, maxAttempts: int): int {
    if t.failedAttempts + 1 < maxAttempts then maxAttempts - 1 - t.failedAttempts else 0
  }

  /** How many failures have been counted since t beyond those. */
  function Beyond(t: Throttle, after: Throttle, maxAttempts: int): int {
    after.failedAttempts - t.failedAttempts - AttemptsLeft(t, maxAttempts)
  }

  /** From any guess on, every failure counted beyond those still allowed has pushed the lock one duration further. */
  lemma {:induction false} LockKeepsPaceSince(gs: seq<Guess>, i: nat, maxAttempts: int, lockFor: nat)
    requires ClockAdvances(gs) && i < |gs| && maxAttempts >= 1
    ensures gs[i].now <= gs[|gs| - 1].now
    ensures
      var before, t := AfterGuesses(gs[..i], maxAttempts, lockFor), AfterGuesses(gs, maxAttempts, lockFor);
      var n := Beyond(before, t, maxAttempts);
      n > 0 ==>
        && t.lockedUntil.Some?
        && Times(n, lockFor) <= t.lockedUntil.value - gs[i].now
        && Times(n - 1, lockFor) <= gs[|gs| - 1].now - gs[i].now
  {
    var n := |gs| - 1;
    if i == n {
      assert Times(1, lockFor) == Times(0, lockFor) + lockFor;
    } else {
      var before := gs[..n];
      assert before[..i] == gs[..i] && before[n - 1] == gs[n - 1];
      LockKeepsPaceSince(before, i, maxAttempts, lockFor);
      assert gs[n - 1].later <= gs[n].now;
    }
  }

  /** Every guess looked at is counted or goes unrecorded. */
  lemma {:induction false} EvaluatedAreCounted(gs: seq<Guess>, maxAttempts: int, lockFor: nat)
    ensures AfterGuesses(gs, maxAttempts, lockFor).failedAttempts + Unrecorded(gs, maxAttempts, lockFor)
            == Evaluated(gs, maxAttempts, lockFor)
  {
    if gs != [] { EvaluatedAreCounted(gs[..|gs| - 1], maxAttempts, lockFor); }
  }

  /**
    With no success or reset in between, any window that begins with a guess sees at most maxAttempts plus one
    per lock duration wrong codes looked at, not counting those whose failure could not be recorded. Failures
    counted before the window come off that allowance, down to one.
  */
  lemma GuessesAreThrottled(gs: seq<Guess>, i: nat, maxAttempts: int, lockFor: nat)
    requires ClockAdvances(gs) && i < |gs| && maxAttempts >= 1 && lockFor > 0
    ensures
      var looked := Evaluated(gs, maxAttempts, lockFor) - Evaluated(gs[..i], maxAttempts, lockFor);
      var unrecorded := Unrecorded(gs, maxAttempts, lockFor) - Unrecorded(gs[..i], maxAttempts, lockFor);
      var locks := (gs[|gs| - 1].now - gs[i].now) / lockFor;
      && looked <= maxAttempts + locks + unrecorded
      && looked <= AttemptsLeft(AfterGuesses(gs[..i], maxAttempts, lockFor), maxAttempts) + 1 + locks + unrecorded
  {
    LockKeepsPaceSince(gs, i, maxAttempts, lockFor);
    EvaluatedAreCounted(gs, maxAttempts, lockFor);
    EvaluatedAreCounted(gs[..i], maxAttempts, lockFor);
    var n := Beyond(AfterGuesses(gs[..i], maxAttempts, lockFor), AfterGuesses(gs, maxAttempts, lockFor), maxAttempts);
    AtMostQuotient(if n > 0 then n - 1 else 0, lockFor, gs[|gs| - 1].now - gs[i].now);
  }
}
