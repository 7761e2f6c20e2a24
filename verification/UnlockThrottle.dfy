/** The sliding-window unlock throttle of `session/mod.rs`, driven by `open_vault`. Times are
    nanoseconds of a monotone clock. */
module UnlockThrottle {
  import opened Wrappers

  const FAILURES_BEFORE_BLOCK := 5

  /** FAILURE_WINDOW and BLOCK_DURATION are both sixty seconds. */
  function Window(): nat {
    60_000_000_000
  }

  datatype Bucket = Bucket(failures: seq<nat>, blockedUntil: Option<nat>)

  function Fresh(): Bucket {
    Bucket([], None)
  }

  /** `check_unlock_allowed`: the new bucket, and the seconds to wait if the attempt is blocked. */
  function Check(b: Bucket, now: nat): (Bucket, Option<nat>) {
    match b.blockedUntil
    case Some(until) =>
      if now < until then
        var secs := (until - now) / 1_000_000_000;
        (b, Some(if secs < 1 then 1 else secs))
      else (Fresh(), None)
    case None => (b, None)
  }

  /** `failures.retain`: the failures still inside the window. */
  function Recent(failures: seq<nat>, now: nat): seq<nat> {
    if failures == [] then []
    else if now - failures[0] < Window() then [failures[0]] + Recent(failures[1..], now)
    else Recent(failures[1..], now)
  }

  function RecordFailure(b: Bucket, now: nat): Bucket {
    var failures := Recent(b.failures, now) + [now];
    if |failures| >= FAILURES_BEFORE_BLOCK then Bucket([], Some(now + Window())) else Bucket(failures, b.blockedUntil)
  }

  type Path = string

  class Throttle {
    var buckets: map<Path, Bucket>

    constructor ()
      ensures buckets == map[]
    {
      buckets := map[];
    }

    /** The bucket of a directory; a missing entry counts as a fresh one. */
    function BucketOf(dir: Path): Bucket
      reads this
    {
      if dir in buckets then buckets[dir] else Fresh()
    }

    method CheckUnlockAllowed(dir: Path, now: nat) returns (blocked: Option<nat>)
      modifies this
      ensures buckets == old(buckets)[dir := Check(old(BucketOf(dir)), now).0]
      ensures blocked == Check(old(BucketOf(dir)), now).1
    {
      var b := BucketOf(dir);
      blocked := None;
      if b.blockedUntil.Some? {
        var until := b.blockedUntil.value;
        if now < until {
          var secs := (until - now) / 1_000_000_000;
          blocked := Some(if secs < 1 then 1 else secs);
        } else {
          b := b.(blockedUntil := None, failures := []);
        }
      }
      buckets := buckets[dir := b];
    }

    method RecordUnlockSuccess(dir: Path)
      modifies this
      ensures buckets == old(buckets) - {dir}
      ensures BucketOf(dir) == Fresh()
    {
      buckets := buckets - {dir};
    }

    method RecordUnlockFailure(dir: Path, now: nat) returns (blocked: bool)
      modifies this
      ensures buckets == old(buckets)[dir := RecordFailure(old(BucketOf(dir)), now)]
      ensures blocked <==> |Recent(old(BucketOf(dir)).failures, now)| >= FAILURES_BEFORE_BLOCK - 1
    {
      var b := BucketOf(dir);
      var k, kept := 0, [];
      while k < |b.failures|
        invariant 0 <= k <= |b.failures|
        invariant kept + Recent(b.failures[k..], now) == Recent(b.failures, now)
      {
        assert b.failures[k..][1..] == b.failures[k + 1..];
        if now - b.failures[k] < Window() {
          kept := kept + [b.failures[k]];
        }
        k := k + 1;
      }
      assert kept == Recent(b.failures, now);
      kept := kept + [now];
      blocked := |kept| >= FAILURES_BEFORE_BLOCK;
      b := if blocked then Bucket([], Some(now + Window())) else b.(failures := kept);
      buckets := buckets[dir := b];
    }

    /** The throttle calls of one `open_vault`, made while it holds the unlock gate. */
    method Unlock(dir: Path, a: Attempt, ghost before: RunState) returns (reached: bool)
      requires before.bucket == BucketOf(dir)
      modifies this
      ensures BucketOf(dir) == Attempted(before, a).bucket
      ensures reached == Reaches(before, a)
      ensures forall other :: other != dir ==> BucketOf(other) == old(BucketOf(other))
    {
      var blocked := CheckUnlockAllowed(dir, a.checkAt);
      reached := blocked.None?;
      if reached {
        match a.outcome
        case WrongPassword => var _ := RecordUnlockFailure(dir, a.doneAt);
        case Opened => RecordUnlockSuccess(dir);
        case OtherError =>
      }
    }
  }

  // ----- Runs of open_vault on one vault -----

  datatype Outcome = WrongPassword | Opened | OtherError

  /** One gate-serialized call: the check happens at `checkAt`, `open_store` returns at `doneAt`. */
  datatype Attempt = Attempt(checkAt: nat, doneAt: nat, outcome: Outcome)

  /** The bucket, the failures recorded since the last successful unlock, the latest clock reading. */
  datatype RunState = RunState(bucket: Bucket, recorded: seq<nat>, clock: nat)

  predicate Reaches(r: RunState, a: Attempt) {
    Check(r.bucket, a.checkAt).1.None?
  }

  function Attempted(r: RunState, a: Attempt): RunState {
    var (b, blocked) := Check(r.bucket, a.checkAt);
    if blocked.Some? then RunState(b, r.recorded, a.checkAt)
    else match a.outcome
      case WrongPassword => RunState(RecordFailure(b, a.doneAt), r.recorded + [a.doneAt], a.doneAt)
      case Opened => RunState(Fresh(), [], a.doneAt)
      case OtherError => RunState(b, r.recorded, a.doneAt)
  }

  function Run(attempts: seq<Attempt>): RunState {
    if attempts == [] then RunState(Fresh(), [], 0)
    else Attempted(Run(attempts[..|attempts| - 1]), attempts[|attempts| - 1])
  }

  /** The gate lets one call run at a time and the clock never goes back. */
  ghost predicate Serialized(attempts: seq<Attempt>) {
    && (forall i :: 0 <= i < |attempts| ==> attempts[i].checkAt <= attempts[i].doneAt)
    && (forall i, j :: 0 <= i < j < |attempts| ==> attempts[i].doneAt <= attempts[j].checkAt)
  }

  // ----- The invariant -----

  ghost predicate Sorted(s: seq<nat>) {
    forall i, j :: 0 <= i < j < |s| ==> s[i] <= s[j]
  }

  ghost predicate NotAfter(s: seq<nat>, clock: nat) {
    forall i :: 0 <= i < |s| ==> s[i] <= clock
  }

  /** Everything before the last `k` entries is at least a window old. */
  ghost predicate OldBut(s: seq<nat>, k: nat, clock: nat) {
    forall i :: 0 <= i < |s| - k ==> s[i] + Window() <= clock
  }

  /** Six consecutive failures never fit in one window. */
  ghost predicate Spread(s: seq<nat>) {
    forall i, j :: 0 <= i && i + 5 <= j < |s| ==> s[i] + Window() <= s[j]
  }

  ghost predicate EndsWith(s: seq<nat>, f: seq<nat>) {
    |f| <= |s| && s[|s| - |f|..] == f
  }

  /** The bucket holds the recorded failures that may still be inside the window, at most four of
      them; once blocked, every recorded failure is out of the window when the block ends. */
  ghost predicate BucketFits(b: Bucket, recorded: seq<nat>, clock: nat) {
    match b.blockedUntil
    case None => |b.failures| <= 4 && EndsWith(recorded, b.failures) && OldBut(recorded, |b.failures|, clock)
    case Some(until) => b.failures == [] && OldBut(recorded, 0, until) && until <= clock + Window()
  }

  ghost predicate Inv(r: RunState) {
    && Sorted(r.recorded) && Spread(r.recorded) && NotAfter(r.recorded, r.clock)
    && BucketFits(r.bucket, r.recorded, r.clock)
  }

  lemma {:induction false} RecentIsSuffix(failures: seq<nat>, now: nat)
    requires Sorted(failures)
    ensures EndsWith(failures, Recent(failures, now)) && OldBut(failures, |Recent(failures, now)|, now)
  {
    if failures != [] {
      var rest := failures[1..];
      if now - failures[0] < Window() {
        AllRecent(failures, now);
      } else {
        RecentIsSuffix(rest, now);
        assert forall i :: 0 < i < |failures| ==> failures[i] == rest[i - 1];
      }
    }
  }

  lemma {:induction false} AllRecent(failures: seq<nat>, now: nat)
    requires forall i :: 0 <= i < |failures| ==> now - failures[i] < Window()
    ensures Recent(failures, now) == failures
  {
    if failures != [] {
      AllRecent(failures[1..], now);
    }
  }

  lemma {:induction false} RecentIsRecent(failures: seq<nat>, now: nat)
    ensures forall i :: 0 <= i < |Recent(failures, now)| ==> now - Recent(failures, now)[i] < Window()
  {
    if failures != [] {
      RecentIsRecent(failures[1..], now);
    }
  }

  /** What `retain` keeps of the bucket is the recent end of everything recorded. */
  lemma KeptIsRecentEnd(recorded: seq<nat>, f: seq<nat>, now: nat)
    requires Sorted(recorded) && EndsWith(recorded, f) && OldBut(recorded, |f|, now)
    ensures EndsWith(recorded, Recent(f, now)) && OldBut(recorded, |Recent(f, now)|, now)
  {
    var n, kept := |recorded| - |f|, Recent(f, now);
    assert forall i :: 0 <= i < |f| ==> f[i] == recorded[n + i];
    RecentIsSuffix(f, now);
    forall i | 0 <= i < |recorded| - |kept| ensures recorded[i] + Window() <= now {
      if n <= i {
        assert f[i - n] == recorded[i];
      }
    }
  }

  lemma SpreadGrows(recorded: seq<nat>, kept: nat, now: nat)
    requires Sorted(recorded) && NotAfter(recorded, now) && Spread(recorded) && kept <= 4 && OldBut(recorded, kept, now)
    ensures Sorted(recorded + [now]) && NotAfter(recorded + [now], now) && Spread(recorded + [now])
  {
  }

  lemma FailureKeepsInv(r: RunState, now: nat)
    requires Inv(r) && r.bucket.blockedUntil.None? && r.clock <= now
    ensures Inv(RunState(RecordFailure(r.bucket, now), r.recorded + [now], now))
  {
    var f, recorded := r.bucket.failures, r.recorded;
    var kept := Recent(f, now);
    KeptIsRecentEnd(recorded, f, now);
    assert |kept| <= 4 by {
      assert EndsWith(f, kept) by {
        assert Sorted(f);
        RecentIsSuffix(f, now);
      }
    }
    SpreadGrows(recorded, |kept|, now);
    BucketGrows(recorded, kept, now);
  }

  lemma BucketGrows(recorded: seq<nat>, kept: seq<nat>, now: nat)
    requires EndsWith(recorded, kept) && NotAfter(recorded, now) && OldBut(recorded, |kept|, now)
    ensures EndsWith(recorded + [now], kept + [now]) && OldBut(recorded + [now], |kept| + 1, now)
    ensures OldBut(recorded + [now], 0, now + Window())
  {
    assert (recorded + [now])[|recorded| - |kept|..] == recorded[|recorded| - |kept|..] + [now];
  }

  lemma AttemptKeepsInv(r: RunState, a: Attempt)
    requires Inv(r) && r.clock <= a.checkAt <= a.doneAt
    ensures Inv(Attempted(r, a))
  {
    var (b, blocked) := Check(r.bucket, a.checkAt);
    if blocked.None? {
      assert EndsWith(r.recorded, []);
      var checked := RunState(b, r.recorded, a.checkAt);
      assert Inv(checked);
      if a.outcome == WrongPassword {
        FailureKeepsInv(checked, a.doneAt);
      }
    }
  }

  /** Every prefix of a gate-serialized run is one, and so is its clock. */
  lemma {:induction false} RunKeepsInv(attempts: seq<Attempt>)
    requires Serialized(attempts)
    ensures Inv(Run(attempts))
    ensures attempts != [] ==> Run(attempts).clock <= attempts[|attempts| - 1].doneAt
    ensures attempts == [] ==> Run(attempts).clock == 0
  {
    if attempts != [] {
      RunKeepsInv(attempts[..|attempts| - 1]);
      AttemptKeepsInv(Run(attempts[..|attempts| - 1]), attempts[|attempts| - 1]);
    }
  }

  /** The state in which the next call of a serialized run finds the throttle. */
  lemma NextAttemptFindsInv(attempts: seq<Attempt>, a: Attempt)
    requires Serialized(attempts + [a])
    ensures Inv(Run(attempts)) && Run(attempts).clock <= a.checkAt <= a.doneAt
  {
    var all := attempts + [a];
    assert forall i :: 0 <= i < |attempts| ==> attempts[i] == all[i];
    assert all[|attempts|] == a;
    RunKeepsInv(attempts);
  }

  // ----- What it promises -----

  /** Between two successful unlocks any sixty seconds hold at most five recorded failures. */
  lemma WindowHoldsAtMostFive(attempts: seq<Attempt>, start: nat, i: nat, j: nat)
    requires Serialized(attempts)
    requires i <= j < |Run(attempts).recorded|
    requires start <= Run(attempts).recorded[i] && Run(attempts).recorded[j] < start + Window()
    ensures j - i + 1 <= 5
  {
    RunKeepsInv(attempts);
  }

  function After(r: RunState, attempts: seq<Attempt>): RunState {
    if attempts == [] then r else Attempted(After(r, attempts[..|attempts| - 1]), attempts[|attempts| - 1])
  }

  /** While the block lasts no attempt reaches `open_store`, whatever is tried, and the bucket
      stays as it is. */
  lemma {:induction false} BlockHolds(r: RunState, until: nat, attempts: seq<Attempt>, k: nat)
    requires r.bucket.blockedUntil == Some(until) && k < |attempts|
    requires forall i :: 0 <= i < |attempts| ==> attempts[i].checkAt < until
    ensures !Reaches(After(r, attempts[..k]), attempts[k])
    ensures After(r, attempts[..k]).bucket == r.bucket
  {
    if k > 0 {
      BlockHolds(r, until, attempts, k - 1);
      assert attempts[..k][..k - 1] == attempts[..k - 1];
    }
  }

  /** The failure at `now` is at least the fifth of the last sixty seconds. */
  predicate FifthInWindow(recorded: seq<nat>, now: nat) {
    |recorded| >= 4 && now < recorded[|recorded| - 4] + Window()
  }

  /** A wrong password starts a block of sixty seconds exactly when it is the fifth failure within
      sixty seconds since the last success; a block that has just run out leaves none to count. */
  lemma FifthFailureBlocks(attempts: seq<Attempt>, a: Attempt)
    requires Serialized(attempts + [a]) && a.outcome == WrongPassword && Reaches(Run(attempts), a)
    ensures var until := Attempted(Run(attempts), a).bucket.blockedUntil;
            until == if FifthInWindow(Run(attempts).recorded, a.doneAt) then Some(a.doneAt + Window()) else None
  {
    NextAttemptFindsInv(attempts, a);
    var r := Run(attempts);
    var b := Check(r.bucket, a.checkAt).0;
    assert EndsWith(r.recorded, []);
    assert BucketFits(b, r.recorded, a.checkAt);
    var kept := Recent(b.failures, a.doneAt);
    KeptIsRecentEnd(r.recorded, b.failures, a.doneAt);
    RecentIsRecent(b.failures, a.doneAt);
    assert |kept| >= 4 ==> kept[|kept| - 4] == r.recorded[|r.recorded| - 4];
  }

  /** A blocked caller is told to wait between one and sixty seconds. */
  lemma RetryIsBetweenOneAndSixty(attempts: seq<Attempt>, a: Attempt)
    requires Serialized(attempts + [a]) && !Reaches(Run(attempts), a)
    ensures 1 <= Check(Run(attempts).bucket, a.checkAt).1.value <= 60
  {
    NextAttemptFindsInv(attempts, a);
  }
}
