/**
  * The table of failed admin logins (web/lib/adminSession.ts): a Map of bounded size whose
  * entries expire, lock after three failures and may be evicted. Clock readings are parameters.
  */
module LoginAttempts {
  import opened Maybe
  import opened Lists
  import opened OrderedTable

  const MAX_FAILURES: nat := 3
  const LOCKOUT: nat := 5 * 60 * 1000
  const KEY_LENGTH: nat := 80
  const MAX_ENTRIES: nat := 64

  datatype Attempt = Attempt(failures: nat, lockedUntil: int, updatedAt: int)

  type Attempts = Table<string, Attempt>

  /** The key of a user name that is already trimmed and in lower case; never empty. */
  function AttemptKey(name: string): (key: string)
    ensures key != "" && |key| <= KEY_LENGTH
  {
    var full := if name == "" then "<empty>" else name;
    if |full| <= KEY_LENGTH then full else full[..KEY_LENGTH]
  }

  // -------------------------------------------------------------- table operations

  function ExpiresAt(a: Attempt): int { if a.lockedUntil > 0 then a.lockedUntil else a.updatedAt + LOCKOUT }

  function Live(now: int): Entry<string, Attempt> -> bool { (e: Entry<string, Attempt>) => ExpiresAt(e.value) > now }

  function Pruned(t: Attempts, now: int): Attempts { Filter(Live(now), t) }

  function Locked(a: Attempt, now: int): bool { a.lockedUntil > now }

  function Delete(t: Attempts, key: string): Attempts {
    if |t| == 0 then [] else if t[0].key == key then t[1..] else [t[0]] + Delete(t[1..], key)
  }

  /** The oldest key that is not locked. */
  function FirstUnlocked(t: Attempts, now: int): Option<string> {
    if |t| == 0 then None else if !Locked(t[0].value, now) then Some(t[0].key) else FirstUnlocked(t[1..], now)
  }

  lemma {:induction false} FirstUnlockedFound(t: Attempts, now: int)
    ensures FirstUnlocked(t, now).Some? ==>
      exists e :: e in t && e.key == FirstUnlocked(t, now).value && !Locked(e.value, now)
    ensures FirstUnlocked(t, now).None? <==> forall e :: e in t ==> Locked(e.value, now)
  {
    if |t| > 0 {
      assert t == [t[0]] + t[1..];
      FirstUnlockedFound(t[1..], now);
      if Locked(t[0].value, now) && FirstUnlocked(t, now).Some? {
        var e :| e in t[1..] && e.key == FirstUnlocked(t, now).value && !Locked(e.value, now);
        assert e in t;
      }
    }
  }

  lemma {:induction false} DeleteShortens(t: Attempts, key: string)
    ensures |Delete(t, key)| == if exists e :: e in t && e.key == key then |t| - 1 else |t|
  {
    if |t| > 0 {
      assert t == [t[0]] + t[1..];
      DeleteShortens(t[1..], key);
      assert t[0] in t;
      assert (exists e :: e in t && e.key == key) <==> t[0].key == key || exists e :: e in t[1..] && e.key == key;
    }
  }

  /** Evicts until the table fits; a falsy eviction key, or none, gives up the newest entry. */
  function Enforced(t: Attempts, now: int, newest: string): Attempts
    decreases |t|
  {
    if |t| <= MAX_ENTRIES then t
    else
      var victim := FirstUnlocked(t, now);
      if victim.Some? && victim.value != ""
      then FirstUnlockedFound(t, now); DeleteShortens(t, victim.value); Enforced(Delete(t, victim.value), now, newest)
      else Delete(t, newest)
  }

  function Bumped(t: Attempts, key: string, now: int): Attempt {
    var a := OrElse(Find(t, key), Some(Attempt(0, 0, now))).value;
    var failures := a.failures + 1;
    Attempt(failures, if failures >= MAX_FAILURES then now + LOCKOUT else a.lockedUntil, now)
  }

  function Noted(t: Attempts, key: string, now: int): Attempts {
    var p := Pruned(t, now);
    SetEntry(p, key, Bumped(p, key, now))
  }

  function Failed(t: Attempts, key: string, now: int): Attempts { Enforced(Noted(t, key, now), now, key) }

  predicate Allowed(t: Attempts, key: string, now: int) {
    var a := Find(t, key);
    a.None? || a.value.lockedUntil <= now
  }

  // ------------------------------------------------------------------ the invariant

  predicate WellKept(a: Attempt) {
    a.failures >= 1 && a.lockedUntil == if a.failures >= MAX_FAILURES then a.updatedAt + LOCKOUT else 0
  }

  /** At most 64 entries under distinct keys; an entry is locked from its third failure on. */
  ghost predicate Kept(t: Attempts) {
    && DistinctKeys(t) && |t| <= MAX_ENTRIES
    && (forall e :: e in t ==> e.key != "" && WellKept(e.value))
  }

  lemma {:induction false} PruneFacts(t: Attempts, now: int)
    requires DistinctKeys(t)
    ensures DistinctKeys(Pruned(t, now)) && |Pruned(t, now)| <= |t|
    ensures forall e :: e in Pruned(t, now) <==> e in t && Live(now)(e)
  {
    FilterMembers(Live(now), t);
    if |t| > 0 {
      TailDistinct(t);
      PruneFacts(t[1..], now);
      var rest := Pruned(t[1..], now);
      if Live(now)(t[0]) {
        forall i | 0 <= i < |rest| ensures rest[i].key != t[0].key {
          assert rest[i] in rest;
          var n :| 0 <= n < |t[1..]| && t[1..][n] == rest[i];
          assert t[n + 1] == rest[i];
        }
      }
    }
  }

  lemma {:induction false} DeleteFacts(t: Attempts, key: string)
    requires DistinctKeys(t)
    ensures DistinctKeys(Delete(t, key))
    ensures forall e :: e in Delete(t, key) <==> e in t && e.key != key
  {
    if |t| > 0 {
      TailDistinct(t);
      assert t == [t[0]] + t[1..];
      DeleteFacts(t[1..], key);
      ConsDistinct(t[0], t[1..]);
      if t[0].key != key {
        var rest := Delete(t[1..], key);
        forall i | 0 <= i < |rest| ensures rest[i].key != t[0].key {
          assert rest[i] in rest;
        }
      }
    }
  }

  lemma FindIsMember(t: Attempts, key: string, a: Attempt)
    requires DistinctKeys(t)
    ensures Entry(key, a) in t <==> Find(t, key) == Some(a)
  {}

  lemma {:induction false} SetEntryLength(t: Attempts, key: string, a: Attempt)
    ensures |SetEntry(t, key, a)| == if Find(t, key).Some? then |t| else |t| + 1
  {
    if |t| > 0 && t[0].key != key { SetEntryLength(t[1..], key, a); }
  }

  /** Noting a failure: everything the limit still has to deal with. */
  lemma NotedFacts(t: Attempts, key: string, now: int)
    requires Kept(t) && key != ""
    ensures var n, p := Noted(t, key, now), Pruned(t, now);
      && DistinctKeys(n)
      && (forall e :: e in n ==> e.key != "" && WellKept(e.value))
      && |n| == (if Find(p, key).Some? then |p| else |p| + 1) && |p| <= MAX_ENTRIES
      && (forall o :: Find(n, o) == if o == key then Some(Bumped(p, key, now)) else Find(p, o))
  {
    var p := Pruned(t, now);
    PruneFacts(t, now);
    FindMember(p, key);
    var a := Bumped(p, key, now);
    if Find(p, key).Some? { assert Entry(key, Find(p, key).value) in t; }
    assert WellKept(a);
    SetEntryMembers(p, key, a);
    SetEntryLength(p, key, a);
    forall o ensures Find(SetEntry(p, key, a), o) == if o == key then Some(a) else Find(p, o) { FindSetEntry(p, key, a, o); }
  }

  /** One eviction is enough, and it takes the oldest unlocked entry. */
  lemma EnforcedOnce(t: Attempts, now: int, newest: string)
    requires |t| <= MAX_ENTRIES + 1 && forall e :: e in t ==> e.key != ""
    requires exists e :: e in t && e.key == newest
    ensures var victim := FirstUnlocked(t, now);
      Enforced(t, now, newest) ==
        if |t| <= MAX_ENTRIES then t else if victim.Some? then Delete(t, victim.value) else Delete(t, newest)
    ensures |Enforced(t, now, newest)| == if |t| <= MAX_ENTRIES then |t| else MAX_ENTRIES
  {
    FirstUnlockedFound(t, now);
    DeleteShortens(t, newest);
    if FirstUnlocked(t, now).Some? { DeleteShortens(t, FirstUnlocked(t, now).value); }
  }

  /** Only a new key can overflow the table, and its entry is then itself not locked, unless the clock is negative. */
  lemma AllLockedIff(t: Attempts, key: string, now: int)
    requires Kept(t) && key != "" && |Noted(t, key, now)| > MAX_ENTRIES
    ensures FirstUnlocked(Noted(t, key, now), now).None? <==>
      now < 0 && forall e :: e in Pruned(t, now) ==> Locked(e.value, now)
  {
    var n, p := Noted(t, key, now), Pruned(t, now);
    NotedFacts(t, key, now);
    PruneFacts(t, now);
    FirstUnlockedFound(n, now);
    FindMember(p, key);
    SetEntryMembers(p, key, Bumped(p, key, now));
    FindIsMember(n, key, Bumped(p, key, now));
    forall e | e in p ensures e in n {
      FindIsMember(p, e.key, e.value);
      FindIsMember(n, e.key, e.value);
    }
  }

  /** On a clock that has not gone below zero, the branch that gives up the newest entry is never taken. */
  lemma AllLockedBranchUnreachable(t: Attempts, key: string, now: int)
    requires Kept(t) && key != "" && now >= 0
    ensures |Noted(t, key, now)| > MAX_ENTRIES ==>
      FirstUnlocked(Noted(t, key, now), now).Some? && FirstUnlocked(Noted(t, key, now), now).value != ""
  {
    if |Noted(t, key, now)| > MAX_ENTRIES {
      AllLockedIff(t, key, now);
      NotedFacts(t, key, now);
      FirstUnlockedFound(Noted(t, key, now), now);
    }
  }

  lemma NewestPresent(t: Attempts, key: string, now: int)
    requires Kept(t) && key != ""
    ensures exists e :: e in Noted(t, key, now) && e.key == key
  {
    NotedFacts(t, key, now);
    FindIsMember(Noted(t, key, now), key, Bumped(Pruned(t, now), key, now));
    assert Entry(key, Bumped(Pruned(t, now), key, now)) in Noted(t, key, now);
  }

  /** The table never holds more than 64 entries after a failure, on any clock. */
  lemma FailedKeeps(t: Attempts, key: string, now: int)
    requires Kept(t) && key != ""
    ensures Kept(Failed(t, key, now))
  {
    var n := Noted(t, key, now);
    NotedFacts(t, key, now);
    NewestPresent(t, key, now);
    EnforcedOnce(n, now, key);
    DeleteFacts(n, key);
    if FirstUnlocked(n, now).Some? { DeleteFacts(n, FirstUnlocked(n, now).value); }
  }

  /**
    * A failure stays on record unless the table is full, the key is new to it and every other
    * live entry is locked.
    */
  lemma FailureRecordedIff(t: Attempts, key: string, now: int)
    requires Kept(t) && key != ""
    ensures var p := Pruned(t, now);
      Find(Failed(t, key, now), key).Some? <==>
      !(Find(p, key).None? && |p| == MAX_ENTRIES && forall e :: e in p ==> Locked(e.value, now))
  {
    var n, p := Noted(t, key, now), Pruned(t, now);
    NotedFacts(t, key, now);
    NewestPresent(t, key, now);
    EnforcedOnce(n, now, key);
    if |n| > MAX_ENTRIES {
      FullTableVictim(t, key, now);
      FindAfterDelete(n, key, key);
      if FirstUnlocked(n, now).Some? { FindAfterDelete(n, FirstUnlocked(n, now).value, key); }
    }
  }

  lemma FindAfterDelete(t: Attempts, gone: string, key: string)
    requires DistinctKeys(t)
    ensures Find(Delete(t, gone), key) == if key == gone then None else Find(t, key)
  {
    DeleteFacts(t, gone);
    FindMember(Delete(t, gone), key);
    FindMember(t, key);
    if key != gone && Find(t, key).Some? { assert Entry(key, Find(t, key).value) in Delete(t, gone); }
  }

  lemma {:induction false} SetNewAppends(t: Attempts, key: string, a: Attempt)
    requires Find(t, key).None?
    ensures SetEntry(t, key, a) == t + [Entry(key, a)]
  {
    if |t| > 0 { SetNewAppends(t[1..], key, a); }
  }

  lemma {:induction false} FirstUnlockedAppend(t: Attempts, e: Entry<string, Attempt>, now: int)
    ensures FirstUnlocked(t + [e], now) ==
      if FirstUnlocked(t, now).Some? then FirstUnlocked(t, now) else if Locked(e.value, now) then None else Some(e.key)
  {
    if |t| > 0 {
      assert (t + [e])[1..] == t[1..] + [e];
      FirstUnlockedAppend(t[1..], e, now);
    } else {
      assert (t + [e])[1..] == [];
    }
  }

  /** In a full table the new key is the victim, or given up, exactly when all the others are locked. */
  lemma FullTableVictim(t: Attempts, key: string, now: int)
    requires Kept(t) && key != "" && |Noted(t, key, now)| > MAX_ENTRIES
    ensures var p, n := Pruned(t, now), Noted(t, key, now);
      && Find(p, key).None? && |p| == MAX_ENTRIES
      && ((FirstUnlocked(n, now) == None || FirstUnlocked(n, now) == Some(key)) <==> forall e :: e in p ==> Locked(e.value, now))
  {
    var p := Pruned(t, now);
    NotedFacts(t, key, now);
    SetNewAppends(p, key, Bumped(p, key, now));
    FirstUnlockedAppend(p, Entry(key, Bumped(p, key, now)), now);
    FirstUnlockedFound(p, now);
    FindMember(p, key);
    forall e | e in p ensures e.key != key { FindNotMember(p, e); }
  }

  lemma {:induction false} FindNotMember(t: Attempts, e: Entry<string, Attempt>)
    requires e in t
    ensures Find(t, e.key).Some?
  {
    if t[0].key != e.key {
      assert e in t[1..];
      FindNotMember(t[1..], e);
    }
  }

  // --------------------------------------------------------------------- the lockout

  datatype Event = Failure(key: string, now: int) | Success(key: string)

  function Apply(t: Attempts, e: Event): Attempts {
    match e
    case Failure(key, now) => Failed(t, key, now)
    case Success(key) => Delete(t, key)
  }

  function Run(t: Attempts, events: seq<Event>): Attempts
    decreases |events|
  {
    if |events| == 0 then t else Run(Apply(t, events[0]), events[1..])
  }

  /** Clock readings from `start` on never go back, and keys are not empty. */
  ghost predicate Clocked(events: seq<Event>, start: int) {
    |events| == 0
    || (events[0].key != "" && match events[0]
        case Failure(_, now) => start <= now && Clocked(events[1..], now)
        case Success(_) => Clocked(events[1..], start))
  }

  lemma SuccessKeeps(t: Attempts, key: string)
    requires Kept(t)
    ensures Kept(Delete(t, key))
  {
    DeleteFacts(t, key);
    DeleteShortens(t, key);
  }

  /** The bound holds after every run, whatever the clock does. */
  lemma {:induction false} RunKeepsBound(t: Attempts, events: seq<Event>)
    requires Kept(t) && forall i :: 0 <= i < |events| ==> events[i].key != ""
    ensures Kept(Run(t, events))
    decreases |events|
  {
    if |events| > 0 {
      match events[0] {
        case Failure(key, now) => FailedKeeps(t, key, now);
        case Success(key) => SuccessKeeps(t, key);
      }
      RunKeepsBound(Apply(t, events[0]), events[1..]);
    }
  }

  /** A failure of any key leaves an active lockout in place, its deadline not earlier. */
  lemma LockSurvivesFailure(t: Attempts, key: string, deadline: int, failing: string, now: int)
    requires Kept(t) && failing != "" && 0 <= now < deadline <= now + LOCKOUT
    requires Find(t, key).Some? && Find(t, key).value.lockedUntil >= deadline
    ensures var a := Find(Failed(t, failing, now), key); a.Some? && a.value.lockedUntil >= deadline
  {
    var n, p := Noted(t, failing, now), Pruned(t, now);
    var a := Find(t, key).value;
    NotedFacts(t, failing, now);
    NewestPresent(t, failing, now);
    EnforcedOnce(n, now, failing);
    PruneFacts(t, now);
    FindIsMember(t, key, a);
    FindIsMember(p, key, a);
    assert WellKept(a);
    var b := Find(n, key).value;
    if |n| > MAX_ENTRIES {
      AllLockedBranchUnreachable(t, failing, now);
      var victim := FirstUnlocked(n, now).value;
      FirstUnlockedFound(n, now);
      var e :| e in n && e.key == victim && !Locked(e.value, now);
      FindIsMember(n, e.key, e.value);
      FindAfterDelete(n, victim, key);
    }
  }

  ghost predicate NoSuccess(events: seq<Event>, key: string) {
    forall i :: 0 <= i < |events| ==> events[i] != Success(key)
  }

  /** All clock readings of the events come before `end`. */
  ghost predicate Before(events: seq<Event>, end: int) {
    forall i :: 0 <= i < |events| && events[i].Failure? ==> events[i].now < end
  }

  /**
    * Once locked until a deadline, a key is refused at every time before it, whatever failures
    * of any keys are recorded in between, unless its own success clears it.
    */
  lemma {:induction false} LockedUntilDeadline(t: Attempts, events: seq<Event>, start: int, key: string, deadline: int, now: int)
    requires Kept(t) && Clocked(events, start) && 0 <= start && deadline <= start + LOCKOUT
    requires Find(t, key).Some? && Find(t, key).value.lockedUntil >= deadline
    requires NoSuccess(events, key) && Before(events, deadline) && now < deadline
    ensures !Allowed(Run(t, events), key, now)
    decreases |events|
  {
    if |events| > 0 {
      var rest := events[1..];
      assert forall i :: 0 <= i < |rest| ==> rest[i] == events[i + 1];
      match events[0] {
        case Failure(failing, at) =>
          LockSurvivesFailure(t, key, deadline, failing, at);
          FailedKeeps(t, failing, at);
          LockedUntilDeadline(Failed(t, failing, at), rest, at, key, deadline, now);
        case Success(other) =>
          assert events[0] != Success(key);
          SuccessKeeps(t, other);
          FindAfterDelete(t, other, key);
          LockedUntilDeadline(Delete(t, other), rest, start, key, deadline, now);
      }
    }
  }

  /** The third failure on record locks for the full time, and before it nothing is locked. */
  lemma LockedFromThirdFailureIff(t: Attempts, key: string, now: int)
    requires Kept(t) && key != "" && now >= 0 && Find(Failed(t, key, now), key).Some?
    ensures var before := Find(Pruned(t, now), key);
      var a := Find(Failed(t, key, now), key).value;
      && a.updatedAt == now && a.failures == (if before.Some? then before.value.failures + 1 else 1)
      && (a.lockedUntil == now + LOCKOUT <==> a.failures >= MAX_FAILURES)
      && (!Allowed(Failed(t, key, now), key, now) <==> a.failures >= MAX_FAILURES)
  {
    var n := Noted(t, key, now);
    NotedFacts(t, key, now);
    NewestPresent(t, key, now);
    EnforcedOnce(n, now, key);
    FindIsMember(n, key, Bumped(Pruned(t, now), key, now));
    if |n| > MAX_ENTRIES {
      FindAfterDelete(n, key, key);
      if FirstUnlocked(n, now).Some? { FindAfterDelete(n, FirstUnlocked(n, now).value, key); }
    }
  }

  // ------------------------------------------------- a failure that leaves no trace

  /** Names of one letter, told apart by their length. */
  function Name(n: nat): string { seq(n + 1, i => 'a') }

  function LockedEntry(n: nat): Entry<string, Attempt> { Entry(Name(n), Attempt(MAX_FAILURES, LOCKOUT, 0)) }

  function LockedEntries(n: nat): Attempts { seq(n, i requires 0 <= i < n => LockedEntry(i)) }

  function ThreeFailures(key: string): seq<Event> { [Failure(key, 0), Failure(key, 0), Failure(key, 0)] }

  function LockingRun(n: nat): seq<Event> { if n == 0 then [] else LockingRun(n - 1) + ThreeFailures(Name(n - 1)) }

  lemma {:induction false} RunAppend(t: Attempts, a: seq<Event>, b: seq<Event>)
    ensures Run(t, a + b) == Run(Run(t, a), b)
    decreases |a|
  {
    if |a| == 0 {
      assert a + b == b;
    } else {
      assert (a + b)[1..] == a[1..] + b;
      RunAppend(Apply(t, a[0]), a[1..], b);
    }
  }

  lemma {:induction false} NothingPruned(t: Attempts, now: int)
    requires forall i :: 0 <= i < |t| ==> ExpiresAt(t[i].value) > now
    ensures Pruned(t, now) == t
  {
    if |t| > 0 { NothingPruned(t[1..], now); }
  }

  lemma {:induction false} FindAtEnd(t: Attempts, e: Entry<string, Attempt>, a: Attempt)
    requires forall i :: 0 <= i < |t| ==> t[i].key != e.key
    ensures Find(t, e.key).None? && Find(t + [e], e.key) == Some(e.value)
    ensures SetEntry(t, e.key, a) == t + [Entry(e.key, a)] && SetEntry(t + [e], e.key, a) == t + [Entry(e.key, a)]
  {
    if |t| == 0 {
      assert (t + [e])[1..] == [];
    } else {
      assert (t + [e])[1..] == t[1..] + [e];
      FindAtEnd(t[1..], e, a);
    }
  }

  lemma RunThree(t: Attempts, e: Event)
    ensures Run(t, [e, e, e]) == Apply(Apply(Apply(t, e), e), e)
  {
    RunOne(t, e);
    RunAppend(t, [e], [e]);
    RunAppend(t, [e] + [e], [e]);
    RunOne(Apply(t, e), e);
    RunOne(Apply(Apply(t, e), e), e);
    assert [e] + [e] + [e] == [e, e, e];
  }

  lemma RunOne(t: Attempts, e: Event)
    ensures Run(t, [e]) == Apply(t, e)
  {
    assert [e][1..] == [];
    assert Run(Apply(t, e), []) == Apply(t, e);
  }

  lemma FailureOfNewName(t: Attempts, key: string)
    requires |t| < MAX_ENTRIES && forall i :: 0 <= i < |t| ==> t[i].key != key && ExpiresAt(t[i].value) > 0
    ensures Failed(t, key, 0) == t + [Entry(key, Attempt(1, 0, 0))]
  {
    NothingPruned(t, 0);
    FindAtEnd(t, Entry(key, Attempt(1, 0, 0)), Attempt(1, 0, 0));
  }

  lemma FailureOfLastName(t: Attempts, key: string, failures: nat, next: Attempt)
    requires |t| < MAX_ENTRIES && forall i :: 0 <= i < |t| ==> t[i].key != key && ExpiresAt(t[i].value) > 0
    requires failures < MAX_FAILURES && next == Attempt(failures + 1, if failures + 1 >= MAX_FAILURES then LOCKOUT else 0, 0)
    ensures Failed(t + [Entry(key, Attempt(failures, 0, 0))], key, 0) == t + [Entry(key, next)]
  {
    var e := Entry(key, Attempt(failures, 0, 0));
    NothingPruned(t + [e], 0);
    FindAtEnd(t, e, next);
  }

  lemma ThreeFailuresLock(n: nat)
    requires n < MAX_ENTRIES
    ensures Run(LockedEntries(n), ThreeFailures(Name(n))) == LockedEntries(n + 1)
  {
    var t, key := LockedEntries(n), Name(n);
    assert forall i :: 0 <= i < |t| ==> |t[i].key| != |key|;
    FailureOfNewName(t, key);
    FailureOfLastName(t, key, 1, Attempt(2, 0, 0));
    FailureOfLastName(t, key, 2, Attempt(3, LOCKOUT, 0));
    RunThree(t, Failure(key, 0));
    assert LockedEntries(n + 1) == t + [LockedEntry(n)];
  }

  lemma {:induction false} LockingRunLocks(n: nat)
    requires n <= MAX_ENTRIES
    ensures Run([], LockingRun(n)) == LockedEntries(n) && AtZero(LockingRun(n))
  {
    if n > 0 {
      LockingRunLocks(n - 1);
      RunAppend([], LockingRun(n - 1), ThreeFailures(Name(n - 1)));
      ThreeFailuresLock(n - 1);
    }
  }

  ghost predicate AtZero(events: seq<Event>) {
    forall i :: 0 <= i < |events| ==> events[i].Failure? && events[i].now == 0 && events[i].key != ""
  }

  lemma {:induction false} AtZeroIsClocked(events: seq<Event>)
    requires AtZero(events)
    ensures Clocked(events, 0)
    decreases |events|
  {
    if |events| > 0 { AtZeroIsClocked(events[1..]); }
  }

  lemma {:induction false} DeleteAtEnd(t: Attempts, e: Entry<string, Attempt>)
    requires forall i :: 0 <= i < |t| ==> t[i].key != e.key
    ensures Delete(t + [e], e.key) == t
  {
    if |t| > 0 {
      assert (t + [e])[1..] == t[1..] + [e];
      DeleteAtEnd(t[1..], e);
    }
  }

  lemma NewNameLeavesNoTrace(t: Attempts, key: string)
    requires t == LockedEntries(MAX_ENTRIES) && key == Name(MAX_ENTRIES)
    ensures Failed(t, key, 0) == t && Find(t, key).None?
  {
    var e := Entry(key, Attempt(1, 0, 0));
    assert forall i :: 0 <= i < |t| ==> |t[i].key| != |key|;
    NothingPruned(t, 0);
    FindAtEnd(t, e, e.value);
    FirstUnlockedAppend(t, e, 0);
    FirstUnlockedFound(t, 0);
    assert FirstUnlocked(t, 0).None? by { assert forall x :: x in t ==> Locked(x.value, 0); }
    DeleteAtEnd(t, e);
    assert Noted(t, key, 0) == t + [e];
    assert FirstUnlocked(t + [e], 0) == Some(key);
    assert Enforced(t + [e], 0, key) == Enforced(t, 0, key);
  }

  /** A run from the empty table that locks 64 names, after which a failure of a new one changes nothing. */
  lemma FailureCanLeaveNoTrace() returns (events: seq<Event>, key: string)
    ensures Clocked(events + [Failure(key, 0)], 0)
    ensures Run([], events + [Failure(key, 0)]) == Run([], events) && Find(Run([], events), key).None?
  {
    events, key := FullRun(MAX_ENTRIES);
    RunAppend([], events, [Failure(key, 0)]);
    NewNameLeavesNoTrace(Run([], events), key);
    RunOne(Run([], events), Failure(key, 0));
    AtZeroIsClocked(events + [Failure(key, 0)]);
  }

  lemma FullRun(n: nat) returns (events: seq<Event>, key: string)
    requires n <= MAX_ENTRIES
    ensures Run([], events) == LockedEntries(n) && AtZero(events) && key == Name(n)
  {
    events, key := LockingRun(n), Name(n);
    LockingRunLocks(n);
  }

  // ----------------------------------------------------------------------- the table

  class LoginAttemptTable {
    var attempts: Attempts

    constructor ()
      ensures attempts == []
    {
      attempts := [];
    }

    method AttemptAllowed(name: string, now: int) returns (allowed: bool)
      ensures allowed == Allowed(attempts, AttemptKey(name), now)
    {
      var attempt := Find(attempts, AttemptKey(name));
      allowed := attempt.None? || attempt.value.lockedUntil <= now;
    }

    method Prune(now: int)
      modifies this
      ensures attempts == Pruned(old(attempts), now)
    {
      ghost var all := attempts;
      ghost var seen := 0;
      var i := 0;
      while i < |attempts|
        invariant 0 <= i <= |attempts| && 0 <= seen <= |all|
        invariant attempts[..i] == Pruned(all[..seen], now) && attempts[i..] == all[seen..]
        decreases |attempts| - i
      {
        var entry := attempts[i];
        assert entry == attempts[i..][0] == all[seen];
        assert all[..seen + 1] == all[..seen] + [all[seen]];
        FilterAppend(Live(now), all[..seen], [all[seen]]);
        if ExpiresAt(entry.value) <= now {
          attempts := attempts[..i] + attempts[i + 1..];
        } else {
          assert attempts[..i + 1] == attempts[..i] + [entry];
          i := i + 1;
        }
        seen := seen + 1;
      }
      assert all[..seen] == all;
    }

    method EnforceLimit(now: int, newest: string)
      modifies this
      ensures attempts == Enforced(old(attempts), now, newest)
    {
      while |attempts| > MAX_ENTRIES
        invariant Enforced(attempts, now, newest) == Enforced(old(attempts), now, newest)
        decreases |attempts|
      {
        var victim: Option<string> := None;
        var i := 0;
        while i < |attempts| && victim.None?
          invariant 0 <= i <= |attempts|
          invariant victim.None? ==> FirstUnlocked(attempts, now) == FirstUnlocked(attempts[i..], now)
          invariant victim.Some? ==> FirstUnlocked(attempts, now) == victim
        {
          if !Locked(attempts[i].value, now) {
            victim := Some(attempts[i].key);
          }
          i := i + 1;
        }
        FirstUnlockedFound(attempts, now);
        if victim.Some? && victim.value != "" {
          DeleteShortens(attempts, victim.value);
          attempts := Delete(attempts, victim.value);
        } else {
          attempts := Delete(attempts, newest);
          return;
        }
      }
    }

    method RecordFailure(name: string, now: int)
      modifies this
      ensures attempts == Failed(old(attempts), AttemptKey(name), now)
    {
      var key := AttemptKey(name);
      Prune(now);
      var attempt := OrElse(Find(attempts, key), Some(Attempt(0, 0, now))).value;
      var failures := attempt.failures + 1;
      var lockedUntil := if failures >= MAX_FAILURES then now + LOCKOUT else attempt.lockedUntil;
      attempts := SetEntry(attempts, key, Attempt(failures, lockedUntil, now));
      EnforceLimit(now, key);
    }

    /**
      * A success is the step of the runs above: it ends a lockout at once, and leaves every
      * other name's record as it was, in its place.
      */
    method RecordSuccess(name: string)
      modifies this
      ensures attempts == Apply(old(attempts), Success(AttemptKey(name)))
      ensures Kept(old(attempts)) ==>
        && attempts == Filter(OfOthers(AttemptKey(name)), old(attempts))
        && Kept(attempts) && forall now :: Allowed(attempts, AttemptKey(name), now)
    {
      var gone := AttemptKey(name);
      if Kept(attempts) {
        SuccessKeeps(attempts, gone);
        FindAfterDelete(attempts, gone, gone);
        DeleteIsFilter(attempts, gone);
      }
      attempts := Delete(attempts, gone);
    }
  }

  function OfOthers(key: string): Entry<string, Attempt> -> bool { (e: Entry<string, Attempt>) => e.key != key }

  lemma {:induction false} DeleteIsFilter(t: Attempts, key: string)
    requires DistinctKeys(t)
    ensures Delete(t, key) == Filter(OfOthers(key), t)
  {
    if |t| > 0 {
      TailDistinct(t);
      DeleteIsFilter(t[1..], key);
      if t[0].key == key { AllOthers(t[1..], key); }
    }
  }

  lemma {:induction false} AllOthers(t: Attempts, key: string)
    requires key !in KeySet(t)
    ensures Filter(OfOthers(key), t) == t
  {
    if |t| > 0 {
      assert t == [t[0]] + t[1..];
      KeySetCons(t[0], t[1..]);
      AllOthers(t[1..], key);
    }
  }
}
