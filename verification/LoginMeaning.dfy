/**
  * What one failed login does to the table (web/lib/adminSession.ts), told entry by entry:
  * who is forgotten, who is evicted and what is recorded.
  */
module LoginMeaning {
  import opened Maybe
  import opened Lists
  import opened OrderedTable
  import opened LoginAttempts

  /** A lockout is kept to its end, any other record for five minutes. */
  function NotExpired(now: int): Entry<string, Attempt> -> bool {
    (e: Entry<string, Attempt>) =>
      if e.value.lockedUntil > 0 then now < e.value.lockedUntil else now < e.value.updatedAt + 300_000
  }

  function NameOf(): Entry<string, Attempt> -> string { (e: Entry<string, Attempt>) => e.key }

  function Except(name: string): string -> bool { (other: string) => other != name }

  function Names(t: Attempts): seq<string> { Map(NameOf(), t) }

  /** The live entries of a table, in its order. */
  function OnRecord(t: Attempts, now: int): Attempts { Filter(NotExpired(now), t) }

  /** The live names, and the failing one last if it is new. */
  function NamesAfter(t: Attempts, key: string, now: int): seq<string> {
    var names := Names(OnRecord(t, now));
    if key in names then names else names + [key]
  }

  /** The first name without an active lockout; the failing one if there is none. */
  ghost predicate Victim(t: Attempts, key: string, now: int, v: string) {
    var live := OnRecord(t, now);
    if exists i :: FirstFree(live, now, i) then exists i :: FirstFree(live, now, i) && v == live[i].key else v == key
  }

  ghost predicate FirstFree(live: Attempts, now: int, i: int) {
    0 <= i < |live| && live[i].value.lockedUntil <= now && forall j :: 0 <= j < i ==> now < live[j].value.lockedUntil
  }

  /** One failure more than is on record; from the third on locked for five minutes. */
  ghost predicate Counted(t: Attempts, key: string, now: int, a: Attempt) {
    && a.updatedAt == now
    && a.lockedUntil == (if a.failures >= 3 then now + 300_000 else 0)
    && (if exists e :: e in OnRecord(t, now) && e.key == key
        then exists e :: e in OnRecord(t, now) && e.key == key && a.failures == e.value.failures + 1
        else a.failures == 1)
  }

  lemma LiveIsOnRecord(t: Attempts, now: int)
    ensures Pruned(t, now) == OnRecord(t, now)
  {
    SameFilter(Live(now), NotExpired(now), t);
  }

  lemma {:induction false} SameFilter(a: Entry<string, Attempt> -> bool, b: Entry<string, Attempt> -> bool, t: Attempts)
    requires forall e :: a(e) == b(e)
    ensures Filter(a, t) == Filter(b, t)
  {
    if |t| > 0 { SameFilter(a, b, t[1..]); }
  }

  lemma {:induction false} SetNames(t: Attempts, key: string, a: Attempt)
    ensures Names(SetEntry(t, key, a)) == if key in Names(t) then Names(t) else Names(t) + [key]
    ensures Find(t, key).Some? <==> key in Names(t)
  {
    if |t| > 0 {
      NamesCons(t[0], t[1..]);
      assert t == [t[0]] + t[1..];
      if t[0].key == key {
        NamesCons(Entry(key, a), t[1..]);
      } else {
        SetNames(t[1..], key, a);
        NamesCons(t[0], SetEntry(t[1..], key, a));
      }
    }
  }

  lemma NamesCons(e: Entry<string, Attempt>, t: Attempts)
    ensures Names([e] + t) == [e.key] + Names(t)
  {}

  lemma {:induction false} DeleteNames(t: Attempts, v: string)
    requires DistinctKeys(t)
    ensures Names(Delete(t, v)) == Filter(Except(v), Names(t))
  {
    if |t| > 0 {
      TailDistinct(t);
      NamesCons(t[0], t[1..]);
      assert t == [t[0]] + t[1..];
      DeleteNames(t[1..], v);
      if t[0].key == v {
        AllOtherNames(t[1..], v);
      } else {
        NamesCons(t[0], Delete(t[1..], v));
      }
    }
  }

  lemma {:induction false} AllOtherNames(t: Attempts, v: string)
    requires forall i :: 0 <= i < |t| ==> t[i].key != v
    ensures Filter(Except(v), Names(t)) == Names(t)
  {
    if |t| > 0 {
      NamesCons(t[0], t[1..]);
      assert t == [t[0]] + t[1..];
      AllOtherNames(t[1..], v);
    }
  }

  lemma {:induction false} FreeIsUnlocked(t: Attempts, now: int)
    ensures match FirstUnlocked(t, now)
      case None => forall i :: !FirstFree(t, now, i)
      case Some(v) => exists i :: FirstFree(t, now, i) && v == t[i].key
  {
    if |t| > 0 {
      FreeIsUnlocked(t[1..], now);
      var rest := t[1..];
      if !Locked(t[0].value, now) {
        assert FirstFree(t, now, 0);
      } else {
        forall i | FirstFree(t, now, i) ensures FirstFree(rest, now, i - 1) { assert rest[i - 1] == t[i]; }
        forall i | FirstFree(rest, now, i) ensures FirstFree(t, now, i + 1) { assert rest[i] == t[i + 1]; }
      }
    }
  }

  /** The failing name is new to an overfull table, and the victim is chosen among the old names. */
  lemma VictimIsUnlocked(t: Attempts, key: string, now: int)
    requires Kept(t) && key != "" && |Noted(t, key, now)| > MAX_ENTRIES
    ensures var u := FirstUnlocked(Noted(t, key, now), now); Victim(t, key, now, if u.Some? then u.value else key)
  {
    var p := Pruned(t, now);
    LiveIsOnRecord(t, now);
    NotedFacts(t, key, now);
    SetNewAppends(p, key, Bumped(p, key, now));
    FirstUnlockedAppend(p, Entry(key, Bumped(p, key, now)), now);
    FreeIsUnlocked(p, now);
  }

  /**
    * A failure forgets the expired entries, counts itself under its name, in its place or last,
    * and, if that makes more than 64 names, evicts the first that is not locked.
    */
  lemma FailureMeaning(t: Attempts, key: string, now: int, r: Attempts)
    requires Kept(t) && key != "" && r == Failed(t, key, now)
    ensures var names := NamesAfter(t, key, now);
      if |names| <= 64 then Names(r) == names
      else exists v :: Victim(t, key, now, v) && Names(r) == Filter(Except(v), names)
    ensures forall e :: e in r ==> if e.key == key then Counted(t, key, now, e.value) else e in OnRecord(t, now)
  {
    var p, n := Pruned(t, now), Noted(t, key, now);
    LiveIsOnRecord(t, now);
    NotedFacts(t, key, now);
    NewestPresent(t, key, now);
    EnforcedOnce(n, now, key);
    SetNames(p, key, Bumped(p, key, now));
    assert |n| == |Names(n)|;
    if |n| > MAX_ENTRIES {
      VictimIsUnlocked(t, key, now);
      var u := FirstUnlocked(n, now);
      var v := if u.Some? then u.value else key;
      DeleteNames(n, v);
      DeleteFacts(n, v);
      assert Victim(t, key, now, v);
    }
    forall e | e in r ensures if e.key == key then Counted(t, key, now, e.value) else e in OnRecord(t, now) {
      EntryMeaning(t, key, now, e);
    }
  }

  lemma EntryMeaning(t: Attempts, key: string, now: int, e: Entry<string, Attempt>)
    requires Kept(t) && key != "" && e in Noted(t, key, now)
    ensures if e.key == key then Counted(t, key, now, e.value) else e in OnRecord(t, now)
  {
    var p, n := Pruned(t, now), Noted(t, key, now);
    LiveIsOnRecord(t, now);
    NotedFacts(t, key, now);
    PruneFacts(t, now);
    FindIsMember(n, e.key, e.value);
    FindMember(p, e.key);
    FindMember(p, key);
    forall x | x in p && x.key == key ensures Find(p, key) == Some(x.value) { FindIsMember(p, key, x.value); }
    if e.key == key && Find(p, key).Some? {
      var before := Entry(key, Find(p, key).value);
      assert before in t && WellKept(before.value);
    }
  }

  /** Names are told apart by their first 80 characters; the empty one has a key of its own. */
  lemma SameKeyIff(a: string, b: string)
    requires a != "" && b != ""
    ensures AttemptKey(a) == AttemptKey(b) <==>
      a == b || (|a| >= 80 && |b| >= 80 && forall i :: 0 <= i < 80 ==> a[i] == b[i])
    ensures AttemptKey("") == "<empty>"
  {
    if |a| >= 80 && |b| >= 80 {
      assert (forall i :: 0 <= i < 80 ==> a[i] == b[i]) <==> a[..80] == b[..80];
    }
  }
}
