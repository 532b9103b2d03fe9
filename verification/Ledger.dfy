/** The flat session log the tracker of src/limits.rs stands for: one entry per admitted slot, in
    admission order, with the caps. */
module Ledger {
  import opened Options

  const U32_LIMIT: nat := 0x1_0000_0000

  type U32 = x: int | 0 <= x < 0x1_0000_0000

  const REAP_INTERVAL_SECS: nat := 60
  const SESSION_TTL_SECS: nat := 300

  datatype Slot = Slot(user: string, at: nat)

  datatype Caps = Caps(maxGlobal: U32, maxPerAccount: Option<U32>)

  /** The admit times of one account, in order. */
  function TimesOf(log: seq<Slot>, user: string): (r: seq<nat>)
    ensures |r| <= |log|
  {
    if log == [] then []
    else if log[0].user == user then [log[0].at] + TimesOf(log[1..], user)
    else TimesOf(log[1..], user)
  }

  predicate AtCapacity(log: seq<Slot>, caps: Caps, user: string) {
    || |log| >= caps.maxGlobal
    || (caps.maxPerAccount.Some? && |TimesOf(log, user)| >= caps.maxPerAccount.value)
  }

  function Admit(log: seq<Slot>, caps: Caps, user: string, now: nat): seq<Slot> {
    if AtCapacity(log, caps, user) then log else log + [Slot(user, now)]
  }

  /** Drops the oldest entry of the account. */
  function Logout(log: seq<Slot>, user: string): (r: seq<Slot>)
    ensures |r| <= |log|
  {
    if log == [] then []
    else if log[0].user == user then log[1..]
    else [log[0]] + Logout(log[1..], user)
  }

  /** `now.duration_since(t) < ttl`, where a later `t` counts as age 0. */
  predicate IsFresh(at: nat, now: nat, ttl: nat) {
    (if at <= now then now - at else 0) < ttl
  }

  function FreshTimes(times: seq<nat>, now: nat, ttl: nat): (r: seq<nat>)
    ensures |r| <= |times|
  {
    if times == [] then []
    else if IsFresh(times[0], now, ttl) then [times[0]] + FreshTimes(times[1..], now, ttl)
    else FreshTimes(times[1..], now, ttl)
  }

  /** Reclaims the stale entries of the given accounts. */
  function ReapUsers(log: seq<Slot>, users: set<string>, now: nat, ttl: nat): (r: seq<Slot>)
    ensures |r| <= |log|
  {
    if log == [] then []
    else if log[0].user in users && !IsFresh(log[0].at, now, ttl) then ReapUsers(log[1..], users, now, ttl)
    else [log[0]] + ReapUsers(log[1..], users, now, ttl)
  }

  function Reap(log: seq<Slot>, now: nat, ttl: nat): (r: seq<Slot>)
    ensures |r| <= |log|
  {
    if log == [] then []
    else if IsFresh(log[0].at, now, ttl) then [log[0]] + Reap(log[1..], now, ttl)
    else Reap(log[1..], now, ttl)
  }

  /** How many slots are stale. */
  function StaleCount(log: seq<Slot>, now: nat, ttl: nat): nat {
    if log == [] then 0
    else (if IsFresh(log[0].at, now, ttl) then 0 else 1) + StaleCount(log[1..], now, ttl)
  }

  lemma {:induction false} ReapTakesTheStale(log: seq<Slot>, now: nat, ttl: nat)
    ensures |Reap(log, now, ttl)| + StaleCount(log, now, ttl) == |log|
  {
    if log != [] {
      ReapTakesTheStale(log[1..], now, ttl);
    }
  }

  lemma {:induction false} TimesOfConcat(a: seq<Slot>, b: seq<Slot>, user: string)
    ensures TimesOf(a + b, user) == TimesOf(a, user) + TimesOf(b, user)
    decreases |a|
  {
    if a == [] {
      assert a + b == b;
    } else {
      assert (a + b)[0] == a[0] && (a + b)[1..] == a[1..] + b;
      TimesOfConcat(a[1..], b, user);
      if a[0].user == user {
        calc {
          TimesOf(a + b, user);
          [a[0].at] + (TimesOf(a[1..], user) + TimesOf(b, user));
          ([a[0].at] + TimesOf(a[1..], user)) + TimesOf(b, user);
        }
      }
    }
  }

  lemma TimesOfAppend(log: seq<Slot>, x: Slot, user: string)
    ensures TimesOf(log + [x], user) == TimesOf(log, user) + (if x.user == user then [x.at] else [])
  {
    TimesOfConcat(log, [x], user);
    assert [x][1..] == [];
    assert TimesOf([x], user) == if x.user == user then [x.at] else [];
  }

  /** The stamps of an account are as many as its slots in the log. */
  lemma {:induction false} SlotsCounted(log: seq<Slot>, user: string)
    ensures |TimesOf(log, user)| == |set i | 0 <= i < |log| && log[i].user == user|
    decreases |log|
  {
    if log != [] {
      var n := |log| - 1;
      var before, x := log[..n], log[n];
      SlotsCounted(before, user);
      TimesOfAppend(before, x, user);
      assert log == before + [x];
      var earlier := set i | 0 <= i < |before| && before[i].user == user;
      var all := set i | 0 <= i < |log| && log[i].user == user;
      assert all == if x.user == user then earlier + {n} else earlier;
    }
  }

  /** A login is refused exactly if admitting it would exceed a cap: the global one, or that of the
      account, counting the slots of that account. */
  lemma RefusedExactly(log: seq<Slot>, caps: Caps, user: string)
    ensures AtCapacity(log, caps, user) <==>
              || |log| + 1 > caps.maxGlobal
              || (caps.maxPerAccount.Some?
                  && |set i | 0 <= i < |log| && log[i].user == user| + 1 > caps.maxPerAccount.value)
  {
    SlotsCounted(log, user);
  }

  /** A logout takes the first slot of the account, here the `k`-th, out of the log, if there is one. */
  lemma {:induction false} LogoutTakesFirst(log: seq<Slot>, user: string, k: nat)
    requires k <= |log| && forall i :: 0 <= i < k ==> log[i].user != user
    requires k < |log| ==> log[k].user == user
    ensures Logout(log, user) == log[..k] + (if k < |log| then log[k + 1..] else [])
    decreases |log|
  {
    if k > 0 {
      LogoutTakesFirst(log[1..], user, k - 1);
      assert log[..k] == [log[0]] + log[1..][..k - 1];
    }
  }

  /** A reap keeps exactly the slots younger than the ttl, each as often as it was there. */
  lemma {:induction false} ReapKeepsTheYoung(log: seq<Slot>, now: nat, ttl: nat, x: Slot)
    requires ttl > 0
    ensures multiset(Reap(log, now, ttl))[x] == if now < x.at + ttl then multiset(log)[x] else 0
    decreases |log|
  {
    if log != [] {
      ReapKeepsTheYoung(log[1..], now, ttl, x);
      assert log == [log[0]] + log[1..];
    }
  }

  lemma {:induction false} TimesOfLogout(log: seq<Slot>, user: string, other: string)
    ensures
      var times, after := TimesOf(log, other), TimesOf(Logout(log, user), other);
      after == if user == other && times != [] then times[1..] else times
    ensures |Logout(log, user)| == |log| - (if TimesOf(log, user) == [] then 0 else 1)
  {
    if log == [] {
    } else if log[0].user == user {
      assert [log[0].at] + TimesOf(log[1..], user) == TimesOf(log, user);
    } else {
      var rest := Logout(log[1..], user);
      TimesOfLogout(log[1..], user, other);
      assert ([log[0]] + rest)[1..] == rest;
    }
  }

  lemma {:induction false} TimesOfReapUsers(log: seq<Slot>, users: set<string>, now: nat, ttl: nat, user: string)
    ensures
      var times := TimesOf(log, user);
      TimesOf(ReapUsers(log, users, now, ttl), user)
      == if user in users then FreshTimes(times, now, ttl) else times
    decreases |log|
  {
    if log != [] {
      var x, rest := log[0], ReapUsers(log[1..], users, now, ttl);
      TimesOfReapUsers(log[1..], users, now, ttl, user);
      assert ([x] + rest)[1..] == rest && ([x] + rest)[0] == x;
      if x.user == user {
        assert TimesOf(log, user)[1..] == TimesOf(log[1..], user);
      }
    }
  }

  /** Reaping one more account removes exactly that account's stale entries. */
  lemma {:induction false} ReapOneMore(log: seq<Slot>, users: set<string>, user: string, now: nat, ttl: nat)
    requires user !in users
    ensures
      |ReapUsers(log, users, now, ttl)| - |ReapUsers(log, users + {user}, now, ttl)|
      == |TimesOf(log, user)| - |FreshTimes(TimesOf(log, user), now, ttl)|
    decreases |log|
  {
    if log != [] {
      ReapOneMore(log[1..], users, user, now, ttl);
      if log[0].user == user {
        assert TimesOf(log, user)[1..] == TimesOf(log[1..], user);
      }
    }
  }

  lemma {:induction false} ReapAllUsers(log: seq<Slot>, users: set<string>, now: nat, ttl: nat)
    requires forall x :: x in log ==> x.user in users
    ensures ReapUsers(log, users, now, ttl) == Reap(log, now, ttl)
  {
    if log != [] {
      ReapAllUsers(log[1..], users, now, ttl);
    }
  }

  lemma {:induction false} ReapNobody(log: seq<Slot>, now: nat, ttl: nat)
    ensures ReapUsers(log, {}, now, ttl) == log
  {
    if log != [] {
      ReapNobody(log[1..], now, ttl);
    }
  }

  lemma {:induction false} UserHasTimes(log: seq<Slot>, user: string)
    ensures TimesOf(log, user) != [] <==> exists x :: x in log && x.user == user
  {
    if log != [] {
      UserHasTimes(log[1..], user);
      assert log[0] in log;
      assert forall x :: x in log[1..] ==> x in log;
      assert forall x :: x in log ==> x == log[0] || x in log[1..];
    }
  }
}
