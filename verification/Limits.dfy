/** The session tracker (src/limits.rs): a map of timestamp vectors and a cached counter, with
    saturating arithmetic and truncating casts, proved to be the flat log of module Ledger. */
module Limits {
  import opened Options
  import opened Ledger

  function SaturatingAdd(a: U32, b: U32): U32 {
    if a + b < U32_LIMIT then a + b else U32_LIMIT - 1
  }

  function SaturatingSub(a: U32, b: U32): U32 {
    if b <= a then a - b else 0
  }

  /** `as u32` of a length. */
  function AsU32(n: nat): U32 {
    n % U32_LIMIT
  }

  lemma CastIsExact(n: nat)
    requires n < U32_LIMIT
    ensures AsU32(n) == n
  {
  }

  /** The map holds exactly the admit times of the log, account by account, and no empty vector. */
  ghost predicate Mirrors(per: map<string, seq<nat>>, log: seq<Slot>) {
    forall user :: (user in per <==> TimesOf(log, user) != []) && (user in per ==> per[user] == TimesOf(log, user))
  }

  class SessionTracker {
    var perAccount: map<string, seq<nat>>
    var total: U32
    var maxGlobal: U32
    var maxPerAccount: Option<U32>
    ghost var log: seq<Slot>

    ghost predicate Valid()
      reads this
    {
      total == |log| && Mirrors(perAccount, log)
    }

    function Limits(): Caps
      reads this
    {
      Caps(maxGlobal, maxPerAccount)
    }

    constructor (maxGlobal: U32, maxPerAccount: Option<U32>)
      ensures Valid() && log == [] && Limits() == Caps(maxGlobal, maxPerAccount)
    {
      perAccount, total := map[], 0;
      this.maxGlobal, this.maxPerAccount := maxGlobal, maxPerAccount;
      log := [];
    }

    /** The live count of an account, as the code reads it. */
    function Count(user: string): U32
      reads this
    {
      AsU32(if user in perAccount then |perAccount[user]| else 0)
    }

    lemma CountIsExact(user: string)
      requires Valid()
      ensures Count(user) == |TimesOf(log, user)|
    {
    }

    method IsAtCapacity(user: string) returns (r: bool)
      requires Valid()
      ensures r == AtCapacity(log, Limits(), user)
    {
      CountIsExact(user);
      if total >= maxGlobal {
        return true;
      }
      match maxPerAccount
      case Some(m) => r := Count(user) >= m;
      case None => r := false;
    }

    method TryAdmit(user: string, now: nat) returns (ok: bool)
      requires Valid()
      modifies this
      ensures Valid() && Limits() == old(Limits())
      ensures ok <==> !AtCapacity(old(log), Limits(), user)
      ensures !ok <==>
        || |old(log)| + 1 > maxGlobal
        || (maxPerAccount.Some?
            && |set i | 0 <= i < |old(log)| && old(log)[i].user == user| + 1 > maxPerAccount.value)
      ensures log == if ok then old(log) + [Slot(user, now)] else old(log)
      ensures !ok ==> perAccount == old(perAccount) && total == old(total)
    {
      CountIsExact(user);
      SlotsCounted(log, user);
      if total >= maxGlobal {
        return false;
      }
      match maxPerAccount {
        case Some(m) =>
          if Count(user) >= m {
            return false;
          }
        case None =>
      }
      forall other {
        TimesOfAppend(log, Slot(user, now), other);
      }
      perAccount := perAccount[user := (if user in perAccount then perAccount[user] else []) + [now]];
      total := SaturatingAdd(total, 1);
      log := log + [Slot(user, now)];
      ok := true;
    }

    /** A clean logout drops the oldest stamp of the account; for an account with none it does
        nothing. */
    method OnLogout(user: string)
      requires Valid()
      modifies this
      ensures Valid() && Limits() == old(Limits())
      ensures log == Logout(old(log), user)
    {
      LogoutStep(perAccount, log, user);
      hide TimesOf, Logout, Mirrors;
      var removed := false;
      if user in perAccount {
        if perAccount[user] != [] {
          perAccount := perAccount[user := perAccount[user][1..]];
          removed := true;
        }
      }
      if removed {
        total := SaturatingSub(total, 1);
      }
      if user in perAccount && perAccount[user] == [] {
        perAccount := perAccount - {user};
      }
      log := Logout(log, user);
    }

    /** Vec::retain of the entries younger than `ttl`. */
    static method Retain(times: seq<nat>, now: nat, ttl: nat) returns (kept: seq<nat>)
      ensures kept == FreshTimes(times, now, ttl)
    {
      kept := [];
      var i := 0;
      while i < |times|
        invariant 0 <= i <= |times|
        invariant kept + FreshTimes(times[i..], now, ttl) == FreshTimes(times, now, ttl)
      {
        assert times[i..][1..] == times[i + 1..];
        if IsFresh(times[i], now, ttl) {
          kept := kept + [times[i]];
        }
        i := i + 1;
      }
    }

    /** Reclaims every slot admitted at least `ttl` ago, walking the map account by account. */
    method Reap(ttl: nat, now: nat) returns (reaped: U32)
      requires Valid()
      modifies this
      ensures Valid() && Limits() == old(Limits())
      ensures log == Ledger.Reap(old(log), now, ttl)
      ensures reaped == |old(log)| - |log|
    {
      ghost var start, accounts := log, perAccount.Keys;
      var todo := perAccount.Keys;
      ghost var done: set<string> := {};
      reaped := 0;
      ReapNobody(start, now, ttl);
      forall x | x in start
        ensures x.user in accounts
      {
        UserHasTimes(start, x.user);
      }
      hide Mirrors, TimesOf, FreshTimes, ReapUsers, AsU32, Retained;
      while todo != {}
        invariant todo + done == accounts && todo !! done
        invariant forall user :: user in todo ==> user in perAccount
        invariant Mirrors(perAccount, ReapUsers(start, done, now, ttl))
        invariant reaped == |start| - |ReapUsers(start, done, now, ttl)|
        invariant total == |start| && log == start && Limits() == old(Limits())
        decreases todo
      {
        var user :| user in todo;
        ReapStep(perAccount, start, done, user, now, ttl);
        reaped := RetainFresh(user, now, ttl, reaped);
        todo, done := todo - {user}, done + {user};
      }
      ReapAllUsers(start, done, now, ttl);
      total := SaturatingSub(total, reaped);
      log := Ledger.Reap(start, now, ttl);
    }

    /** Retains the fresh entries of one account, adding the others to the count. */
    method RetainFresh(user: string, now: nat, ttl: nat, reaped: U32) returns (sum: U32)
      requires user in perAccount && reaped + |perAccount[user]| < U32_LIMIT
      modifies this`perAccount
      ensures perAccount == Retained(old(perAccount), user, now, ttl)
      ensures old(perAccount).Keys - {user} <= perAccount.Keys
      ensures sum == reaped + |old(perAccount)[user]| - |FreshTimes(old(perAccount)[user], now, ttl)|
    {
      var before := perAccount[user];
      var after := Retain(before, now, ttl);
      CastIsExact(|before| - |after|);
      CastIsExact(reaped + |before| - |after|);
      sum := AsU32(reaped + AsU32(|before| - |after|));
      perAccount := if after == [] then perAccount - {user} else perAccount[user := after];
    }

    method SetLimits(maxGlobal: U32, maxPerAccount: Option<U32>)
      requires Valid()
      modifies this`maxGlobal, this`maxPerAccount
      ensures Valid() && Limits() == Caps(maxGlobal, maxPerAccount)
    {
      this.maxGlobal, this.maxPerAccount := maxGlobal, maxPerAccount;
    }
  }

  /** Dropping the oldest stamp of an account, and the account once it has none. */
  lemma LogoutStep(per: map<string, seq<nat>>, log: seq<Slot>, user: string)
    requires Mirrors(per, log)
    ensures
      var after := if user in per && per[user] != [] then per[user := per[user][1..]] else per;
      && Mirrors(if user in after && after[user] == [] then after - {user} else after, Logout(log, user))
      && |Logout(log, user)| == |log| - (if user in per && per[user] != [] then 1 else 0)
  {
    forall other {
      TimesOfLogout(log, user, other);
    }
    hide TimesOf, Logout;
  }

  function Retained(per: map<string, seq<nat>>, user: string, now: nat, ttl: nat): map<string, seq<nat>>
    requires user in per
  {
    var after := FreshTimes(per[user], now, ttl);
    if after == [] then per - {user} else per[user := after]
  }

  /** Retaining the fresh entries of one more account. */
  lemma ReapStep(per: map<string, seq<nat>>, log: seq<Slot>, done: set<string>, user: string, now: nat, ttl: nat)
    requires Mirrors(per, ReapUsers(log, done, now, ttl)) && user in per && user !in done
    ensures Mirrors(Retained(per, user, now, ttl), ReapUsers(log, done + {user}, now, ttl))
    ensures |per[user]| <= |ReapUsers(log, done, now, ttl)|
    ensures
      |per[user]| - |FreshTimes(per[user], now, ttl)|
      == |ReapUsers(log, done, now, ttl)| - |ReapUsers(log, done + {user}, now, ttl)|
  {
    var a, b := ReapUsers(log, done, now, ttl), ReapUsers(log, done + {user}, now, ttl);
    ReapOneMore(log, done, user, now, ttl);
    TimesOfReapUsers(log, done, now, ttl, user);
    assert per[user] == TimesOf(a, user) == TimesOf(log, user);
    forall other
      ensures TimesOf(b, other) == if other == user then FreshTimes(TimesOf(a, user), now, ttl) else TimesOf(a, other)
    {
      TimesOfReapUsers(log, done, now, ttl, other);
      TimesOfReapUsers(log, done + {user}, now, ttl, other);
    }
    MirrorStep(per, a, b, user, now, ttl);
  }

  lemma MirrorStep(per: map<string, seq<nat>>, a: seq<Slot>, b: seq<Slot>, user: string, now: nat, ttl: nat)
    requires Mirrors(per, a) && user in per
    requires forall other ::
      TimesOf(b, other) == if other == user then FreshTimes(TimesOf(a, user), now, ttl) else TimesOf(a, other)
    ensures Mirrors(Retained(per, user, now, ttl), b)
  {
    hide TimesOf, FreshTimes;
  }
}
