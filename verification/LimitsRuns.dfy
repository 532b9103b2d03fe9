/** Whole runs of the session tracker: admissions, logouts, reaps and live cap changes, at times
    that never go back. A session whose connection dies uncleanly simply never logs out. */
module LimitsRuns {
  import opened Ledger

  /** `log` is what the tracker stands for; `open` are the sessions admitted and not yet cleanly
      logged out. `base` is the log at the last change of the caps. The counters are totals: logins
      admitted, stale slots met by reaps, logouts of accounts that had a stamp. */
  datatype World = World(
    log: seq<Slot>, open: seq<Slot>, caps: Caps, clock: nat, lastReap: nat, base: seq<Slot>,
    admits: nat, reaped: nat, logouts: nat)

  /** `LogoutEvent(k)` is the clean logout of the k-th open session, `StrayEvent` a logout reported
      for an account without saying whose it is. */
  datatype Event =
    | AdmitEvent(user: string)
    | LogoutEvent(k: nat)
    | StrayEvent(user: string)
    | ReapEvent
    | CapsEvent(caps: Caps)

  datatype Timed = Timed(at: nat, event: Event)

  function Start(caps: Caps): World {
    World([], [], caps, 0, 0, [], 0, 0, 0)
  }

  predicate Enabled(w: World, e: Timed) {
    w.clock <= e.at && (e.event.LogoutEvent? ==> e.event.k < |w.open|)
  }

  /** A logout takes a slot exactly if the account has one. */
  function Counted(log: seq<Slot>, user: string): nat {
    if TimesOf(log, user) == [] then 0 else 1
  }

  function Apply(w: World, e: Timed, ttl: nat): World
    requires Enabled(w, e)
  {
    var v := w.(clock := e.at);
    match e.event
    case AdmitEvent(user) =>
      if AtCapacity(w.log, w.caps, user) then v
      else v.(log := Admit(w.log, w.caps, user, e.at), open := w.open + [Slot(user, e.at)], admits := w.admits + 1)
    case LogoutEvent(k) =>
      var user := w.open[k].user;
      v.(log := Logout(w.log, user), open := w.open[..k] + w.open[k + 1..], logouts := w.logouts + Counted(w.log, user))
    case StrayEvent(user) => v.(log := Logout(w.log, user), logouts := w.logouts + Counted(w.log, user))
    case ReapEvent =>
      var log := Reap(w.log, e.at, ttl);
      v.(log := log, lastReap := e.at, reaped := w.reaped + StaleCount(w.log, e.at, ttl))
    case CapsEvent(caps) => v.(caps := caps, base := w.log)
  }

  ghost predicate Valid(w: World, events: seq<Timed>, ttl: nat)
    decreases |events|
  {
    events != [] ==> Enabled(w, events[0]) && Valid(Apply(w, events[0], ttl), events[1..], ttl)
  }

  function Exec(w: World, events: seq<Timed>, ttl: nat): World
    requires Valid(w, events, ttl)
    decreases |events|
  {
    if events == [] then w else Exec(Apply(w, events[0], ttl), events[1..], ttl)
  }

  /** Extends a run by one event. */
  lemma {:induction false} ExecSnoc(w: World, events: seq<Timed>, e: Timed, ttl: nat)
    requires Valid(w, events, ttl) && Enabled(Exec(w, events, ttl), e)
    ensures Valid(w, events + [e], ttl)
    ensures Exec(w, events + [e], ttl) == Apply(Exec(w, events, ttl), e, ttl)
    decreases |events|
  {
    if events == [] {
      assert events + [e] == [e] && [e][1..] == [];
    } else {
      assert (events + [e])[0] == events[0] && (events + [e])[1..] == events[1..] + [e];
      ExecSnoc(Apply(w, events[0], ttl), events[1..], e, ttl);
    }
  }

  predicate InOrder(log: seq<Slot>, clock: nat) {
    && (forall i, j :: 0 <= i < j < |log| ==> log[i].at <= log[j].at)
    && (forall i :: 0 <= i < |log| ==> log[i].at <= clock)
  }

  predicate Ascending(times: seq<nat>) {
    forall i, j :: 0 <= i < j < |times| ==> times[i] <= times[j]
  }

  /** Every stamp is at least as young as the matching one of the youngest sessions. */
  predicate Dominates(stamps: seq<nat>, sessions: seq<nat>) {
    && |stamps| <= |sessions|
    && forall i :: 0 <= i < |stamps| ==> sessions[|sessions| - |stamps| + i] <= stamps[i]
  }

  function Max(a: nat, b: nat): nat {
    if a < b then b else a
  }

  ghost predicate CapsHold(w: World) {
    && |w.log| <= Max(w.caps.maxGlobal, |w.base|)
    && (w.caps.maxPerAccount.Some? ==>
          forall user :: |TimesOf(w.log, user)| <= Max(w.caps.maxPerAccount.value, |TimesOf(w.base, user)|))
  }

  ghost predicate Inv(w: World, ttl: nat) {
    && InOrder(w.log, w.clock) && InOrder(w.open, w.clock) && w.lastReap <= w.clock
    && Dominated(w)
    && CapsHold(w)
    && w.admits == |w.log| + w.reaped + w.logouts
    && ReapedAt(w.log, w.lastReap, ttl)
  }

  /** In every account, the tracker's vector is no longer than the list of open sessions, and no
      stamp is older than the session it stands for. */
  ghost predicate Dominated(w: World) {
    forall user :: Dominates(TimesOf(w.log, user), TimesOf(w.open, user))
  }

  /** What was there at the last reap was younger than the ttl then. */
  predicate ReapedAt(log: seq<Slot>, lastReap: nat, ttl: nat) {
    forall i :: 0 <= i < |log| ==> lastReap < log[i].at + Max(ttl, 1)
  }

  lemma {:induction false} TimesAscend(log: seq<Slot>, clock: nat, user: string)
    requires InOrder(log, clock)
    ensures Ascending(TimesOf(log, user))
    ensures forall i :: 0 <= i < |TimesOf(log, user)| ==> log != [] && log[0].at <= TimesOf(log, user)[i]
    decreases |log|
  {
    if log != [] {
      var rest := log[1..];
      assert rest != [] ==> log[0].at <= rest[0].at;
      TimesAscend(rest, clock, user);
      AscendingCons(log[0].at, TimesOf(rest, user));
    }
  }

  lemma AscendingCons(t: nat, times: seq<nat>)
    requires Ascending(times) && forall i :: 0 <= i < |times| ==> t <= times[i]
    ensures Ascending([t] + times)
  {
  }

  /** Reaping removes a prefix of an account's vector, and only stale stamps. */
  lemma {:induction false} FreshIsSuffix(times: seq<nat>, now: nat, ttl: nat)
    requires Ascending(times)
    ensures
      var n := |times| - |FreshTimes(times, now, ttl)|;
      && FreshTimes(times, now, ttl) == times[n..]
      && forall i :: 0 <= i < |times| ==> (i < n <==> !IsFresh(times[i], now, ttl))
  {
    if times != [] {
      if IsFresh(times[0], now, ttl) {
        AllFresh(times, now, ttl);
      } else {
        FreshIsSuffix(times[1..], now, ttl);
      }
    }
  }

  lemma {:induction false} AllFresh(times: seq<nat>, now: nat, ttl: nat)
    requires forall i :: 0 <= i < |times| ==> IsFresh(times[i], now, ttl)
    ensures FreshTimes(times, now, ttl) == times
  {
    if times != [] {
      AllFresh(times[1..], now, ttl);
    }
  }

  lemma {:induction false} TimesOfReap(log: seq<Slot>, now: nat, ttl: nat, user: string)
    ensures TimesOf(Reap(log, now, ttl), user) == FreshTimes(TimesOf(log, user), now, ttl)
  {
    var users := set x | x in log :: x.user;
    ReapAllUsers(log, users, now, ttl);
    TimesOfReapUsers(log, users, now, ttl, user);
    if user !in users {
      UserHasTimes(log, user);
    }
  }

  lemma {:induction false} ReapKeepsFresh(log: seq<Slot>, now: nat, ttl: nat)
    ensures forall x :: x in Reap(log, now, ttl) ==> x in log && IsFresh(x.at, now, ttl)
  {
    if log != [] {
      ReapKeepsFresh(log[1..], now, ttl);
    }
  }

  lemma OlderFirst(x: Slot, rest: seq<Slot>, clock: nat)
    requires InOrder(rest, clock) && x.at <= clock && forall y :: y in rest ==> x.at <= y.at
    ensures InOrder([x] + rest, clock)
  {
  }

  /** The entries a reap keeps are the fresh ones, still in order. */
  lemma {:induction false} ReapKeepsOrder(log: seq<Slot>, clock: nat, now: nat, ttl: nat)
    requires InOrder(log, clock)
    ensures InOrder(Reap(log, now, ttl), clock)
  {
    if log != [] {
      var rest := Reap(log[1..], now, ttl);
      ReapKeepsOrder(log[1..], clock, now, ttl);
      ReapKeepsFresh(log[1..], now, ttl);
      assert Reap(log, now, ttl) == if IsFresh(log[0].at, now, ttl) then [log[0]] + rest else rest;
      hide Reap;
      if IsFresh(log[0].at, now, ttl) {
        forall y | y in rest
          ensures log[0].at <= y.at
        {
          assert y in log[1..];
        }
        OlderFirst(log[0], rest, clock);
      }
    }
  }

  lemma {:induction false} LogoutKeepsOrder(log: seq<Slot>, clock: nat, user: string)
    requires InOrder(log, clock)
    ensures InOrder(Logout(log, user), clock)
    ensures forall i :: 0 <= i < |Logout(log, user)| ==> Logout(log, user)[i] in log
  {
    if log != [] && log[0].user != user {
      LogoutKeepsOrder(log[1..], clock, user);
      assert forall y :: y in log[1..] ==> y in log;
      assert forall y :: y in Logout(log[1..], user) ==> y in log[1..];
      OlderFirst(log[0], Logout(log[1..], user), clock);
    }
  }

  lemma LogoutKeepsAges(log: seq<Slot>, clock: nat, user: string, lastReap: nat, ttl: nat)
    requires InOrder(log, clock) && ReapedAt(log, lastReap, ttl)
    ensures InOrder(Logout(log, user), clock) && ReapedAt(Logout(log, user), lastReap, ttl)
  {
    LogoutKeepsOrder(log, clock, user);
    hide Logout;
  }

  lemma LeavingKeepsOrder(open: seq<Slot>, clock: nat, k: nat)
    requires InOrder(open, clock) && k < |open|
    ensures InOrder(open[..k] + open[k + 1..], clock)
  {
  }

  /** Dropping the oldest stamp while any one session leaves keeps domination. */
  lemma DominatesAfterLogout(stamps: seq<nat>, a: seq<nat>, t: nat, b: seq<nat>)
    requires Dominates(stamps, a + [t] + b) && Ascending(a + [t] + b)
    ensures Dominates(if stamps == [] then [] else stamps[1..], a + b)
  {
    if stamps != [] {
      var l, l', s := a + [t] + b, a + b, stamps[1..];
      forall i | 0 <= i < |s|
        ensures l'[|l'| - |s| + i] <= s[i]
      {
        var j := |l'| - |s| + i;
        assert l'[j] == if j < |a| then l[j] else l[j + 1];
        assert l[j] <= l[j + 1] <= stamps[i + 1];
      }
    }
  }

  lemma AdmitKeepsAccounts(w: World, e: Timed, ttl: nat)
    requires Inv(w, ttl) && Enabled(w, e) && e.event.AdmitEvent?
    ensures Dominated(Apply(w, e, ttl)) && CapsHold(Apply(w, e, ttl))
  {
    var v, x := Apply(w, e, ttl), Slot(e.event.user, e.at);
    if v.log != w.log {
      forall user
        ensures Dominates(TimesOf(v.log, user), TimesOf(v.open, user))
        ensures w.caps.maxPerAccount.Some? ==>
            |TimesOf(v.log, user)| <= Max(w.caps.maxPerAccount.value, |TimesOf(w.base, user)|)
      {
        TimesOfAppend(w.log, x, user);
        TimesOfAppend(w.open, x, user);
        hide TimesOf;
        assert Dominates(TimesOf(w.log, user), TimesOf(w.open, user));
      }
    }
  }

  lemma AdmitKeepsInv(w: World, e: Timed, ttl: nat)
    requires Inv(w, ttl) && Enabled(w, e) && e.event.AdmitEvent?
    ensures Inv(Apply(w, e, ttl), ttl)
  {
    AdmitKeepsAccounts(w, e, ttl);
    hide Dominated, CapsHold, TimesOf;
  }

  lemma WithoutSession(open: seq<Slot>, k: nat, user: string)
    requires k < |open|
    ensures
      var a, b := TimesOf(open[..k], user), TimesOf(open[k + 1..], user);
      && TimesOf(open, user) == (if open[k].user == user then a + [open[k].at] + b else a + b)
      && TimesOf(open[..k] + open[k + 1..], user) == a + b
  {
    hide TimesOf;
    TimesOfConcat(open[..k], open[k + 1..], user);
    TimesOfAppend(open[..k], open[k], user);
    TimesOfConcat(open[..k] + [open[k]], open[k + 1..], user);
    assert open == open[..k] + [open[k]] + open[k + 1..];
    assert TimesOf(open[..k], user) + [] == TimesOf(open[..k], user);
  }

  lemma LogoutKeepsAccount(w: World, k: nat, user: string)
    requires k < |w.open| && InOrder(w.open, w.clock) && Dominates(TimesOf(w.log, user), TimesOf(w.open, user))
    ensures
      var log, open := Logout(w.log, w.open[k].user), w.open[..k] + w.open[k + 1..];
      Dominates(TimesOf(log, user), TimesOf(open, user)) && |TimesOf(log, user)| <= |TimesOf(w.log, user)|
  {
    hide TimesOf, Logout, InOrder, Dominates, Ascending;
    var gone := w.open[k];
    TimesAscend(w.open, w.clock, user);
    TimesOfLogout(w.log, gone.user, user);
    WithoutSession(w.open, k, user);
    if user == gone.user {
      DominatesAfterLogout(TimesOf(w.log, user), TimesOf(w.open[..k], user), gone.at, TimesOf(w.open[k + 1..], user));
    }
  }

  lemma LaterStaysInOrder(w: World, v: World, at: nat)
    requires InOrder(v.log, w.clock) && InOrder(v.open, w.clock) && w.clock <= at
    ensures InOrder(v.log, at) && InOrder(v.open, at)
  {
  }

  lemma LogoutKeepsInv(w: World, e: Timed, ttl: nat)
    requires Inv(w, ttl) && Enabled(w, e) && e.event.LogoutEvent?
    ensures Inv(Apply(w, e, ttl), ttl)
  {
    var k := e.event.k;
    LogoutKeepsAges(w.log, w.clock, w.open[k].user, w.lastReap, ttl);
    LeavingKeepsOrder(w.open, w.clock, k);
    LaterStaysInOrder(w, Apply(w, e, ttl), e.at);
    TimesOfLogout(w.log, w.open[k].user, w.open[k].user);
    forall user {
      LogoutKeepsAccount(w, k, user);
    }
    hide TimesOf, Logout, Dominates, InOrder, ReapedAt;
  }

  lemma StrayKeepsAccount(w: World, gone: string, user: string)
    requires Dominates(TimesOf(w.log, user), TimesOf(w.open, user))
    ensures
      var log := Logout(w.log, gone);
      Dominates(TimesOf(log, user), TimesOf(w.open, user)) && |TimesOf(log, user)| <= |TimesOf(w.log, user)|
  {
    TimesOfLogout(w.log, gone, user);
    hide TimesOf, Logout;
  }

  lemma StrayKeepsInv(w: World, e: Timed, ttl: nat)
    requires Inv(w, ttl) && Enabled(w, e) && e.event.StrayEvent?
    ensures Inv(Apply(w, e, ttl), ttl)
  {
    var gone, v := e.event.user, Apply(w, e, ttl);
    LogoutKeepsAges(w.log, w.clock, gone, w.lastReap, ttl);
    LaterStaysInOrder(w, v, e.at);
    TimesOfLogout(w.log, gone, gone);
    forall user {
      StrayKeepsAccount(w, gone, user);
    }
    hide TimesOf, Logout, Dominates, InOrder, ReapedAt;
  }

  lemma ReapKeepsAccount(w: World, now: nat, ttl: nat, user: string)
    requires InOrder(w.log, w.clock) && Dominates(TimesOf(w.log, user), TimesOf(w.open, user))
    ensures
      var log := Reap(w.log, now, ttl);
      Dominates(TimesOf(log, user), TimesOf(w.open, user)) && |TimesOf(log, user)| <= |TimesOf(w.log, user)|
  {
    TimesOfReap(w.log, now, ttl, user);
    TimesAscend(w.log, w.clock, user);
    FreshIsSuffix(TimesOf(w.log, user), now, ttl);
    hide TimesOf, Reap, FreshTimes, InOrder, Ascending;
  }

  lemma ReapKeepsInv(w: World, e: Timed, ttl: nat)
    requires Inv(w, ttl) && Enabled(w, e) && e.event.ReapEvent?
    ensures Inv(Apply(w, e, ttl), ttl)
  {
    ReapKeepsOrder(w.log, w.clock, e.at, ttl);
    ReapKeepsFresh(w.log, e.at, ttl);
    ReapTakesTheStale(w.log, e.at, ttl);
    forall user {
      ReapKeepsAccount(w, e.at, ttl, user);
    }
    hide TimesOf, Reap, Dominates;
  }

  /** The invariant of every run. */
  lemma {:induction false} RunKeepsInv(w: World, events: seq<Timed>, ttl: nat)
    requires Inv(w, ttl) && Valid(w, events, ttl)
    ensures Inv(Exec(w, events, ttl), ttl)
    decreases |events|
  {
    if events != [] {
      var e := events[0];
      match e.event {
        case AdmitEvent(_) => AdmitKeepsInv(w, e, ttl);
        case LogoutEvent(_) => LogoutKeepsInv(w, e, ttl);
        case StrayEvent(_) => StrayKeepsInv(w, e, ttl);
        case ReapEvent => ReapKeepsInv(w, e, ttl);
        case CapsEvent(_) =>
      }
      RunKeepsInv(Apply(w, e, ttl), events[1..], ttl);
    }
  }

  /** For each account, over every run: the tracker never counts more slots than there are open
      sessions, and its stamps, oldest first, are no older than the youngest sessions' admit
      times, although a logout always drops the oldest stamp. */
  lemma TrackerNeverOvercounts(caps: Caps, events: seq<Timed>, ttl: nat, user: string)
    requires Valid(Start(caps), events, ttl)
    ensures
      var w := Exec(Start(caps), events, ttl);
      Dominates(TimesOf(w.log, user), TimesOf(w.open, user))
  {
    RunKeepsInv(Start(caps), events, ttl);
  }

  /** A reap takes a prefix of the account's vector, and takes no more slots than the account has
      open sessions aged at least `ttl`. */
  lemma ReapTakesOnlyStale(caps: Caps, events: seq<Timed>, ttl: nat, now: nat, user: string)
    requires Valid(Start(caps), events, ttl)
    ensures
      var w := Exec(Start(caps), events, ttl);
      var stamps, sessions := TimesOf(w.log, user), TimesOf(w.open, user);
      var n := |stamps| - |TimesOf(Reap(w.log, now, ttl), user)|;
      && 0 <= n && TimesOf(Reap(w.log, now, ttl), user) == stamps[n..]
      && n <= |sessions| - |FreshTimes(sessions, now, ttl)|
  {
    var w := Exec(Start(caps), events, ttl);
    var stamps, sessions := TimesOf(w.log, user), TimesOf(w.open, user);
    RunKeepsInv(Start(caps), events, ttl);
    assert Dominates(stamps, sessions);
    TimesOfReap(w.log, now, ttl, user);
    TimesAscend(w.log, w.clock, user);
    TimesAscend(w.open, w.clock, user);
    FreshIsSuffix(stamps, now, ttl);
    FreshIsSuffix(sessions, now, ttl);
    StaleStamps(stamps, sessions, now, ttl);
  }

  /** In an ascending vector the stale stamps come first. */
  lemma StaleComesFirst(times: seq<nat>, now: nat, ttl: nat, i: nat)
    requires Ascending(times) && i < |times|
    ensures i < |times| - |FreshTimes(times, now, ttl)| <==> !IsFresh(times[i], now, ttl)
  {
    FreshIsSuffix(times, now, ttl);
  }

  lemma StampOf(stamps: seq<nat>, sessions: seq<nat>, i: nat)
    requires Dominates(stamps, sessions) && i < |stamps|
    ensures 0 <= |sessions| - |stamps| + i < |sessions| && sessions[|sessions| - |stamps| + i] <= stamps[i]
  {
  }

  lemma StaleStamps(stamps: seq<nat>, sessions: seq<nat>, now: nat, ttl: nat)
    requires Dominates(stamps, sessions) && Ascending(stamps) && Ascending(sessions)
    ensures |stamps| - |FreshTimes(stamps, now, ttl)| <= |sessions| - |FreshTimes(sessions, now, ttl)|
  {
    hide FreshTimes, Ascending;
    var n := |stamps| - |FreshTimes(stamps, now, ttl)|;
    if n > 0 {
      var j := |sessions| - |stamps| + (n - 1);
      StampOf(stamps, sessions, n - 1);
      hide Dominates;
      StaleComesFirst(stamps, now, ttl, n - 1);
      StaleComesFirst(sessions, now, ttl, j);
    }
  }

  /** Over every run with live cap changes, no count exceeds the larger of its cap and its value
      when the caps were last set. */
  lemma CapsAlwaysHold(caps: Caps, events: seq<Timed>, ttl: nat, user: string)
    requires Valid(Start(caps), events, ttl)
    ensures
      var w := Exec(Start(caps), events, ttl);
      && |w.log| <= Max(w.caps.maxGlobal, |w.base|)
      && (w.caps.maxPerAccount.Some? ==>
            |TimesOf(w.log, user)| <= Max(w.caps.maxPerAccount.value, |TimesOf(w.base, user)|))
  {
    RunKeepsInv(Start(caps), events, ttl);
  }

  lemma {:induction false} ExecAppend(w: World, a: seq<Timed>, b: seq<Timed>, ttl: nat)
    requires Valid(w, a + b, ttl)
    ensures Valid(w, a, ttl) && Valid(Exec(w, a, ttl), b, ttl)
    ensures Exec(w, a + b, ttl) == Exec(Exec(w, a, ttl), b, ttl)
    decreases |a|
  {
    if a == [] {
      assert a + b == b;
    } else {
      assert (a + b)[0] == a[0] && (a + b)[1..] == a[1..] + b;
      ExecAppend(Apply(w, a[0], ttl), a[1..], b, ttl);
    }
  }

  /** Only a change of the caps changes the caps, and the log they were set at. */
  lemma {:induction false} CapsStay(w: World, events: seq<Timed>, ttl: nat)
    requires Valid(w, events, ttl) && forall e :: e in events ==> !e.event.CapsEvent?
    ensures Exec(w, events, ttl).caps == w.caps && Exec(w, events, ttl).base == w.base
    decreases |events|
  {
    if events != [] {
      assert events[0] in events && forall e :: e in events[1..] ==> e in events;
      CapsStay(Apply(w, events[0], ttl), events[1..], ttl);
    }
  }

  /** The same, said of the events: from the time the caps were set to `caps`, no count exceeds the
      larger of its cap and its value at that time. */
  lemma CapsHoldSince(initial: Caps, before: seq<Timed>, at: nat, caps: Caps, after: seq<Timed>, ttl: nat, user: string)
    requires Valid(Start(initial), before + ([Timed(at, CapsEvent(caps))] + after), ttl)
    requires forall e :: e in after ==> !e.event.CapsEvent?
    ensures Valid(Start(initial), before, ttl)
    ensures
      var earlier := Exec(Start(initial), before, ttl).log;
      var log := Exec(Start(initial), before + ([Timed(at, CapsEvent(caps))] + after), ttl).log;
      && |log| <= Max(caps.maxGlobal, |earlier|)
      && (caps.maxPerAccount.Some? ==>
            |TimesOf(log, user)| <= Max(caps.maxPerAccount.value, |TimesOf(earlier, user)|))
  {
    var e := Timed(at, CapsEvent(caps));
    ExecAppend(Start(initial), before, [e] + after, ttl);
    var w := Exec(Start(initial), before, ttl);
    assert ([e] + after)[0] == e && ([e] + after)[1..] == after;
    CapsStay(Apply(w, e, ttl), after, ttl);
    CapsAlwaysHold(initial, before + ([e] + after), ttl, user);
  }

  /** Every admission is still present, was reaped, or was taken by a logout. */
  lemma AdmissionsBalance(caps: Caps, events: seq<Timed>, ttl: nat)
    requires Valid(Start(caps), events, ttl)
    ensures
      var w := Exec(Start(caps), events, ttl);
      w.admits == |w.log| + w.reaped + w.logouts
  {
    RunKeepsInv(Start(caps), events, ttl);
  }

  /** Every event comes at most `interval` after the last reap. */
  ghost predicate Punctual(w: World, events: seq<Timed>, ttl: nat, interval: nat)
    requires Valid(w, events, ttl)
    decreases |events|
  {
    events != [] ==>
      && events[0].at <= w.lastReap + interval
      && Punctual(Apply(w, events[0], ttl), events[1..], ttl, interval)
  }

  lemma {:induction false} PunctualClock(w: World, events: seq<Timed>, ttl: nat, interval: nat)
    requires Valid(w, events, ttl) && Punctual(w, events, ttl, interval) && w.clock <= w.lastReap + interval
    ensures Exec(w, events, ttl).clock <= Exec(w, events, ttl).lastReap + interval
    decreases |events|
  {
    if events != [] {
      PunctualClock(Apply(w, events[0], ttl), events[1..], ttl, interval);
    }
  }

  /** In any run whose reaps are at most `interval` apart, no slot gets as old as
      `ttl + interval`, whoever leaked it. */
  lemma LeakBound(caps: Caps, events: seq<Timed>, ttl: nat, interval: nat, i: nat)
    requires Valid(Start(caps), events, ttl) && Punctual(Start(caps), events, ttl, interval) && ttl > 0
    requires i < |Exec(Start(caps), events, ttl).log|
    ensures var w := Exec(Start(caps), events, ttl); w.clock < w.log[i].at + ttl + interval
  {
    RunKeepsInv(Start(caps), events, ttl);
    PunctualClock(Start(caps), events, ttl, interval);
  }

  /** With the constants of the server, no slot gets 360 seconds old. */
  lemma ServerLeakBound(caps: Caps, events: seq<Timed>, i: nat)
    requires Valid(Start(caps), events, SESSION_TTL_SECS)
    requires Punctual(Start(caps), events, SESSION_TTL_SECS, REAP_INTERVAL_SECS)
    requires i < |Exec(Start(caps), events, SESSION_TTL_SECS).log|
    ensures var w := Exec(Start(caps), events, SESSION_TTL_SECS); w.clock < w.log[i].at + 360
  {
    LeakBound(caps, events, SESSION_TTL_SECS, REAP_INTERVAL_SECS, i);
  }
}
