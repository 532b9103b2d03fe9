/** Slots and sessions: when the caps, which bound the tracker's slots, also bound the sessions that
    are open (src/limits.rs). */
module Sessions {
  import opened Options
  import opened Ledger
  import opened LimitsRuns

  /** As many slots as open sessions, in all and for each account. */
  ghost predicate CountsAgree(w: World) {
    |w.log| == |w.open| && forall user :: |TimesOf(w.log, user)| == |TimesOf(w.open, user)|
  }

  /** No slot goes but by the logout of a session. */
  predicate TakesNothing(w: World, e: Timed, ttl: nat) {
    match e.event
    case ReapEvent => StaleCount(w.log, e.at, ttl) == 0
    case StrayEvent(user) => TimesOf(w.log, user) == []
    case _ => true
  }

  ghost predicate NothingTaken(w: World, events: seq<Timed>, ttl: nat)
    requires Valid(w, events, ttl)
    decreases |events|
  {
    events != [] ==> TakesNothing(w, events[0], ttl) && NothingTaken(Apply(w, events[0], ttl), events[1..], ttl)
  }

  ghost predicate AgreeThroughout(w: World, events: seq<Timed>, ttl: nat)
    requires Valid(w, events, ttl)
    decreases |events|
  {
    CountsAgree(w) && (events != [] ==> AgreeThroughout(Apply(w, events[0], ttl), events[1..], ttl))
  }

  lemma {:induction false} NothingStale(log: seq<Slot>, now: nat, ttl: nat)
    requires StaleCount(log, now, ttl) == 0
    ensures Reap(log, now, ttl) == log
  {
    if log != [] {
      NothingStale(log[1..], now, ttl);
    }
  }

  lemma LogoutAgrees(w: World, e: Timed, ttl: nat)
    requires CountsAgree(w) && Enabled(w, e) && e.event.LogoutEvent?
    ensures CountsAgree(Apply(w, e, ttl))
  {
    var k, v := e.event.k, Apply(w, e, ttl);
    var gone := w.open[k].user;
    TimesOfLogout(w.log, gone, gone);
    WithoutSession(w.open, k, gone);
    forall user
      ensures |TimesOf(v.log, user)| == |TimesOf(v.open, user)|
    {
      assert |TimesOf(w.log, user)| == |TimesOf(w.open, user)|;
      TimesOfLogout(w.log, gone, user);
      WithoutSession(w.open, k, user);
      hide TimesOf, Logout;
    }
    hide TimesOf, Logout;
  }

  lemma AdmitAgrees(w: World, e: Timed, ttl: nat)
    requires CountsAgree(w) && Enabled(w, e) && e.event.AdmitEvent?
    ensures CountsAgree(Apply(w, e, ttl))
  {
    var v, x := Apply(w, e, ttl), Slot(e.event.user, e.at);
    if v.log != w.log {
      forall user
        ensures |TimesOf(v.log, user)| == |TimesOf(v.open, user)|
      {
        assert |TimesOf(w.log, user)| == |TimesOf(w.open, user)|;
        TimesOfAppend(w.log, x, user);
        TimesOfAppend(w.open, x, user);
        hide TimesOf;
      }
    }
  }

  /** From equal counts, one event leaves them equal exactly if it takes no slot. */
  lemma StepAgrees(w: World, e: Timed, ttl: nat)
    requires CountsAgree(w) && Enabled(w, e)
    ensures CountsAgree(Apply(w, e, ttl)) <==> TakesNothing(w, e, ttl)
  {
    match e.event {
      case AdmitEvent(_) => AdmitAgrees(w, e, ttl);
      case LogoutEvent(_) => LogoutAgrees(w, e, ttl);
      case StrayEvent(user) => StrayAgrees(w, e, ttl);
      case ReapEvent =>
        ReapTakesTheStale(w.log, e.at, ttl);
        if StaleCount(w.log, e.at, ttl) == 0 {
          NothingStale(w.log, e.at, ttl);
        }
        hide Reap, StaleCount, TimesOf;
      case CapsEvent(_) =>
    }
  }

  lemma StrayAgrees(w: World, e: Timed, ttl: nat)
    requires CountsAgree(w) && Enabled(w, e) && e.event.StrayEvent?
    ensures CountsAgree(Apply(w, e, ttl)) <==> TakesNothing(w, e, ttl)
  {
    var gone, v := e.event.user, Apply(w, e, ttl);
    TimesOfLogout(w.log, gone, gone);
    if TimesOf(w.log, gone) == [] {
      forall user
        ensures TimesOf(v.log, user) == TimesOf(w.log, user)
      {
        TimesOfLogout(w.log, gone, user);
      }
    }
    hide TimesOf, Logout;
  }

  /** The counts agree all along a run exactly if no reap, and no logout that is no session's, takes
      a slot. */
  lemma {:induction false} AgreeExactly(w: World, events: seq<Timed>, ttl: nat)
    requires CountsAgree(w) && Valid(w, events, ttl)
    ensures AgreeThroughout(w, events, ttl) <==> NothingTaken(w, events, ttl)
    decreases |events|
  {
    if events != [] {
      StepAgrees(w, events[0], ttl);
      if CountsAgree(Apply(w, events[0], ttl)) {
        AgreeExactly(Apply(w, events[0], ttl), events[1..], ttl);
      }
    }
  }

  lemma {:induction false} AgreeAtEnd(w: World, events: seq<Timed>, ttl: nat)
    requires Valid(w, events, ttl) && AgreeThroughout(w, events, ttl)
    ensures CountsAgree(Exec(w, events, ttl))
    decreases |events|
  {
    if events != [] {
      AgreeAtEnd(Apply(w, events[0], ttl), events[1..], ttl);
    }
  }

  /** In such a run the caps bound the open sessions, across live changes of the caps. */
  lemma SessionsCapped(caps: Caps, events: seq<Timed>, ttl: nat, user: string)
    requires Valid(Start(caps), events, ttl) && NothingTaken(Start(caps), events, ttl)
    ensures
      var w := Exec(Start(caps), events, ttl);
      && |w.open| <= Max(w.caps.maxGlobal, |w.base|)
      && (w.caps.maxPerAccount.Some? ==>
            |TimesOf(w.open, user)| <= Max(w.caps.maxPerAccount.value, |TimesOf(w.base, user)|))
  {
    AgreeExactly(Start(caps), events, ttl);
    AgreeAtEnd(Start(caps), events, ttl);
    CapsAlwaysHold(caps, events, ttl, user);
  }

  // ------------------------------------------------------------------ sessions younger than the ttl

  /** At every reap all open sessions are younger than the ttl, and every logout is a session's. */
  ghost predicate FreshAtReaps(w: World, events: seq<Timed>, ttl: nat)
    requires Valid(w, events, ttl)
    decreases |events|
  {
    events != [] ==>
      && !events[0].event.StrayEvent?
      && (events[0].event.ReapEvent? ==> forall x :: x in w.open ==> IsFresh(x.at, events[0].at, ttl))
      && FreshAtReaps(Apply(w, events[0], ttl), events[1..], ttl)
  }

  lemma {:induction false} TimesFresh(log: seq<Slot>, now: nat, ttl: nat, user: string)
    requires forall x :: x in log ==> IsFresh(x.at, now, ttl)
    ensures FreshTimes(TimesOf(log, user), now, ttl) == TimesOf(log, user)
    decreases |log|
  {
    if log != [] {
      assert log[0] in log && forall x :: x in log[1..] ==> x in log;
      TimesFresh(log[1..], now, ttl, user);
    }
  }

  lemma {:induction false} StaleIsSomeones(log: seq<Slot>, now: nat, ttl: nat) returns (user: string)
    requires StaleCount(log, now, ttl) > 0
    ensures |FreshTimes(TimesOf(log, user), now, ttl)| < |TimesOf(log, user)|
  {
    if !IsFresh(log[0].at, now, ttl) {
      user := log[0].user;
    } else {
      user := StaleIsSomeones(log[1..], now, ttl);
    }
  }

  /** A reap takes nothing while all open sessions are young. */
  lemma YoungAreNotTaken(w: World, now: nat, ttl: nat)
    requires Inv(w, ttl) && w.clock <= now && forall x :: x in w.open ==> IsFresh(x.at, now, ttl)
    ensures StaleCount(w.log, now, ttl) == 0
  {
    if StaleCount(w.log, now, ttl) > 0 {
      var user := StaleIsSomeones(w.log, now, ttl);
      var stamps, sessions := TimesOf(w.log, user), TimesOf(w.open, user);
      assert Dominates(stamps, sessions);
      TimesAscend(w.log, w.clock, user);
      TimesAscend(w.open, w.clock, user);
      StaleStamps(stamps, sessions, now, ttl);
      TimesFresh(w.open, now, ttl, user);
    }
  }

  /** So, if no session outlives the ttl by the next reap, nothing is taken, and the caps bound the
      sessions. */
  lemma {:induction false} YoungSessionsKeepSlots(w: World, events: seq<Timed>, ttl: nat)
    requires Inv(w, ttl) && CountsAgree(w) && Valid(w, events, ttl) && FreshAtReaps(w, events, ttl)
    ensures NothingTaken(w, events, ttl)
    decreases |events|
  {
    if events != [] {
      var e := events[0];
      if e.event.ReapEvent? {
        YoungAreNotTaken(w, e.at, ttl);
      }
      StepAgrees(w, e, ttl);
      InvGoesOn(w, e, ttl);
      YoungSessionsKeepSlots(Apply(w, e, ttl), events[1..], ttl);
    }
  }

  lemma InvGoesOn(w: World, e: Timed, ttl: nat)
    requires Inv(w, ttl) && Enabled(w, e)
    ensures Inv(Apply(w, e, ttl), ttl)
  {
    ExecSnoc(w, [], e, ttl);
    assert [] + [e] == [e];
    RunKeepsInv(w, [e], ttl);
  }

  /** Otherwise not: with a global cap of one, a session of exactly the ttl's age loses its slot to
      a reap, and a second session is admitted beside it. */
  lemma SessionsExceedCap()
    ensures
      var events := [Timed(0, AdmitEvent("a")), Timed(300, ReapEvent), Timed(300, AdmitEvent("a"))];
      var caps := Caps(1, None);
      && Valid(Start(caps), events, SESSION_TTL_SECS)
      && |Exec(Start(caps), events, SESSION_TTL_SECS).open| == 2
  {
    var caps, t, one := Caps(1, None), SESSION_TTL_SECS, [Slot("a", 0)];
    var e0, e1, e2 := Timed(0, AdmitEvent("a")), Timed(300, ReapEvent), Timed(300, AdmitEvent("a"));
    var w0 := Start(caps);
    var w1 := Apply(w0, e0, t);
    assert w1.log == one && w1.open == one;
    var w2 := Apply(w1, e1, t);
    assert one[1..] == [] && !IsFresh(one[0].at, 300, t);
    assert Reap(one, 300, t) == Reap(one[1..], 300, t);
    assert w2.log == [] && w2.open == one;
    var w3 := Apply(w2, e2, t);
    assert w3.open == one + [Slot("a", 300)];
    hide Apply, Reap, TimesOf, AtCapacity;
    assert [e0, e1, e2][1..] == [e1, e2] && [e1, e2][1..] == [e2] && [e2][1..] == [];
    assert Valid(w3, [], t) && Exec(w3, [], t) == w3;
    assert Valid(w2, [e2], t) && Exec(w2, [e2], t) == w3;
    assert Valid(w1, [e1, e2], t) && Exec(w1, [e1, e2], t) == w3;
    assert Valid(w0, [e0, e1, e2], t) && Exec(w0, [e0, e1, e2], t) == w3;
  }
}
