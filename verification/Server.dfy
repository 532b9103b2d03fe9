/** Authentication, presence events, hot reload and the reaper (src/auth.rs, src/presence.rs,
    src/server.rs): who changes the shared account table and the shared tracker. */
module Server {
  import opened Append
  import opened Options
  import opened Paths
  import opened Containment
  import opened Ledger
  import opened Config
  import opened Accounts
  import opened Limits
  import LimitsRuns
  import opened Store
  import opened StoreStream
  import opened Backend

  datatype AuthResult = Admitted(username: string) | BadPassword | TlsRequired | LimitReached

  datatype Presence = LoggedIn | LoggedOut

  /** The checks that come before the admission. */
  function CheckCredentials(accounts: map<string, Account>, login: string, password: string,
                            verifies: (string, string) -> bool): Option<Account> {
    if login in accounts && verifies(password, accounts[login].hash) then Some(accounts[login]) else None
  }

  /** The account of the camera or viewer that logs in under this name. */
  ghost predicate IsAccountOf(cfg: Config, login: string, account: Account) {
    || (exists i ::
          && 0 <= i < |cfg.cameras| && cfg.cameras[i].Login() == login
          && account == CameraAccount(cfg, cfg.cameras[i]))
    || (exists i ::
          && 0 <= i < |cfg.viewers| && cfg.viewers[i].name == login
          && account == ViewerAccount(cfg, cfg.viewers[i]))
  }

  /** Nobody logs in under this name. */
  ghost predicate IsNoLogin(cfg: Config, login: string) {
    login !in Logins(cfg.cameras) && login !in ViewerNames(cfg.viewers)
  }

  /** The declared account at some place logs in under this name. */
  ghost predicate DeclaredFor(all: seq<Account>, login: string, account: Account) {
    exists k :: 0 <= k < |all| && all[k] == account && account.username == login
  }

  /** Cameras come first among the declared accounts, then viewers. */
  lemma DeclaredIsAccount(cfg: Config, login: string, a: Account)
    ensures DeclaredFor(Declared(cfg), login, a) <==> IsAccountOf(cfg, login, a)
  {
    var all, n := Declared(cfg), |cfg.cameras|;
    assert forall i :: 0 <= i < n ==> all[i] == CameraAccount(cfg, cfg.cameras[i]);
    assert forall i :: 0 <= i < |cfg.viewers| ==> all[n + i] == ViewerAccount(cfg, cfg.viewers[i]);
    hide Declared, ScopeOf, JoinName;
    if DeclaredFor(all, login, a) {
      var k :| 0 <= k < |all| && all[k] == a && a.username == login;
      if k >= n {
        assert all[k] == ViewerAccount(cfg, cfg.viewers[k - n]);
      }
    }
  }

  lemma LookupIn(all: seq<Account>, login: string)
    requires Distinct(all, {})
    ensures
      var m := ByLogin(all);
      if login in m then forall a :: DeclaredFor(all, login, a) <==> a == m[login]
      else forall a :: !DeclaredFor(all, login, a)
  {
    InsertFrom(map[], all, login);
    forall k | 0 <= k < |all|
      ensures all[k].username in ByLogin(all) && ByLogin(all)[all[k].username] == all[k]
    {
      InsertHolds(map[], all, k);
    }
    hide ByLogin;
  }

  /** Looking a name up in the accounts of a validated configuration finds its one camera or
      viewer, with that entry's own role, and finds nothing exactly if there is none. */
  lemma LookupFindsDeclared(cfg: Config, parses: string -> bool, login: string)
    requires ValidConfig(cfg, parses)
    ensures
      var m := ByLogin(Declared(cfg));
      if login in m then forall a :: IsAccountOf(cfg, login, a) <==> a == m[login] else IsNoLogin(cfg, login)
  {
    ValidIsDistinct(cfg, parses);
    LookupIn(Declared(cfg), login);
    forall a {
      DeclaredIsAccount(cfg, login, a);
    }
    if login !in ByLogin(Declared(cfg)) {
      NoAccountNoLogin(cfg, login);
    }
  }

  lemma NoAccountNoLogin(cfg: Config, login: string)
    requires forall a :: !IsAccountOf(cfg, login, a)
    ensures IsNoLogin(cfg, login)
  {
    forall i | 0 <= i < |cfg.cameras|
      ensures cfg.cameras[i].Login() != login
    {
      assert cfg.cameras[i].Login() == login ==> IsAccountOf(cfg, login, CameraAccount(cfg, cfg.cameras[i]));
    }
    forall i | 0 <= i < |cfg.viewers|
      ensures cfg.viewers[i].name != login
    {
      assert cfg.viewers[i].name == login ==> IsAccountOf(cfg, login, ViewerAccount(cfg, cfg.viewers[i]));
    }
  }

  /** Whose password the gate compares, and who must use TLS: the account of that name, so the camera
      or viewer that declares it. */
  lemma GateDecides(cfg: Config, parses: string -> bool, login: string, password: string,
                    verifies: (string, string) -> bool)
    requires ValidConfig(cfg, parses)
    ensures
      var found := CheckCredentials(ByLogin(Declared(cfg)), login, password, verifies);
      && (found.None? <==> forall a :: IsAccountOf(cfg, login, a) ==> !verifies(password, a.hash))
      && (forall i :: 0 <= i < |cfg.cameras| && cfg.cameras[i].Login() == login ==>
            && (found.None? <==> !verifies(password, cfg.cameras[i].hash))
            && (found.Some? ==> (found.value.requireTls <==> cfg.cameras[i].requireTls == Some(true))))
      && (forall i :: 0 <= i < |cfg.viewers| && cfg.viewers[i].name == login ==>
            && (found.None? <==> !verifies(password, cfg.viewers[i].hash))
            && (found.Some? ==> !found.value.requireTls))
  {
    LookupFindsDeclared(cfg, parses, login);
    var m := ByLogin(Declared(cfg));
    forall i | 0 <= i < |cfg.cameras| && cfg.cameras[i].Login() == login
      ensures login in m && m[login] == CameraAccount(cfg, cfg.cameras[i])
    {
      ValidBuildsLossless(cfg, parses, i);
    }
    forall i | 0 <= i < |cfg.viewers| && cfg.viewers[i].name == login
      ensures login in m && m[login] == ViewerAccount(cfg, cfg.viewers[i])
    {
      ValidBuildsLossless(cfg, parses, i);
    }
    if login !in m {
      assert forall a :: !IsAccountOf(cfg, login, a) by {
        NobodyHasIt(cfg, login);
      }
    } else {
      assert IsAccountOf(cfg, login, m[login]);
    }
    hide ByLogin, Declared, IsAccountOf, ValidConfig, ScopeOf, JoinName;
  }

  lemma NobodyHasIt(cfg: Config, login: string)
    requires IsNoLogin(cfg, login)
    ensures forall a :: !IsAccountOf(cfg, login, a)
  {
    forall i | 0 <= i < |cfg.cameras|
      ensures cfg.cameras[i].Login() != login
    {
      assert cfg.cameras[i] in cfg.cameras;
    }
    forall i | 0 <= i < |cfg.viewers|
      ensures cfg.viewers[i].name != login
    {
      assert cfg.viewers[i] in cfg.viewers;
    }
  }

  // ------------------------------------------------------------------ home directories

  /** The homes of the first `n` cameras, with their ancestors. */
  function HomeDirs(cfg: Config, n: nat): (r: set<Path>)
    requires n <= |cfg.cameras|
    ensures forall i :: 0 <= i < n ==> Chain(HomeOf(cfg, cfg.cameras[i])) <= r
  {
    if n == 0 then {} else HomeDirs(cfg, n - 1) + Chain(HomeOf(cfg, cfg.cameras[n - 1]))
  }

  /** Those are the homes of these cameras and their ancestors, no others. */
  lemma {:induction false} HomeDirsExactly(cfg: Config, n: nat, q: Path)
    requires n <= |cfg.cameras|
    ensures q in HomeDirs(cfg, n) <==> exists i :: 0 <= i < n && q <= HomeOf(cfg, cfg.cameras[i])
  {
    if n > 0 {
      hide HomeOf, Chain, ProperPrefixes;
      HomeDirsExactly(cfg, n - 1, q);
      var home := HomeOf(cfg, cfg.cameras[n - 1]);
      ChainExactly(home, q);
      if q <= home {
        assert q in HomeDirs(cfg, n);
      } else if q in HomeDirs(cfg, n) {
        assert q in HomeDirs(cfg, n - 1);
      }
    }
  }

  /** The home of the i-th camera can be made: the call works and meets no file. */
  predicate CanMake(cfg: Config, names: map<Path, nat>, works: nat -> bool, i: nat)
    requires i < |cfg.cameras|
  {
    works(i) && Chain(HomeOf(cfg, cfg.cameras[i])) !! names.Keys
  }

  /** ensure_home_dirs: makes the homes in order, up to the first that cannot be made; of that one a
      failing call leaves the first `left` ancestors. */
  method EnsureHomeDirs(disk: Disk, cfg: Config, works: nat -> bool, left: nat -> nat)
    returns (ok: bool, ghost made: nat)
    modifies disk`dirs
    ensures made <= |cfg.cameras|
    ensures forall i :: 0 <= i < made ==> CanMake(cfg, disk.names, works, i)
    ensures if ok then made == |cfg.cameras| else made < |cfg.cameras| && !CanMake(cfg, disk.names, works, made)
    ensures
      disk.dirs == old(disk.dirs) + HomeDirs(cfg, made)
                   + if ok then {}
                     else MadeDirs(old(disk.Snapshot()), HomeOf(cfg, cfg.cameras[made]), works(made), left(made))
  {
    hide ProperPrefixes, Lexical, JoinName, HomeOf, Chain;
    made := 0;
    var i := 0;
    while i < |cfg.cameras|
      invariant 0 <= i == made <= |cfg.cameras|
      invariant disk.dirs == old(disk.dirs) + HomeDirs(cfg, i)
      invariant forall j :: 0 <= j < i ==> CanMake(cfg, disk.names, works, j)
    {
      ok := MakeHome(disk, HomeOf(cfg, cfg.cameras[i]), works(i), left(i));
      if !ok {
        return;
      }
      i := i + 1;
      made := i;
    }
    ok := true;
  }

  method MakeHome(disk: Disk, home: Path, works: bool, left: nat) returns (ok: bool)
    modifies disk`dirs
    ensures ok == (works && Chain(home) !! disk.names.Keys)
    ensures ok ==> disk.dirs == old(disk.dirs) + Chain(home)
    ensures disk.dirs == old(disk.dirs) + MadeDirs(old(disk.Snapshot()), home, works, left)
  {
    var done, _ := disk.MakeDirs(home, works, left);
    ok := done;
  }

  /** Once its home is made, a camera whose home is written without `..` can resolve every path
      without `..`, to the place it names below the home. */
  lemma HomeResolves(cfg: Config, cam: CameraCfg, s: State, virt: seq<VirtualComp>)
    requires Chain(HomeOf(cfg, cam)) <= s.dirs && AllNames(JoinName(cfg.root, cam.name)) && !AnyClimbs(virt)
    ensures
      Resolve(TreeOf(s), UserView(CameraAccount(cfg, cam).role), virt) == Success(HomeOf(cfg, cam) + Normals(virt))
  {
    var home := JoinName(cfg.root, cam.name);
    var p := NamesOf(home);
    assert home == Names(p);
    hide JoinName;
    NamesAreLexical(p);
    hide Lexical;
    var fs := TreeOf(s);
    forall i | 0 <= i <= |p|
      ensures IsDir(fs, p[..i])
    {
      assert p[..i] in ProperPrefixes(p) || p[..i] == p;
    }
    hide Resolve;
    StandingBase(fs, p);
    ResolvesAt(fs, p, virt);
  }

  lemma NamesAreLexical(p: Path)
    ensures Lexical([], Names(p)) == p
  {
    LexicalNames([], [], p);
    assert [] + Names(p) == Names(p) && [] + p == p;
  }

  lemma ResolvesAt(fs: Tree, p: Path, virt: seq<VirtualComp>)
    requires LinkFree(fs) && Canonicalize(fs, Names(p)) == Some(p) && !AnyClimbs(virt)
    ensures Resolve(fs, Single(Names(p)), virt) == Success(p + Normals(virt))
  {
    NamesAreLexical(p);
    ResolvedExactly(fs, Names(p), Normals(virt));
  }

  // ------------------------------------------------------------------ the server

  ghost function AdmitAt(now: nat, username: string): LimitsRuns.Timed {
    LimitsRuns.Timed(now, LimitsRuns.AdmitEvent(username))
  }

  /** The logout of that open session, if it is one of this account. */
  ghost function LogoutAt(w: LimitsRuns.World, now: nat, username: string, session: nat): LimitsRuns.Timed {
    LimitsRuns.Timed(now,
      if session < |w.open| && w.open[session].user == username then LimitsRuns.LogoutEvent(session)
      else LimitsRuns.StrayEvent(username))
  }

  class Server {
    var accounts: map<string, Account>
    const tracker: SessionTracker
    const parses: string -> bool
    ghost var config: Config                 // the one the accounts and caps come from
    ghost const initial: Caps
    ghost var events: seq<LimitsRuns.Timed>  // what happened to the tracker so far

    /** The tracker is where its run of events led it. */
    ghost predicate Valid()
      reads this, tracker
    {
      && tracker.Valid() && tracker.Limits() == config.caps
      && accounts == ByLogin(Declared(config)) && ValidConfig(config, parses)
      && LimitsRuns.Valid(LimitsRuns.Start(initial), events, SESSION_TTL_SECS)
      && World().log == tracker.log && World().caps == config.caps
    }

    /** The run so far, with the sessions that are open. */
    ghost function World(): LimitsRuns.World
      reads this
      requires LimitsRuns.Valid(LimitsRuns.Start(initial), events, SESSION_TTL_SECS)
    {
      LimitsRuns.Exec(LimitsRuns.Start(initial), events, SESSION_TTL_SECS)
    }

    /** The event can be added to the run. */
    lemma Next(e: LimitsRuns.Timed)
      requires LimitsRuns.Valid(LimitsRuns.Start(initial), events, SESSION_TTL_SECS) && LimitsRuns.Enabled(World(), e)
      ensures LimitsRuns.Valid(LimitsRuns.Start(initial), events + [e], SESSION_TTL_SECS)
      ensures LimitsRuns.Exec(LimitsRuns.Start(initial), events + [e], SESSION_TTL_SECS)
              == LimitsRuns.Apply(World(), e, SESSION_TTL_SECS)
    {
      LimitsRuns.ExecSnoc(LimitsRuns.Start(initial), events, e, SESSION_TTL_SECS);
    }

    /** At any time, whatever happened: the slots taken are within the larger of their cap and their
        number when the caps were last set, and, where the reaper ran on time, none is 360 seconds
        old. */
    lemma SlotsBounded(user: string)
      requires Valid()
      ensures |tracker.log| <= LimitsRuns.Max(tracker.Limits().maxGlobal, |World().base|)
      ensures tracker.Limits().maxPerAccount.Some? ==>
                |TimesOf(tracker.log, user)|
                <= LimitsRuns.Max(tracker.Limits().maxPerAccount.value, |TimesOf(World().base, user)|)
      ensures LimitsRuns.Punctual(LimitsRuns.Start(initial), events, SESSION_TTL_SECS, REAP_INTERVAL_SECS) ==>
                forall i :: 0 <= i < |tracker.log| ==> World().clock < tracker.log[i].at + 360
    {
      LimitsRuns.CapsAlwaysHold(initial, events, SESSION_TTL_SECS, user);
      if LimitsRuns.Punctual(LimitsRuns.Start(initial), events, SESSION_TTL_SECS, REAP_INTERVAL_SECS) {
        forall i | 0 <= i < |tracker.log|
          ensures World().clock < tracker.log[i].at + 360
        {
          LimitsRuns.ServerLeakBound(initial, events, i);
        }
      }
    }

    constructor (cfg: Config, parses: string -> bool)
      requires ValidConfig(cfg, parses)
      ensures Valid() && config == cfg && this.parses == parses && fresh(tracker) && tracker.log == []
      ensures initial == cfg.caps && events == []
    {
      var byLogin := Build(cfg);
      accounts := byLogin;
      config := cfg;
      this.parses := parses;
      initial, events := cfg.caps, [];
      tracker := new SessionTracker(cfg.caps.maxGlobal, cfg.caps.maxPerAccount);
    }

    /** A login is admitted exactly if the password matches, the channel is as secure as the
        account demands, and neither cap is reached; then, and only then, a slot is taken. */
    method Authenticate(username: string, password: string, secure: bool, verifies: (string, string) -> bool, now: nat)
      returns (r: AuthResult)
      requires Valid() && World().clock <= now
      modifies this`events, tracker
      ensures Valid() && tracker.Limits() == old(tracker.Limits())
      ensures events == old(events) + if r.Admitted? || r.LimitReached? then [AdmitAt(now, username)] else []
      ensures
        var found := CheckCredentials(accounts, username, password, verifies);
        r == if found.None? then BadPassword
             else if found.value.requireTls && !secure then TlsRequired
             else if AtCapacity(old(tracker.log), tracker.Limits(), username) then LimitReached
             else Admitted(username)
      ensures r == BadPassword <==> forall a :: IsAccountOf(config, username, a) ==> !verifies(password, a.hash)
      ensures forall i :: 0 <= i < |config.cameras| && config.cameras[i].Login() == username ==>
        && (r == BadPassword <==> !verifies(password, config.cameras[i].hash))
        && (r == TlsRequired <==>
              verifies(password, config.cameras[i].hash) && config.cameras[i].requireTls == Some(true) && !secure)
      ensures forall i :: 0 <= i < |config.viewers| && config.viewers[i].name == username ==>
        (r == BadPassword <==> !verifies(password, config.viewers[i].hash)) && r != TlsRequired
      ensures r.Admitted? || r.LimitReached? ==>
        (r.LimitReached? <==>
          || |old(tracker.log)| + 1 > config.caps.maxGlobal
          || (config.caps.maxPerAccount.Some?
              && |set i | 0 <= i < |old(tracker.log)| && old(tracker.log)[i].user == username| + 1
                 > config.caps.maxPerAccount.value))
      ensures r.Admitted? ==> r.username == username
      ensures tracker.log == if r.Admitted? then old(tracker.log) + [Slot(username, now)] else old(tracker.log)
    {
      GateDecides(config, parses, username, password, verifies);
      hide IsAccountOf, ByLogin, Declared, ValidConfig;
      var found := CheckCredentials(accounts, username, password, verifies);
      if found.None? {
        return BadPassword;
      }
      if found.value.requireTls && !secure {
        return TlsRequired;
      }
      Next(AdmitAt(now, username));
      events := events + [AdmitAt(now, username)];
      var ok := tracker.TryAdmit(username, now);
      r := if ok then Admitted(username) else LimitReached;
    }

    /** Admission counted at the gate; a presence LoggedIn must not count again. The event does not
        say which session of the account ended; `session` does. */
    method ReceivePresence(event: Presence, username: string, now: nat, ghost session: nat)
      requires Valid() && World().clock <= now
      modifies this`events, tracker
      ensures Valid() && tracker.Limits() == old(tracker.Limits())
      ensures tracker.log == if event.LoggedIn? then old(tracker.log) else Logout(old(tracker.log), username)
      ensures events == old(events) + if event.LoggedIn? then [] else [LogoutAt(old(World()), now, username, session)]
      ensures
        var open := old(World()).open;
        World().open == if event.LoggedOut? && session < |open| && open[session].user == username
                        then open[..session] + open[session + 1..] else open
      ensures World().clock == if event.LoggedOut? then now else old(World()).clock
    {
      if event.LoggedOut? {
        ghost var e := LogoutAt(World(), now, username, session);
        Next(e);
        events := events + [e];
        tracker.OnLogout(username);
      }
    }

    /** The detail lookup after a login: the account of the configuration loaded last, or nothing
        if that has no such login. */
    method ProvideUser(username: string) returns (r: Option<Account>)
      requires Valid()
      ensures r.Some? ==> forall a :: IsAccountOf(config, username, a) <==> a == r.value
      ensures r.None? ==> IsNoLogin(config, username)
    {
      LookupFindsDeclared(config, parses, username);
      r := if username in accounts then Some(accounts[username]) else None;
    }

    /** One tick of the reaper task. */
    method ReaperTick(now: nat) returns (reaped: U32)
      requires Valid() && World().clock <= now
      modifies this`events, tracker
      ensures Valid() && tracker.Limits() == old(tracker.Limits())
      ensures tracker.log == Ledger.Reap(old(tracker.log), now, SESSION_TTL_SECS)
      ensures forall x ::
        multiset(tracker.log)[x] == if now < x.at + 300 then multiset(old(tracker.log))[x] else 0
      ensures reaped == |old(tracker.log)| - |tracker.log|
      ensures events == old(events) + [LimitsRuns.Timed(now, LimitsRuns.ReapEvent)]
    {
      Next(LimitsRuns.Timed(now, LimitsRuns.ReapEvent));
      events := events + [LimitsRuns.Timed(now, LimitsRuns.ReapEvent)];
      ghost var before := tracker.log;
      reaped := tracker.Reap(SESSION_TTL_SECS, now);
      forall x {
        ReapKeepsTheYoung(before, now, SESSION_TTL_SECS, x);
      }
    }

    /** reload_config: `loaded` is the configuration read and parsed, if it could be; `works` says
        which home directories the system lets it create. Either accounts and caps are both
        replaced, with every home in place, or neither is; the sessions stay in any case. Homes made
        before the one that failed stay, too. */
    method Reload(disk: Disk, loaded: Option<Config>, works: nat -> bool, left: nat -> nat, now: nat)
      returns (ok: bool)
      requires Valid() && World().clock <= now
      modifies this, tracker, disk`dirs
      ensures Valid() && tracker.log == old(tracker.log)
      ensures
        ok <==> loaded.Some? && ValidConfig(loaded.value, parses)
                && forall i :: 0 <= i < |loaded.value.cameras| ==> CanMake(loaded.value, disk.names, works, i)
      ensures config == if ok then loaded.value else old(config)
      ensures events == old(events)
                        + if ok then [LimitsRuns.Timed(now, LimitsRuns.CapsEvent(loaded.value.caps))] else []
      ensures !ok ==> accounts == old(accounts) && tracker.Limits() == old(tracker.Limits())
      ensures ok ==> accounts == ByLogin(Declared(loaded.value)) && tracker.Limits() == loaded.value.caps
      ensures ok ==> disk.dirs == old(disk.dirs) + HomeDirs(loaded.value, |loaded.value.cameras|)
      ensures loaded.None? || !ValidConfig(loaded.value, parses) ==> disk.dirs == old(disk.dirs)
      ensures old(disk.dirs) <= disk.dirs
    {
      if loaded.None? {
        return false;
      }
      var cfg := loaded.value;
      var error := Validate(cfg, parses);
      if error.Some? {
        return false;
      }
      var homes, _ := EnsureHomeDirs(disk, cfg, works, left);
      if !homes {
        return false;
      }
      var byLogin := Build(cfg);
      Next(LimitsRuns.Timed(now, LimitsRuns.CapsEvent(cfg.caps)));
      events := events + [LimitsRuns.Timed(now, LimitsRuns.CapsEvent(cfg.caps))];
      accounts := byLogin;
      tracker.SetLimits(cfg.caps.maxGlobal, cfg.caps.maxPerAccount);
      config := cfg;
      ok := true;
    }
  }
}
