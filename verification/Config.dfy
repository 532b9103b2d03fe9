/** The configuration and its validation (src/config.rs). */
module Config {
  import opened Options
  import opened Paths
  import opened Ledger

  datatype CameraCfg = CameraCfg(name: string, username: Option<string>, hash: string, requireTls: Option<bool>) {
    function Login(): string {
      match username
      case Some(u) => u
      case None => name
    }
  }

  datatype Scope = All | List(items: seq<string>)

  datatype ViewerCfg = ViewerCfg(name: string, hash: string, scope: Scope)

  datatype Config = Config(
    passivePorts: (nat, nat), root: seq<Comp>, cameras: seq<CameraCfg>, groups: map<string, seq<string>>,
    viewers: seq<ViewerCfg>, recipients: Option<seq<string>>, caps: Caps)

  datatype ConfigError =
    | PortsUnordered
    | DuplicateCamera(name: string)
    | DuplicateLogin(login: string)
    | UnknownMember(group: string, member: string)
    | DuplicateViewer(name: string)
    | ViewerIsCamera(name: string)
    | UnknownScope(viewer: string, item: string)
    | NoRecipients
    | BadRecipient

  function CameraNames(cameras: seq<CameraCfg>): set<string> {
    set c | c in cameras :: c.name
  }

  function Logins(cameras: seq<CameraCfg>): set<string> {
    set c | c in cameras :: c.Login()
  }

  function ViewerNames(viewers: seq<ViewerCfg>): set<string> {
    set v | v in viewers :: v.name
  }

  predicate UniqueCameras(cameras: seq<CameraCfg>) {
    forall i, j :: 0 <= i < j < |cameras| ==>
      cameras[i].name != cameras[j].name && cameras[i].Login() != cameras[j].Login()
  }

  predicate UniqueViewers(viewers: seq<ViewerCfg>) {
    forall i, j :: 0 <= i < j < |viewers| ==> viewers[i].name != viewers[j].name
  }

  predicate GroupsKnown(groups: map<string, seq<string>>, names: set<string>) {
    forall g :: g in groups ==> forall m :: m in groups[g] ==> m in names
  }

  predicate ScopeKnown(cfg: Config, scope: Scope) {
    scope.List? ==> forall it :: it in scope.items ==> it in CameraNames(cfg.cameras) || it in cfg.groups
  }

  /** What a valid configuration is; `parses` says which recipient strings are keys. */
  ghost predicate ValidConfig(cfg: Config, parses: string -> bool) {
    && cfg.passivePorts.0 <= cfg.passivePorts.1
    && UniqueCameras(cfg.cameras)
    && GroupsKnown(cfg.groups, CameraNames(cfg.cameras))
    && UniqueViewers(cfg.viewers)
    && (forall v :: v in cfg.viewers ==> v.name !in Logins(cfg.cameras) && ScopeKnown(cfg, v.scope))
    && (cfg.recipients.Some? ==> cfg.recipients.value != [] && forall r :: r in cfg.recipients.value ==> parses(r))
  }

  /** Validity in terms of the entries alone: the ports are ordered; no two cameras share a name, or a
      login, which is the username or else the name; the members of groups are names of cameras; no two
      viewers share a name, and none has a camera's login; the items of a scope are names of cameras or
      groups; and where encryption is configured there are recipients, all of them keys. */
  lemma ValidExactly(cfg: Config, parses: string -> bool)
    ensures
      ValidConfig(cfg, parses) <==>
        && !(cfg.passivePorts.0 > cfg.passivePorts.1)
        && (forall i, j :: 0 <= i < j < |cfg.cameras| ==>
              var a, b := cfg.cameras[i], cfg.cameras[j];
              && a.name != b.name
              && (if a.username.Some? then a.username.value else a.name)
                 != (if b.username.Some? then b.username.value else b.name))
        && (forall g, m :: g in cfg.groups && m in cfg.groups[g] ==>
              exists i :: 0 <= i < |cfg.cameras| && cfg.cameras[i].name == m)
        && (forall i, j :: 0 <= i < j < |cfg.viewers| ==> cfg.viewers[i].name != cfg.viewers[j].name)
        && (forall i, j :: 0 <= i < |cfg.viewers| && 0 <= j < |cfg.cameras| ==>
              var c := cfg.cameras[j];
              cfg.viewers[i].name != if c.username.Some? then c.username.value else c.name)
        && (forall i, it :: 0 <= i < |cfg.viewers| && cfg.viewers[i].scope.List? && it in cfg.viewers[i].scope.items ==>
              it in cfg.groups || exists k :: 0 <= k < |cfg.cameras| && cfg.cameras[k].name == it)
        && (cfg.recipients.Some? ==>
              cfg.recipients.value != [] && forall r :: r in cfg.recipients.value ==> parses(r))
  {
    NamesOfCameras(cfg.cameras);
    assert forall v :: v in cfg.viewers <==> exists i :: 0 <= i < |cfg.viewers| && cfg.viewers[i] == v;
    hide CameraNames, Logins;
    assert forall i :: 0 <= i < |cfg.viewers| ==> cfg.viewers[i] in cfg.viewers;
  }

  lemma NamesOfCameras(cameras: seq<CameraCfg>)
    ensures forall n :: n in CameraNames(cameras) <==> exists i :: 0 <= i < |cameras| && cameras[i].name == n
    ensures forall l :: l in Logins(cameras) <==>
      exists i :: 0 <= i < |cameras|
        && l == if cameras[i].username.Some? then cameras[i].username.value else cameras[i].name
  {
    forall l
      ensures l in Logins(cameras) <==> exists i :: 0 <= i < |cameras| && cameras[i].Login() == l
    {
    }
  }

  /** Two cameras have this name. */
  predicate NameTwice(cameras: seq<CameraCfg>, name: string) {
    exists i, j :: 0 <= i < j < |cameras| && cameras[i].name == name && cameras[j].name == name
  }

  predicate LoginTwice(cameras: seq<CameraCfg>, login: string) {
    exists i, j :: 0 <= i < j < |cameras| && cameras[i].Login() == login && cameras[j].Login() == login
  }

  predicate ViewerTwice(viewers: seq<ViewerCfg>, name: string) {
    exists i, j :: 0 <= i < j < |viewers| && viewers[i].name == name && viewers[j].name == name
  }

  /** The error says something true about the configuration. */
  predicate Explains(cfg: Config, parses: string -> bool, e: ConfigError) {
    match e
    case PortsUnordered => cfg.passivePorts.0 > cfg.passivePorts.1
    case DuplicateCamera(n) => NameTwice(cfg.cameras, n)
    case DuplicateLogin(l) => LoginTwice(cfg.cameras, l)
    case UnknownMember(g, m) => g in cfg.groups && m in cfg.groups[g] && m !in CameraNames(cfg.cameras)
    case DuplicateViewer(n) => ViewerTwice(cfg.viewers, n)
    case ViewerIsCamera(n) => n in ViewerNames(cfg.viewers) && n in Logins(cfg.cameras)
    case UnknownScope(v, it) =>
      && it !in CameraNames(cfg.cameras) && it !in cfg.groups
      && exists i :: 0 <= i < |cfg.viewers| && cfg.viewers[i].name == v
           && cfg.viewers[i].scope.List? && it in cfg.viewers[i].scope.items
    case NoRecipients => cfg.recipients == Some([])
    case BadRecipient => cfg.recipients.Some? && exists r :: r in cfg.recipients.value && !parses(r)
  }

  /** The first camera whose name or login was seen before. */
  method CheckCameras(cameras: seq<CameraCfg>) returns (e: Option<ConfigError>, names: set<string>, logins: set<string>)
    ensures e.None? <==> UniqueCameras(cameras)
    ensures e.None? ==> names == CameraNames(cameras) && logins == Logins(cameras)
    ensures e.Some? ==>
              || (e.value.DuplicateCamera? && NameTwice(cameras, e.value.name))
              || (e.value.DuplicateLogin? && LoginTwice(cameras, e.value.login))
  {
    names, logins := {}, {};
    for i := 0 to |cameras|
      invariant names == CameraNames(cameras[..i]) && logins == Logins(cameras[..i])
      invariant UniqueCameras(cameras[..i])
    {
      var cam := cameras[i];
      assert cameras[..i + 1] == cameras[..i] + [cam];
      if cam.name in names {
        var j :| 0 <= j < i && cameras[j].name == cam.name;
        return Some(DuplicateCamera(cam.name)), names, logins;
      }
      if cam.Login() in logins {
        var j :| 0 <= j < i && cameras[j].Login() == cam.Login();
        return Some(DuplicateLogin(cam.Login())), names, logins;
      }
      names, logins := names + {cam.name}, logins + {cam.Login()};
    }
    assert cameras[..|cameras|] == cameras;
    e := None;
  }

  method CheckGroups(groups: map<string, seq<string>>, names: set<string>) returns (e: Option<ConfigError>)
    ensures e.None? <==> GroupsKnown(groups, names)
    ensures e.Some? ==>
              && e.value.UnknownMember? && e.value.group in groups
              && e.value.member in groups[e.value.group] && e.value.member !in names
  {
    var todo := groups.Keys;
    while todo != {}
      invariant todo <= groups.Keys
      invariant forall g :: g in groups && g !in todo ==> forall m :: m in groups[g] ==> m in names
      decreases todo
    {
      var g :| g in todo;
      var members := groups[g];
      for i := 0 to |members|
        invariant forall k :: 0 <= k < i ==> members[k] in names
      {
        if members[i] !in names {
          return Some(UnknownMember(g, members[i]));
        }
      }
      todo := todo - {g};
    }
    e := None;
  }

  /** Viewer names are unique and no camera logs in under one. */
  method CheckViewerNames(viewers: seq<ViewerCfg>, logins: set<string>) returns (e: Option<ConfigError>)
    ensures e.None? <==> UniqueViewers(viewers) && forall v :: v in viewers ==> v.name !in logins
    ensures e.Some? ==>
              || (e.value.DuplicateViewer? && ViewerTwice(viewers, e.value.name))
              || (e.value.ViewerIsCamera? && e.value.name in ViewerNames(viewers) * logins)
  {
    var seen: set<string> := {};
    for i := 0 to |viewers|
      invariant seen == ViewerNames(viewers[..i]) && UniqueViewers(viewers[..i])
      invariant forall k :: 0 <= k < i ==> viewers[k].name !in logins
    {
      var v := viewers[i];
      assert viewers[..i + 1] == viewers[..i] + [v];
      assert v in viewers && v.name in ViewerNames(viewers);
      if v.name in seen {
        var j :| 0 <= j < i && viewers[j].name == v.name;
        return Some(DuplicateViewer(v.name));
      }
      if v.name in logins {
        return Some(ViewerIsCamera(v.name));
      }
      seen := seen + {v.name};
    }
    assert viewers[..|viewers|] == viewers;
    e := None;
  }

  method CheckScopes(cfg: Config, names: set<string>) returns (e: Option<ConfigError>)
    requires names == CameraNames(cfg.cameras)
    ensures e.None? <==> forall v :: v in cfg.viewers ==> ScopeKnown(cfg, v.scope)
    ensures e.Some? ==>
              && e.value.UnknownScope? && e.value.item !in names && e.value.item !in cfg.groups
              && exists i :: 0 <= i < |cfg.viewers| && cfg.viewers[i].name == e.value.viewer
                   && cfg.viewers[i].scope.List? && e.value.item in cfg.viewers[i].scope.items
  {
    for i := 0 to |cfg.viewers|
      invariant forall k :: 0 <= k < i ==> ScopeKnown(cfg, cfg.viewers[k].scope)
    {
      var v := cfg.viewers[i];
      if v.scope.List? {
        for k := 0 to |v.scope.items|
          invariant forall n :: 0 <= n < k ==> v.scope.items[n] in names || v.scope.items[n] in cfg.groups
        {
          if v.scope.items[k] !in names && v.scope.items[k] !in cfg.groups {
            assert !ScopeKnown(cfg, v.scope);
            return Some(UnknownScope(v.name, v.scope.items[k]));
          }
        }
      }
    }
    e := None;
  }

  /** Config::validate accepts exactly the valid configurations, and says of any other what is wrong
      with it. */
  method Validate(cfg: Config, parses: string -> bool) returns (e: Option<ConfigError>)
    ensures e.None? <==> ValidConfig(cfg, parses)
    ensures e.Some? ==> Explains(cfg, parses, e.value)
  {
    if cfg.passivePorts.0 > cfg.passivePorts.1 {
      return Some(PortsUnordered);
    }
    var names, logins;
    e, names, logins := CheckCameras(cfg.cameras);
    if e.Some? {
      return;
    }
    e := CheckGroups(cfg.groups, names);
    if e.Some? {
      return;
    }
    e := CheckViewerNames(cfg.viewers, logins);
    if e.Some? {
      return;
    }
    e := CheckScopes(cfg, names);
    if e.Some? {
      return;
    }
    if cfg.recipients.Some? {
      if cfg.recipients.value == [] {
        return Some(NoRecipients);
      }
      if r :| r in cfg.recipients.value && !parses(r) {
        return Some(BadRecipient);
      }
    }
  }
}
