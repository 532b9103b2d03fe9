/** Accounts, roles and scopes built from the configuration (src/account.rs). */
module Accounts {
  import opened Append
  import opened Options
  import opened Paths
  import opened Containment
  import opened Config

  datatype Role = Uploader(home: seq<Comp>) | Viewer(scope: ScopeMap)

  datatype Account = Account(username: string, hash: string, role: Role, requireTls: bool)

  // ------------------------------------------------------------------ joining a name to the root

  function Split(s: string, piece: string): (r: seq<string>) {
    if s == "" then [piece]
    else if s[0] == '/' then [piece] + Split(s[1..], "")
    else Split(s[1..], piece + [s[0]])
  }

  function CompsOf(pieces: seq<string>): (r: seq<Comp>) {
    if pieces == [] then []
    else
      (if pieces[0] == "" || pieces[0] == "." then [] else if pieces[0] == ".." then [Up] else [Name(pieces[0])])
      + CompsOf(pieces[1..])
  }

  /** `root.join(name)`: an absolute name replaces the root, any other is appended. */
  function JoinName(root: seq<Comp>, name: string): seq<Comp> {
    if name != "" && name[0] == '/' then CompsOf(Split(name, "")) else root + CompsOf(Split(name, ""))
  }

  /** A single plain path component. */
  predicate PlainName(name: string) {
    name != "" && name != "." && name != ".." && '/' !in name
  }

  lemma {:induction false} SplitPlain(s: string, piece: string)
    requires '/' !in s
    ensures Split(s, piece) == [piece + s]
  {
    if s == "" {
      assert piece + s == piece;
    } else {
      SplitPlain(s[1..], piece + [s[0]]);
      assert piece + [s[0]] + s[1..] == piece + s;
    }
  }

  lemma PlainJoin(root: seq<Comp>, name: string)
    requires PlainName(name)
    ensures JoinName(root, name) == root + [Name(name)]
  {
    SplitPlain(name, "");
    assert "" + name == name;
    assert CompsOf([name]) == [Name(name)] by {
      assert [name][1..] == [];
      assert CompsOf([name]) == [Name(name)] + CompsOf([]);
    }
  }

  lemma {:induction false} SplitSlash(s: string, t: string, piece: string)
    ensures Split(s + "/" + t, piece) == Split(s, piece) + Split(t, "")
    decreases |s|
  {
    var whole := s + "/" + t;
    if s == "" {
      assert whole[0] == '/' && whole[1..] == t;
    } else {
      assert whole[0] == s[0] && whole[1..] == s[1..] + "/" + t;
      if s[0] == '/' {
        SplitSlash(s[1..], t, "");
      } else {
        SplitSlash(s[1..], t, piece + [s[0]]);
      }
    }
  }

  lemma {:induction false} CompsOfConcat(a: seq<string>, b: seq<string>)
    ensures CompsOf(a + b) == CompsOf(a) + CompsOf(b)
    decreases |a|
  {
    if a == [] {
      assert a + b == b;
    } else {
      assert (a + b)[0] == a[0] && (a + b)[1..] == a[1..] + b;
      CompsOfConcat(a[1..], b);
    }
  }

  /** Together with PlainJoin this determines the join of every name: empty and `.` components add
      nothing, `..` adds a step up, a name with a slash joins piece by piece, and a leading slash
      replaces the root. */
  lemma JoinBySlash(root: seq<Comp>, s: string, t: string)
    ensures JoinName(root, "") == root && JoinName(root, ".") == root && JoinName(root, "..") == root + [Up]
    ensures JoinName(root, "/" + t) == JoinName([], t)
    ensures s != "" && s[0] != '/' && (t == "" || t[0] != '/') ==>
              JoinName(root, s + "/" + t) == JoinName(JoinName(root, s), t)
  {
    hide CompsOf, Split;
    PieceComps("");
    PieceComps(".");
    PieceComps("..");
    assert root + [] == root;
    SlashComps("", t);
    assert "" + "/" + t == "/" + t;
    assert [] + CompsOf(Split(t, "")) == CompsOf(Split(t, ""));
    SlashComps(s, t);
    assert s != "" ==> (s + "/" + t)[0] == s[0];
    assert (root + CompsOf(Split(s, ""))) + CompsOf(Split(t, ""))
        == root + (CompsOf(Split(s, "")) + CompsOf(Split(t, "")));
  }

  lemma PieceComps(piece: string)
    requires '/' !in piece
    ensures
      CompsOf(Split(piece, ""))
      == if piece == "" || piece == "." then [] else if piece == ".." then [Up] else [Name(piece)]
  {
    SplitPlain(piece, "");
    assert "" + piece == piece;
    CompsOfOne(piece);
  }

  lemma SlashComps(s: string, t: string)
    ensures CompsOf(Split(s + "/" + t, "")) == CompsOf(Split(s, "")) + CompsOf(Split(t, ""))
  {
    SplitSlash(s, t, "");
    CompsOfConcat(Split(s, ""), Split(t, ""));
  }

  lemma CompsOfOne(piece: string)
    ensures
      CompsOf([piece])
      == if piece == "" || piece == "." then [] else if piece == ".." then [Up] else [Name(piece)]
  {
    assert [piece][1..] == [];
  }

  // ------------------------------------------------------------------ scopes

  /** The cameras a list of names stands for; a name that is a group stands for its members. */
  function Expanded(cfg: Config, items: seq<string>): (r: set<string>) {
    if items == [] then {}
    else
      (if items[0] in cfg.groups then (set m | m in cfg.groups[items[0]]) else {items[0]}) + Expanded(cfg, items[1..])
  }

  lemma {:induction false} ExpandedIsUnion(cfg: Config, items: seq<string>, n: string)
    ensures n in Expanded(cfg, items) <==>
              exists it :: it in items && (if it in cfg.groups then n in cfg.groups[it] else n == it)
  {
    if items != [] {
      ExpandedIsUnion(cfg, items[1..], n);
      assert forall it :: it in items <==> it == items[0] || it in items[1..];
    }
  }

  function RootsOf(cfg: Config, names: set<string>): map<string, seq<Comp>> {
    map n | n in names :: JoinName(cfg.root, n)
  }

  function ScopeOf(cfg: Config, scope: Scope): ScopeMap {
    match scope
    case All => Single(cfg.root)
    case List(items) => Multi(RootsOf(cfg, Expanded(cfg, items)))
  }

  method ExpandScope(cfg: Config, scope: Scope) returns (r: ScopeMap)
    ensures r == ScopeOf(cfg, scope)
  {
    match scope
    case All => r := Single(cfg.root);
    case List(items) =>
      var names: set<string> := {};
      for i := 0 to |items|
        invariant names + Expanded(cfg, items[i..]) == Expanded(cfg, items)
      {
        assert items[i..][1..] == items[i + 1..];
        if items[i] in cfg.groups {
          names := names + set m | m in cfg.groups[items[i]];
        } else {
          names := names + {items[i]};
        }
      }
      assert items[|items|..] == [];
      var roots: map<string, seq<Comp>> := map[];
      var todo := names;
      while todo != {}
        invariant todo <= names && roots == RootsOf(cfg, names - todo)
        decreases todo
      {
        var n :| n in todo;
        roots := roots[n := JoinName(cfg.root, n)];
        todo := todo - {n};
      }
      assert names - {} == names;
      r := Multi(roots);
  }

  // ------------------------------------------------------------------ accounts

  function CameraAccount(cfg: Config, cam: CameraCfg): Account {
    Account(cam.Login(), cam.hash, Uploader(JoinName(cfg.root, cam.name)), cam.requireTls == Some(true))
  }

  /** Where the home of a camera lies. */
  function HomeOf(cfg: Config, cam: CameraCfg): Path {
    Lexical([], JoinName(cfg.root, cam.name))
  }

  function ViewerAccount(cfg: Config, v: ViewerCfg): Account {
    Account(v.name, v.hash, Viewer(ScopeOf(cfg, v.scope)), false)
  }

  function CameraAccounts(cfg: Config): (r: seq<Account>)
    ensures |r| == |cfg.cameras|
  {
    seq(|cfg.cameras|, i requires 0 <= i < |cfg.cameras| => CameraAccount(cfg, cfg.cameras[i]))
  }

  function ViewerAccounts(cfg: Config): (r: seq<Account>)
    ensures |r| == |cfg.viewers|
  {
    seq(|cfg.viewers|, i requires 0 <= i < |cfg.viewers| => ViewerAccount(cfg, cfg.viewers[i]))
  }

  /** One account per camera, then one per viewer. */
  function Declared(cfg: Config): (r: seq<Account>)
    ensures |r| == |cfg.cameras| + |cfg.viewers|
  {
    CameraAccounts(cfg) + ViewerAccounts(cfg)
  }

  /** Inserts the accounts by login; a later one replaces an earlier one with the same login. */
  function Insert(m: map<string, Account>, accounts: seq<Account>): map<string, Account>
    decreases |accounts|
  {
    if accounts == [] then m else Insert(m[accounts[0].username := accounts[0]], accounts[1..])
  }

  function ByLogin(accounts: seq<Account>): map<string, Account> {
    Insert(map[], accounts)
  }

  method Build(cfg: Config) returns (byLogin: map<string, Account>)
    ensures byLogin == ByLogin(Declared(cfg))
  {
    byLogin := map[];
    var cameras, viewers := CameraAccounts(cfg), ViewerAccounts(cfg);
    for i := 0 to |cfg.cameras|
      invariant Insert(byLogin, cameras[i..]) == Insert(map[], cameras)
    {
      assert cameras[i..][1..] == cameras[i + 1..];
      var cam := cfg.cameras[i];
      byLogin := byLogin[cam.Login() := CameraAccount(cfg, cam)];
    }
    assert cameras[|cfg.cameras|..] == [];
    ghost var half := byLogin;
    InsertConcat(map[], cameras, viewers);
    for i := 0 to |cfg.viewers|
      invariant Insert(byLogin, viewers[i..]) == Insert(half, viewers)
    {
      assert viewers[i..][1..] == viewers[i + 1..];
      var v := cfg.viewers[i];
      var scope := ExpandScope(cfg, v.scope);
      byLogin := byLogin[v.name := Account(v.name, v.hash, Viewer(scope), false)];
    }
    assert viewers[|cfg.viewers|..] == [];
  }

  lemma {:induction false} InsertConcat(m: map<string, Account>, a: seq<Account>, b: seq<Account>)
    ensures Insert(m, a + b) == Insert(Insert(m, a), b)
    decreases |a|
  {
    if a == [] {
      assert a + b == b;
    } else {
      assert (a + b)[1..] == a[1..] + b;
      InsertConcat(m[a[0].username := a[0]], a[1..], b);
    }
  }

  /** No two accounts share a login, and none has a login in `m`. */
  predicate Distinct(accounts: seq<Account>, taken: set<string>) {
    && (forall i, j :: 0 <= i < j < |accounts| ==> accounts[i].username != accounts[j].username)
    && (forall i :: 0 <= i < |accounts| ==> accounts[i].username !in taken)
  }

  lemma {:induction false} InsertSize(m: map<string, Account>, accounts: seq<Account>)
    ensures |Insert(m, accounts)| <= |m| + |accounts|
    ensures |Insert(m, accounts)| == |m| + |accounts| <==> Distinct(accounts, m.Keys)
    decreases |accounts|
  {
    if accounts != [] {
      var a, rest := accounts[0], accounts[1..];
      var m' := m[a.username := a];
      assert m'.Keys == m.Keys + {a.username};
      assert |m'| == |m'.Keys| && |m| == |m.Keys|;
      InsertSize(m', rest);
      assert accounts == [a] + rest;
      DistinctCons(a, rest, m.Keys);
    }
  }

  lemma DistinctCons(a: Account, rest: seq<Account>, taken: set<string>)
    ensures Distinct([a] + rest, taken) <==> a.username !in taken && Distinct(rest, taken + {a.username})
  {
    var all := [a] + rest;
    assert forall i :: 0 <= i < |rest| ==> all[i + 1] == rest[i];
    if Distinct(all, taken) {
      assert all[0].username !in taken;
      forall i | 0 <= i < |rest|
        ensures rest[i].username !in taken + {a.username}
      {
        assert all[0].username != all[i + 1].username && all[i + 1].username !in taken;
      }
      forall i, j | 0 <= i < j < |rest|
        ensures rest[i].username != rest[j].username
      {
        assert all[i + 1].username != all[j + 1].username;
      }
    }
  }

  lemma {:induction false} InsertKeeps(m: map<string, Account>, accounts: seq<Account>, l: string)
    requires Distinct(accounts, m.Keys) && l in m
    ensures l in Insert(m, accounts) && Insert(m, accounts)[l] == m[l]
    decreases |accounts|
  {
    if accounts != [] {
      var a := accounts[0];
      assert accounts == [a] + accounts[1..];
      DistinctCons(a, accounts[1..], m.Keys);
      assert m[a.username := a].Keys == m.Keys + {a.username};
      InsertKeeps(m[a.username := a], accounts[1..], l);
    }
  }

  lemma {:induction false} InsertHolds(m: map<string, Account>, accounts: seq<Account>, i: nat)
    requires Distinct(accounts, m.Keys) && i < |accounts|
    ensures
      var l := accounts[i].username;
      l in Insert(m, accounts) && Insert(m, accounts)[l] == accounts[i]
    decreases |accounts|
  {
    var a := accounts[0];
    var m' := m[a.username := a];
    assert accounts == [a] + accounts[1..];
    DistinctCons(a, accounts[1..], m.Keys);
    assert m'.Keys == m.Keys + {a.username};
    if i == 0 {
      InsertKeeps(m', accounts[1..], a.username);
    } else {
      InsertHolds(m', accounts[1..], i - 1);
    }
  }

  /** Whatever is found was inserted. */
  lemma {:induction false} InsertFrom(m: map<string, Account>, accounts: seq<Account>, l: string)
    ensures l in Insert(m, accounts) ==> l in m || exists i :: 0 <= i < |accounts| && accounts[i].username == l
    decreases |accounts|
  {
    if accounts != [] {
      InsertFrom(m[accounts[0].username := accounts[0]], accounts[1..], l);
    }
  }

  /** `build` keeps every declared account, and no other, exactly when no two of them share a
      login. */
  lemma BuildLosslessExactly(cfg: Config)
    ensures |ByLogin(Declared(cfg))| == |cfg.cameras| + |cfg.viewers| <==> Distinct(Declared(cfg), {})
  {
    InsertSize(map[], Declared(cfg));
  }

  lemma ValidIsDistinct(cfg: Config, parses: string -> bool)
    requires ValidConfig(cfg, parses)
    ensures Distinct(Declared(cfg), {})
  {
    var accounts, n := Declared(cfg), |cfg.cameras|;
    forall i, j | 0 <= i < j < |accounts|
      ensures accounts[i].username != accounts[j].username
    {
      if i < n <= j {
        assert cfg.viewers[j - n] in cfg.viewers;
        assert cfg.cameras[i] in cfg.cameras && cfg.cameras[i].Login() in Logins(cfg.cameras);
      }
    }
  }

  /** For a validated configuration there is one account per camera and per viewer and no other,
      and each camera and viewer has its own account with its own role. */
  lemma ValidBuildsLossless(cfg: Config, parses: string -> bool, i: nat)
    requires ValidConfig(cfg, parses)
    ensures
      var m := ByLogin(Declared(cfg));
      && |m| == |cfg.cameras| + |cfg.viewers|
      && (i < |cfg.cameras| ==>
            var cam := cfg.cameras[i];
            var login := if cam.username.Some? then cam.username.value else cam.name;
            && login in m
            && m[login]
               == Account(login, cam.hash, Uploader(JoinName(cfg.root, cam.name)), cam.requireTls == Some(true)))
      && (i < |cfg.viewers| ==>
            var v := cfg.viewers[i];
            v.name in m && m[v.name] == Account(v.name, v.hash, Viewer(ScopeOf(cfg, v.scope)), false))
  {
    var accounts := Declared(cfg);
    ValidIsDistinct(cfg, parses);
    BuildLosslessExactly(cfg);
    if i < |cfg.cameras| {
      InsertHolds(map[], accounts, i);
    }
    if i < |cfg.viewers| {
      InsertHolds(map[], accounts, |cfg.cameras| + i);
    }
  }

  /** A viewer with scope `all` resolves below the archive root and nowhere else; without links, every
      path without `..` to the place it names there. */
  lemma AllReachesRoot(cfg: Config, fs: Tree, virt: seq<VirtualComp>)
    ensures
      var r, root := Resolve(fs, ScopeOf(cfg, All), virt), Canonicalize(fs, cfg.root);
      && (r.Success? ==> root.Some? && root.value <= r.value)
      && (LinkFree(fs) && root.Some? && !AnyClimbs(virt) ==> r == Success(Lexical([], cfg.root) + Normals(virt)))
      && (AnyClimbs(virt) ==> r == Failure(Traversal))
      && (!AnyClimbs(virt) && root.None? ==> r == Failure(NotFound))
  {
    if Resolve(fs, ScopeOf(cfg, All), virt).Success? {
      var chain, tail := ResolvedShape(fs, cfg.root, Normals(virt));
    }
    if LinkFree(fs) {
      ResolvedExactly(fs, cfg.root, Normals(virt));
    }
  }

  /** For a validated configuration, the root names of a list-scoped viewer are the members of its
      groups and the cameras it names, and all of them are declared cameras. */
  lemma ScopeDenotesCameras(cfg: Config, parses: string -> bool, v: ViewerCfg, n: string)
    requires ValidConfig(cfg, parses) && v in cfg.viewers && v.scope.List?
    ensures
      var scope := ScopeOf(cfg, v.scope);
      && scope.Multi?
      && (n in scope.roots <==>
            exists it :: it in v.scope.items && (if it in cfg.groups then n in cfg.groups[it] else n == it))
      && (n in scope.roots ==> n in CameraNames(cfg.cameras) && scope.roots[n] == JoinName(cfg.root, n))
  {
    ExpandedIsUnion(cfg, v.scope.items, n);
    if n in Expanded(cfg, v.scope.items) {
      var it :| it in v.scope.items && (if it in cfg.groups then n in cfg.groups[it] else n == it);
      assert ScopeKnown(cfg, v.scope);
    }
  }
}
