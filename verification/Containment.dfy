/** `contained`, `normalize` and ScopeMap (src/paths.rs): the loop that drops components until an
    ancestor canonicalizes, its specification by the longest canonicalizable prefix, and what a
    resolved path denotes. */
module Containment {
  import opened Append
  import opened Options
  import opened Paths

  // ------------------------------------------------------------------ specification

  /** The prefixes of length at most `k`, and no others, canonicalize. */
  ghost predicate LongestCanonical(fs: Tree, p: seq<Comp>, k: nat) {
    k <= |p| && forall j :: 0 <= j <= |p| ==> (Canonicalize(fs, p[..j]).Some? <==> j <= k)
  }

  function LongestFrom(fs: Tree, p: seq<Comp>, k: nat): (r: nat)
    requires k <= |p|
    ensures r <= k
  {
    if k == 0 || Canonicalize(fs, p[..k]).Some? then k else LongestFrom(fs, p, k - 1)
  }

  lemma {:induction false} LongestFound(fs: Tree, p: seq<Comp>, k: nat)
    requires k <= |p| && forall j :: k < j <= |p| ==> Canonicalize(fs, p[..j]).None?
    ensures LongestCanonical(fs, p, LongestFrom(fs, p, k))
  {
    if k == 0 || Canonicalize(fs, p[..k]).Some? {
      forall j | 0 <= j <= k
        ensures Canonicalize(fs, p[..j]).Some?
      {
        if j == 0 {
          assert p[..0] == [];
        } else {
          assert p[..k] == p[..j] + p[j..k];
          CanonicalizePrefix(fs, p[..j], p[j..k]);
        }
      }
    } else {
      LongestFound(fs, p, k - 1);
    }
  }

  predicate AllNames(p: seq<Comp>) {
    forall i :: 0 <= i < |p| ==> p[i].Name?
  }

  function NamesOf(p: seq<Comp>): (r: Path)
    requires AllNames(p)
  {
    seq(|p|, i requires 0 <= i < |p| => p[i].name)
  }

  function Jailed(jail: Path, p: Path): Resolved {
    if jail <= p then Success(p) else Failure(Traversal)
  }

  /** The path `contained` computes once the first `k` components are its longest canonicalizable
      ancestor: their canonical form with the rest of the names appended, if that is inside. */
  function ContainedAt(fs: Tree, jail: Path, candidate: seq<Comp>, k: nat): Resolved
    requires k <= |candidate| && Canonicalize(fs, candidate[..k]).Some?
  {
    if AllNames(candidate[k..]) then Jailed(jail, Canonicalize(fs, candidate[..k]).value + NamesOf(candidate[k..]))
    else Failure(NotFound)
  }

  function Contained(fs: Tree, base: seq<Comp>, candidate: seq<Comp>): Resolved {
    match Canonicalize(fs, base)
    case None => Failure(NotFound)
    case Some(jail) =>
      var k := LongestFrom(fs, candidate, |candidate|);
      if Canonicalize(fs, candidate[..k]).Some? then ContainedAt(fs, jail, candidate, k) else Failure(NotFound)
  }

  // ------------------------------------------------------------------ the loop

  method ContainedLoop(fs: Tree, base: seq<Comp>, candidate: seq<Comp>) returns (r: Resolved)
    ensures r == Contained(fs, base, candidate)
    ensures forall k: nat :: LongestCanonical(fs, candidate, k) && Canonicalize(fs, base).Some? ==>
              Canonicalize(fs, candidate[..k]).Some? && r == ContainedAt(fs, Canonicalize(fs, base).value, candidate, k)
  {
    LongestFound(fs, candidate, |candidate|);
    var longest := LongestFrom(fs, candidate, |candidate|);
    assert forall k: nat :: LongestCanonical(fs, candidate, k) ==> k == longest by {
      forall k: nat | LongestCanonical(fs, candidate, k)
        ensures k == longest
      {
        assert Canonicalize(fs, candidate[..k]).Some? && Canonicalize(fs, candidate[..longest]).Some?;
      }
    }
    var jail := Canonicalize(fs, base);
    if jail.None? {
      return Failure(NotFound);
    }
    var whole := Canonicalize(fs, candidate);
    assert candidate[..|candidate|] == candidate;
    if whole.Some? {
      assert whole.value + NamesOf(candidate[|candidate|..]) == whole.value;
      return Jailed(jail.value, whole.value);
    }
    var ancestor, tail := candidate, [];
    while true
      invariant ancestor <= candidate && ancestor == candidate[..|ancestor|] && longest <= |ancestor|
      invariant AllNames(candidate[|ancestor|..]) && tail == NamesOf(candidate[|ancestor|..])
      decreases |ancestor|
    {
      var canon := Canonicalize(fs, ancestor);
      if canon.Some? {
        return Jailed(jail.value, canon.value + tail);
      }
      // file_name() is None for the root and after `..`
      if ancestor == [] || ancestor[|ancestor| - 1].Up? {
        assert ancestor != [];
        assert candidate[longest..][|ancestor| - 1 - longest].Up?;
        return Failure(NotFound);
      }
      var n := |ancestor| - 1;
      assert candidate[n..] == [candidate[n]] + candidate[n + 1..];
      ancestor, tail := ancestor[..n], [ancestor[n].name] + tail;
    }
  }

  // ------------------------------------------------------------------ scopes

  /** A component of the path a client sends. */
  datatype VirtualComp = RootDir | CurDir | ParentDir | Prefix | Normal(name: string)

  predicate Climbs(c: VirtualComp) {
    c.ParentDir? || c.Prefix?
  }

  predicate AnyClimbs(virt: seq<VirtualComp>) {
    exists i :: 0 <= i < |virt| && Climbs(virt[i])
  }

  function Normals(virt: seq<VirtualComp>): (r: Path) {
    if virt == [] then []
    else (if virt[0].Normal? then [virt[0].name] else []) + Normals(virt[1..])
  }

  /** Any `..` is refused before anything is mapped; root and `.` components are dropped. */
  method Normalize(virt: seq<VirtualComp>) returns (r: Resolved)
    ensures r == if AnyClimbs(virt) then Failure(Traversal) else Success(Normals(virt))
  {
    var out: Path := [];
    var i := 0;
    while i < |virt|
      invariant 0 <= i <= |virt|
      invariant forall j :: 0 <= j < i ==> !Climbs(virt[j])
      invariant out + Normals(virt[i..]) == Normals(virt)
    {
      assert virt[i..][1..] == virt[i + 1..] && virt[i..][0] == virt[i];
      match virt[i] {
        case RootDir =>
        case CurDir =>
        case Normal(s) => out := out + [s];
        case ParentDir => assert Climbs(virt[i]) && AnyClimbs(virt); return Failure(Traversal);
        case Prefix => assert Climbs(virt[i]) && AnyClimbs(virt); return Failure(Traversal);
      }
      i := i + 1;
    }
    assert out == out + Normals(virt[i..]);
    r := Success(out);
  }

  /** One root, or one root per camera name. */
  datatype ScopeMap = Single(root: seq<Comp>) | Multi(roots: map<string, seq<Comp>>)

  /** The base a normalized path is resolved against, and the names below it. */
  function BaseOf(scope: ScopeMap, parts: Path): Result<(seq<Comp>, Path), PathError> {
    match scope
    case Single(root) => Success((root, parts))
    case Multi(roots) =>
      if parts == [] || parts[0] !in roots then Failure(OutsideScope)
      else Success((roots[parts[0]], parts[1..]))
  }

  function ResolveParts(fs: Tree, scope: ScopeMap, parts: Path): Resolved {
    match BaseOf(scope, parts)
    case Failure(e) => Failure(e)
    case Success((base, names)) => Contained(fs, base, base + Names(names))
  }

  function Resolve(fs: Tree, scope: ScopeMap, virt: seq<VirtualComp>): Resolved {
    if AnyClimbs(virt) then Failure(Traversal)
    else ResolveParts(fs, scope, Normals(virt))
  }

  /** Joins the names to the base, one by one. */
  method JoinAll(base: seq<Comp>, names: Path) returns (joined: seq<Comp>)
    ensures joined == base + Names(names)
  {
    joined := base;
    for i := 0 to |names|
      invariant joined == base + Names(names[..i])
    {
      joined := joined + [Name(names[i])];
    }
    assert names[..|names|] == names;
  }

  method ResolveVirtual(fs: Tree, scope: ScopeMap, virt: seq<VirtualComp>) returns (r: Resolved)
    ensures r == Resolve(fs, scope, virt)
  {
    var parts := Normalize(virt);
    if parts.Failure? {
      return Failure(parts.error);
    }
    match BaseOf(scope, parts.value)
    case Failure(e) => r := Failure(e);
    case Success((base, names)) =>
      hide Contained, LongestCanonical, Normals;
      var joined := JoinAll(base, names);
      r := ContainedLoop(fs, base, joined);
  }

  // ------------------------------------------------------------------ what it means

  /** Once the base canonicalizes, the search never gets above it: the longest canonicalizable
      ancestor has the base as a prefix, the rest is plain names, and NotFound is unreachable. */
  lemma BaseIsFound(fs: Tree, base: seq<Comp>, names: Path)
    requires Canonicalize(fs, base).Some?
    ensures
      var candidate := base + Names(names);
      var k := LongestFrom(fs, candidate, |candidate|);
      && LongestCanonical(fs, candidate, k) && |base| <= k
      && candidate[k..] == Names(names[k - |base|..])
    ensures
      var candidate := base + Names(names);
      var k := LongestFrom(fs, candidate, |candidate|);
      var jail, place := Canonicalize(fs, base).value, Canonicalize(fs, candidate[..k]).value + names[k - |base|..];
      && Contained(fs, base, candidate) == (if jail <= place then Success(place) else Failure(Traversal))
      && Contained(fs, base, candidate) != Failure(NotFound)
  {
    var candidate := base + Names(names);
    var k := LongestFrom(fs, candidate, |candidate|);
    LongestFound(fs, candidate, |candidate|);
    assert candidate[..|base|] == base;
    assert candidate[k..] == Names(names[k - |base|..]);
    assert NamesOf(candidate[k..]) == names[k - |base|..];
  }

  /** An Ok result is an existing chain of directories, with no link in it, and a tail. Where the
      chain ends in a directory, the first name of the tail is missing there, or it is a link
      that does not resolve. */
  ghost predicate ChainAndTail(fs: Tree, r: Path, chain: Path, tail: Path) {
    && r == chain + tail && IsReal(fs, chain)
    && (tail != [] && IsDir(fs, chain) ==> EntryAt(fs, chain + [tail[0]]).None? || IsLink(fs, chain + [tail[0]]))
  }

  lemma ResolvedShape(fs: Tree, base: seq<Comp>, names: Path) returns (chain: Path, tail: Path)
    requires Contained(fs, base, base + Names(names)).Success?
    ensures ChainAndTail(fs, Contained(fs, base, base + Names(names)).value, chain, tail)
    ensures Canonicalize(fs, base).value <= Contained(fs, base, base + Names(names)).value
  {
    BaseIsFound(fs, base, names);
    var candidate := base + Names(names);
    var k := LongestFrom(fs, candidate, |candidate|);
    chain, tail := Canonicalize(fs, candidate[..k]).value, names[k - |base|..];
    CanonicalizeIdempotent(fs, candidate[..k]);
    if tail != [] && IsDir(fs, chain) {
      assert candidate[..k + 1] == candidate[..k] + [Name(tail[0])];
      WalkConcat(fs, [], candidate[..k], [Name(tail[0])], fs.maxLinks);
    }
  }

  // ------------------------------------------------------------------ which components count

  lemma {:induction false} NormalsConcat(a: seq<VirtualComp>, b: seq<VirtualComp>)
    ensures Normals(a + b) == Normals(a) + Normals(b)
    decreases |a|
  {
    if a == [] {
      assert a + b == b;
    } else {
      assert (a + b)[0] == a[0] && (a + b)[1..] == a[1..] + b;
      NormalsConcat(a[1..], b);
    }
  }

  /** A root or `.` component makes no difference, wherever it stands. */
  lemma IdleComponent(fs: Tree, scope: ScopeMap, a: seq<VirtualComp>, c: VirtualComp, b: seq<VirtualComp>)
    requires c.RootDir? || c.CurDir?
    ensures Resolve(fs, scope, a + [c] + b) == Resolve(fs, scope, a + b)
  {
    NormalsSkip(a, c, b);
    AnyClimbsConcat(a, [c] + b);
    AnyClimbsConcat([c], b);
    AnyClimbsConcat(a, b);
    assert a + [c] + b == a + ([c] + b);
    assert !AnyClimbs([c]);
    hide Normals, AnyClimbs, ResolveParts;
  }

  lemma AnyClimbsConcat(a: seq<VirtualComp>, b: seq<VirtualComp>)
    ensures AnyClimbs(a + b) <==> AnyClimbs(a) || AnyClimbs(b)
  {
    hide Climbs;
    if i :| 0 <= i < |a| && Climbs(a[i]) {
      assert Climbs((a + b)[i]);
    }
    if i :| 0 <= i < |b| && Climbs(b[i]) {
      assert Climbs((a + b)[|a| + i]);
    }
  }

  lemma NormalsSkip(a: seq<VirtualComp>, c: VirtualComp, b: seq<VirtualComp>)
    requires !c.Normal?
    ensures Normals(a + [c] + b) == Normals(a + b)
  {
    var rest := [c] + b;
    assert rest[0] == c && rest[1..] == b && [] + Normals(b) == Normals(b);
    assert Normals(rest) == Normals(b);
    assert a + [c] + b == a + rest;
    NormalsConcat(a, rest);
    NormalsConcat(a, b);
  }

  /** A `..` or prefix component, wherever it stands, has the path refused on every tree and scope. */
  lemma ClimbIsRefused(fs: Tree, scope: ScopeMap, virt: seq<VirtualComp>, i: nat)
    requires i < |virt| && (virt[i].ParentDir? || virt[i].Prefix?)
    ensures Resolve(fs, scope, virt) == Failure(Traversal)
  {
    assert Climbs(virt[i]);
  }

  /** A path of plain names: it is resolved below the one root, or its first name chooses the root and
      the others are resolved below that. */
  lemma NamesResolve(fs: Tree, scope: ScopeMap, names: Path)
    ensures scope.Single? ==>
              Resolve(fs, scope, Virtual(names)) == Contained(fs, scope.root, scope.root + Names(names))
    ensures scope.Multi? && names != [] && names[0] in scope.roots ==>
              var root := scope.roots[names[0]];
              Resolve(fs, scope, Virtual(names)) == Contained(fs, root, root + Names(names[1..]))
    ensures scope.Multi? && (names == [] || names[0] !in scope.roots) ==>
              Resolve(fs, scope, Virtual(names)) == Failure(OutsideScope)
  {
    NormalsOfVirtual(names);
  }

  /** Where the base does not canonicalize, nothing resolves. */
  lemma NoBase(fs: Tree, base: seq<Comp>, names: Path)
    ensures Canonicalize(fs, base).None? ==> Contained(fs, base, base + Names(names)) == Failure(NotFound)
  {
  }

  // ------------------------------------------------------------------ trees without links

  /** A walk by names past places that are no links goes straight down, or fails. */
  lemma {:induction false} WalkStraight(fs: Tree, at: Path, names: Path, links: nat)
    requires forall i :: 1 <= i <= |names| ==> !IsLink(fs, at + names[..i])
    ensures Walk(fs, at, Names(names), links) in {None, Some(Walked(at + names, links))}
    decreases |names|
  {
    if names == [] {
      assert at + names == at;
    } else if IsDir(fs, at) && EntryAt(fs, at + [names[0]]).Some? {
      assert names[..1] == [names[0]] && !IsLink(fs, at + names[..1]);
      assert Names(names)[1..] == Names(names[1..]);
      forall i | 1 <= i <= |names[1..]|
        ensures !IsLink(fs, (at + [names[0]]) + names[1..][..i])
      {
        assert (at + [names[0]]) + names[1..][..i] == at + names[..i + 1];
      }
      WalkStraight(fs, at + [names[0]], names[1..], links);
      assert (at + [names[0]]) + names[1..] == at + names;
    }
  }

  /** A tree of files and directories; a system follows up to 40 links. */
  function TreeFrom(files: set<Path>, dirs: set<Path>): Tree {
    Tree((map p | p in files :: FileEntry) + (map p | p in dirs :: DirEntry), 40)
  }

  ghost predicate LinkFree(fs: Tree) {
    forall p :: p in fs.entries ==> !fs.entries[p].LinkEntry?
  }

  /** The place a path names when `..` simply drops the last component. */
  function Lexical(at: Path, rest: seq<Comp>): Path
    decreases |rest|
  {
    if rest == [] then at
    else
      match rest[0]
      case Up => Lexical(Dir(at), rest[1..])
      case Name(n) => Lexical(at + [n], rest[1..])
  }

  lemma {:induction false} LexicalNames(at: Path, rest: seq<Comp>, names: Path)
    ensures Lexical(at, rest + Names(names)) == Lexical(at, rest) + names
    decreases |rest| + |names|
  {
    var whole := rest + Names(names);
    if rest != [] {
      assert whole[0] == rest[0] && whole[1..] == rest[1..] + Names(names);
      LexicalNames(match rest[0] case Up => Dir(at) case Name(n) => at + [n], rest[1..], names);
    } else if names != [] {
      assert whole[0] == Name(names[0]) && whole[1..] == [] + Names(names[1..]);
      LexicalNames(at + [names[0]], [], names[1..]);
      assert (at + [names[0]]) + names[1..] == at + names;
    } else {
      assert whole == [] && at + names == at;
    }
  }

  /** Without links a walk goes where the path says, or fails. */
  lemma {:induction false} WalkLexical(fs: Tree, at: Path, rest: seq<Comp>, links: nat)
    requires LinkFree(fs) && Walk(fs, at, rest, links).Some?
    ensures Walk(fs, at, rest, links) == Some(Walked(Lexical(at, rest), links))
    decreases |rest|
  {
    if rest != [] {
      WalkLexical(fs, match rest[0] case Up => Dir(at) case Name(n) => at + [n], rest[1..], links);
    }
  }

  /** A base that is a chain of directories is where it says. */
  lemma StandingBase(fs: Tree, p: Path)
    requires forall i :: 0 <= i <= |p| ==> IsDir(fs, p[..i])
    ensures Canonicalize(fs, Names(p)) == Some(p) && Lexical([], Names(p)) == p
  {
    assert p[..|p|] == p;
    assert IsReal(fs, p);
    hide Walk, Lexical;
    WalkReal(fs, p, 0, fs.maxLinks);
    LexicalNames([], [], p);
    assert p[..0] == [] && p[0..] == p && [] + Names(p) == Names(p) && [] + p == p;
  }

  lemma CanonicalLexical(fs: Tree, p: seq<Comp>)
    requires LinkFree(fs) && Canonicalize(fs, p).Some?
    ensures Canonicalize(fs, p) == Some(Lexical([], p))
  {
    WalkLexical(fs, [], p, fs.maxLinks);
  }

  /** Without links, resolving against a base that exists is concatenation to the place it names. */
  lemma ResolvedExactly(fs: Tree, base: seq<Comp>, names: Path)
    requires LinkFree(fs)
    ensures Contained(fs, base, base + Names(names))
            == if Canonicalize(fs, base).None? then Failure(NotFound) else Success(Lexical([], base) + names)
  {
    if Canonicalize(fs, base).Some? {
      var candidate := base + Names(names);
      var k := LongestFrom(fs, candidate, |candidate|);
      BaseIsFound(fs, base, names);
      hide *;
      CanonicalLexical(fs, base);
      LongestIsCanonical(fs, candidate, k);
      CanonicalLexical(fs, candidate[..k]);
      CandidatePrefix(base, names, k);
      LexicalNames([], base, names[..k - |base|]);
      Rejoined(Lexical([], base), names, k - |base|);
    }
  }

  lemma LongestIsCanonical(fs: Tree, p: seq<Comp>, k: nat)
    requires LongestCanonical(fs, p, k)
    ensures k <= |p| && Canonicalize(fs, p[..k]).Some?
  {
  }

  lemma CandidatePrefix(base: seq<Comp>, names: Path, k: nat)
    requires |base| <= k <= |base + Names(names)|
    ensures k - |base| <= |names| && (base + Names(names))[..k] == base + Names(names[..k - |base|])
  {
  }

  lemma Rejoined(jail: Path, names: Path, j: nat)
    requires j <= |names|
    ensures Jailed(jail, (jail + names[..j]) + names[j..]) == Success(jail + names)
  {
    assert (jail + names[..j]) + names[j..] == jail + names;
  }

  /** No existing root lies in another, or is another. */
  ghost predicate RootsApart(fs: Tree, scope: ScopeMap) {
    scope.Multi? ==>
      forall m, n :: m in scope.roots && n in scope.roots && m != n ==> RootApart(fs, scope.roots[m], scope.roots[n])
  }

  predicate RootApart(fs: Tree, a: seq<Comp>, b: seq<Comp>) {
    var ca, cb := Canonicalize(fs, a), Canonicalize(fs, b);
    ca.Some? && cb.Some? ==> !(ca.value <= cb.value)
  }

  /** Different normalized paths denote different places. */
  ghost predicate ResolvesInjectively(fs: Tree, scope: ScopeMap) {
    forall v, w :: Resolve(fs, scope, v).Success? && Resolve(fs, scope, v) == Resolve(fs, scope, w) ==>
      Normals(v) == Normals(w)
  }

  /** Without links, resolving is injective exactly if no root of the scope lies in another; always
      for a single root. */
  lemma InjectiveExactly(fs: Tree, scope: ScopeMap)
    requires LinkFree(fs)
    ensures ResolvesInjectively(fs, scope) <==> RootsApart(fs, scope)
  {
    if RootsApart(fs, scope) {
      forall v, w | Resolve(fs, scope, v).Success? && Resolve(fs, scope, v) == Resolve(fs, scope, w)
        ensures Normals(v) == Normals(w)
      {
        ResolveInjective(fs, scope, v, w);
      }
    } else {
      var m, n :| m in scope.roots && n in scope.roots && m != n && !RootApart(fs, scope.roots[m], scope.roots[n]);
      var v, w := NestedRootsClash(fs, scope, m, n);
    }
  }

  /** The inner of two nested roots has a name below the outer one, too. */
  lemma NestedRootsClash(fs: Tree, scope: ScopeMap, m: string, n: string)
    returns (v: seq<VirtualComp>, w: seq<VirtualComp>)
    requires LinkFree(fs) && scope.Multi? && m in scope.roots && n in scope.roots && m != n
    requires !RootApart(fs, scope.roots[m], scope.roots[n])
    ensures Resolve(fs, scope, v).Success? && Resolve(fs, scope, v) == Resolve(fs, scope, w) && Normals(v) != Normals(w)
  {
    var cm, cn := Canonicalize(fs, scope.roots[m]).value, Canonicalize(fs, scope.roots[n]).value;
    var names := cn[|cm|..];
    v, w := Virtual([m] + names), Virtual([n]);
    NormalsOfVirtual([m] + names);
    NormalsOfVirtual([n]);
    ResolvedExactly(fs, scope.roots[m], names);
    ResolvedExactly(fs, scope.roots[n], []);
    WalkLexical(fs, [], scope.roots[m], fs.maxLinks);
    WalkLexical(fs, [], scope.roots[n], fs.maxLinks);
    hide Contained, Walk, Lexical, Normals, AnyClimbs;
    assert ([m] + names)[1..] == names && [n][1..] == [];
    assert cm + names == cn && cn + [] == cn;
    assert Normals(v)[0] != Normals(w)[0];
  }

  function Virtual(p: Path): (r: seq<VirtualComp>) {
    seq(|p|, i requires 0 <= i < |p| => Normal(p[i]))
  }

  lemma {:induction false} NormalsOfVirtual(p: Path)
    ensures !AnyClimbs(Virtual(p)) && Normals(Virtual(p)) == p
  {
    if p != [] {
      NormalsOfVirtual(p[1..]);
      assert Virtual(p)[1..] == Virtual(p[1..]);
      assert p == [p[0]] + p[1..];
    }
  }

  lemma ResolveInjective(fs: Tree, scope: ScopeMap, v: seq<VirtualComp>, w: seq<VirtualComp>)
    requires LinkFree(fs) && RootsApart(fs, scope)
    requires Resolve(fs, scope, v).Success? && Resolve(fs, scope, v) == Resolve(fs, scope, w)
    ensures Normals(v) == Normals(w)
  {
    var p, q := BaseOf(scope, Normals(v)).value, BaseOf(scope, Normals(w)).value;
    ResolvedExactly(fs, p.0, p.1);
    ResolvedExactly(fs, q.0, q.1);
    WalkLexical(fs, [], p.0, fs.maxLinks);
    WalkLexical(fs, [], q.0, fs.maxLinks);
    var a, b := Lexical([], p.0), Lexical([], q.0);
    hide Contained, Walk, Lexical;
    assert a + p.1 == b + q.1;
    PrefixesCompare(a, b, a + p.1);
    if scope.Multi? {
      assert Normals(v)[0] != Normals(w)[0] ==> RootApart(fs, p.0, q.0) && RootApart(fs, q.0, p.0);
      assert Normals(v) == [Normals(v)[0]] + p.1 && Normals(w) == [Normals(w)[0]] + q.1;
    }
    assert p.0 == q.0;
    assert p.1 == (a + p.1)[|a|..] && q.1 == (b + q.1)[|b|..];
  }

  lemma PrefixesCompare(a: Path, b: Path, p: Path)
    requires a <= p && b <= p
    ensures a <= b || b <= a
  {
    assert a == p[..|a|] && b == p[..|b|];
  }
}
