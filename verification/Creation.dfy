/** What a path denotes once files and directories are created (src/paths.rs): when it is sure to
    stay inside the jail, whatever is created later. */
module Creation {
  import opened Append
  import opened Options
  import opened Paths
  import opened Containment

  /** `later` has everything `fs` has, and new files and directories. */
  ghost predicate Extends(fs: Tree, later: Tree) {
    && later.maxLinks == fs.maxLinks
    && (forall p :: p in fs.entries ==> p in later.entries && later.entries[p] == fs.entries[p])
    && (forall p :: p in later.entries && p !in fs.entries ==> !later.entries[p].LinkEntry?)
  }

  ghost predicate ParentsExist(fs: Tree) {
    forall p :: p in fs.entries ==> p != [] && IsDir(fs, Dir(p))
  }

  lemma RealInExtension(fs: Tree, later: Tree, p: Path)
    requires Extends(fs, later) && IsReal(fs, p)
    ensures IsReal(later, p) && EntryAt(later, p) == EntryAt(fs, p)
  {
    forall i | 0 <= i < |p|
      ensures IsDir(later, p[..i])
    {
      assert IsDir(fs, p[..i]);
    }
  }

  lemma {:induction false} MissingBelow(fs: Tree, p: Path, q: Path)
    requires ParentsExist(fs) && p != [] && EntryAt(fs, p).None? && p <= q
    ensures EntryAt(fs, q).None?
    decreases |q|
  {
    if |p| < |q| {
      assert p <= Dir(q);
      MissingBelow(fs, p, Dir(q));
      assert q in fs.entries ==> IsDir(fs, Dir(q));
    } else {
      assert p == q;
    }
  }

  // ------------------------------------------------------------------ what a path would denote

  /** Where `rest` leads from `at` once all that is missing on the way has been created: a missing
      place counts as a directory, and nothing leads on from a file. */
  function Would(fs: Tree, at: Path, rest: seq<Comp>, links: nat): (r: Option<Path>)
    decreases links, |rest|
  {
    if rest == [] then Some(at)
    else if EntryAt(fs, at).Some? && !IsDir(fs, at) then None
    else
      match rest[0]
      case Up => Would(fs, Dir(at), rest[1..], links)
      case Name(n) =>
        match EntryAt(fs, at + [n])
        case Some(LinkEntry(absolute, target)) =>
          if links == 0 then None
          else Would(fs, if absolute then [] else at, target + rest[1..], links - 1)
        case _ => Would(fs, at + [n], rest[1..], links)
  }

  /** Whatever a path leads to later, it is the place it would lead to. */
  lemma {:induction false} WalkIsWould(fs: Tree, later: Tree, at: Path, rest: seq<Comp>, links: nat)
    requires Extends(fs, later) && Walk(later, at, rest, links).Some?
    ensures Would(fs, at, rest, links) == Some(Walk(later, at, rest, links).value.at)
    decreases links, |rest|
  {
    if rest != [] {
      match rest[0] {
        case Up => WalkIsWould(fs, later, Dir(at), rest[1..], links);
        case Name(n) =>
          match EntryAt(later, at + [n]) {
            case Some(LinkEntry(absolute, target)) =>
              WalkIsWould(fs, later, if absolute then [] else at, target + rest[1..], links - 1);
            case Some(_) => WalkIsWould(fs, later, at + [n], rest[1..], links);
          }
      }
    }
  }

  /** `fs` with one more directory. */
  function Made(fs: Tree, p: Path): Tree {
    fs.(entries := fs.entries[p := DirEntry])
  }

  /** Making a missing directory does not change where a path would lead. */
  lemma {:induction false} MadeKeepsWould(fs: Tree, p: Path, at: Path, rest: seq<Comp>, links: nat)
    requires EntryAt(fs, p).None?
    ensures Would(Made(fs, p), at, rest, links) == Would(fs, at, rest, links)
    decreases links, |rest|
  {
    if rest != [] {
      match rest[0] {
        case Up => MadeKeepsWould(fs, p, Dir(at), rest[1..], links);
        case Name(n) =>
          match EntryAt(fs, at + [n]) {
            case Some(LinkEntry(absolute, target)) =>
              if links > 0 {
                MadeKeepsWould(fs, p, if absolute then [] else at, target + rest[1..], links - 1);
              }
            case _ => MadeKeepsWould(fs, p, at + [n], rest[1..], links);
          }
      }
    }
  }

  /** Every place a path would lead to can be made, by creating directories only. */
  lemma {:induction false} WouldBeMade(fs: Tree, at: Path, rest: seq<Comp>, links: nat) returns (later: Tree)
    requires ParentsExist(fs) && EntryAt(fs, at).Some? && !IsLink(fs, at) && Would(fs, at, rest, links).Some?
    ensures Extends(fs, later) && ParentsExist(later)
    ensures Walk(later, at, rest, links).Some?
      && Walk(later, at, rest, links).value.at == Would(fs, at, rest, links).value
    decreases links, |rest|
  {
    later := fs;
    if rest != [] {
      match rest[0] {
        case Up => later := WouldBeMade(fs, Dir(at), rest[1..], links);
        case Name(n) =>
          match EntryAt(fs, at + [n]) {
            case None =>
              MadeKeepsWould(fs, at + [n], at + [n], rest[1..], links);
              MadeHasParents(fs, at, n);
              later := WouldBeMade(Made(fs, at + [n]), at + [n], rest[1..], links);
            case Some(LinkEntry(absolute, target)) =>
              later := WouldBeMade(fs, if absolute then [] else at, target + rest[1..], links - 1);
            case Some(_) => later := WouldBeMade(fs, at + [n], rest[1..], links);
          }
      }
    }
  }

  lemma MadeHasParents(fs: Tree, at: Path, n: string)
    requires ParentsExist(fs) && IsDir(fs, at) && EntryAt(fs, at + [n]).None?
    ensures ParentsExist(Made(fs, at + [n])) && Extends(fs, Made(fs, at + [n]))
  {
    assert Dir(at + [n]) == at;
  }

  /** Whatever files and directories are created later, `p` denotes nothing outside `jail`. */
  ghost predicate StaysInside(fs: Tree, jail: Path, p: seq<Comp>) {
    forall later :: Extends(fs, later) && ParentsExist(later) && Canonicalize(later, p).Some? ==>
      jail <= Canonicalize(later, p).value
  }

  /** That is so exactly if `p` would not lead outside now, which a caller can compute. */
  lemma StaysInsideExactly(fs: Tree, jail: Path, p: seq<Comp>)
    requires ParentsExist(fs)
    ensures
      var would := Would(fs, [], p, fs.maxLinks);
      StaysInside(fs, jail, p) <==> (would.Some? ==> jail <= would.value)
  {
    var would := Would(fs, [], p, fs.maxLinks);
    if would.Some? {
      var later := WouldBeMade(fs, [], p, fs.maxLinks);
      assert Canonicalize(later, p) == would;
    }
    forall later | Extends(fs, later) && ParentsExist(later) && Canonicalize(later, p).Some?
      ensures would == Canonicalize(later, p)
    {
      WalkIsWould(fs, later, [], p, fs.maxLinks);
    }
  }

  lemma {:induction false} AncestorsAreDirs(fs: Tree, p: Path, i: nat)
    requires ParentsExist(fs) && EntryAt(fs, p).Some? && i < |p|
    ensures IsDir(fs, p[..i])
    decreases |p|
  {
    assert Dir(p) == p[..|p| - 1];
    if i < |p| - 1 {
      AncestorsAreDirs(fs, Dir(p), i);
      assert Dir(p)[..i] == p[..i];
    }
  }

  /** What is created at the resolved path is no link, and all its ancestors are directories. */
  lemma CreatedIsReal(fs: Tree, later: Tree, chain: Path, tail: Path)
    requires ParentsExist(fs) && ParentsExist(later) && Extends(fs, later) && IsReal(fs, chain)
    requires tail != [] && IsDir(fs, chain) ==> EntryAt(fs, chain + [tail[0]]).None?
    requires EntryAt(later, chain + tail).Some?
    ensures IsReal(later, chain + tail)
  {
    var r := chain + tail;
    forall i | 0 <= i < |r|
      ensures IsDir(later, r[..i])
    {
      AncestorsAreDirs(later, r, i);
    }
    if tail == [] {
      assert r == chain;
      RealInExtension(fs, later, chain);
    } else if r in fs.entries {
      AncestorsAreDirs(fs, r, |chain|);
      assert r[..|chain|] == chain;
      MissingBelow(fs, chain + [tail[0]], r);
      assert false;
    }
  }

  /** A path past places that are no links would lead straight down, or nowhere. */
  lemma {:induction false} WouldStraight(fs: Tree, at: Path, names: Path, links: nat)
    requires forall i :: 1 <= i <= |names| ==> !IsLink(fs, at + names[..i])
    ensures Would(fs, at, Names(names), links) in {None, Some(at + names)}
    decreases |names|
  {
    if names == [] {
      assert at + names == at;
    } else {
      assert names[..1] == [names[0]] && !IsLink(fs, at + names[..1]);
      assert Names(names)[1..] == Names(names[1..]);
      forall i | 1 <= i <= |names[1..]|
        ensures !IsLink(fs, (at + [names[0]]) + names[1..][..i])
      {
        assert (at + [names[0]]) + names[1..][..i] == at + names[..i + 1];
      }
      WouldStraight(fs, at + [names[0]], names[1..], links);
      assert (at + [names[0]]) + names[1..] == at + names;
    }
  }

  lemma NoLinkOnTheWay(fs: Tree, chain: Path, tail: Path, i: nat)
    requires ParentsExist(fs) && IsReal(fs, chain) && i <= |chain + tail|
    requires tail != [] && IsDir(fs, chain) ==> EntryAt(fs, chain + [tail[0]]).None?
    ensures !IsLink(fs, (chain + tail)[..i])
  {
    var q := (chain + tail)[..i];
    if i <= |chain| {
      assert q == chain[..i];
      assert chain[..|chain|] == chain;
    } else if q in fs.entries {
      AncestorsAreDirs(fs, q, |chain|);
      assert q[..|chain|] == chain && chain + [tail[0]] <= q;
      MissingBelow(fs, chain + [tail[0]], q);
      assert false;
    }
  }

  /** What `contained` lets through stays inside the jail, whatever is created later, exactly if it
      would not lead outside now. */
  lemma OkStaysInsideExactly(fs: Tree, base: seq<Comp>, names: Path)
    requires ParentsExist(fs) && Contained(fs, base, base + Names(names)).Success?
    ensures
      var jail, r := Canonicalize(fs, base).value, Contained(fs, base, base + Names(names)).value;
      var would := Would(fs, [], Names(r), fs.maxLinks);
      StaysInside(fs, jail, Names(r)) <==> (would.Some? ==> jail <= would.value)
  {
    var jail, r := Canonicalize(fs, base).value, Contained(fs, base, base + Names(names)).value;
    StaysInsideExactly(fs, jail, Names(r));
  }

  /** In particular, unless the resolved path runs into a link that does not resolve: then it
      denotes itself, inside the jail, as soon as something is created there, and until then
      nothing. */
  lemma CreatedInside(fs: Tree, later: Tree, base: seq<Comp>, names: Path, chain: Path, tail: Path)
    requires ParentsExist(fs) && Extends(fs, later)
    requires Contained(fs, base, base + Names(names)).Success?
    requires ChainAndTail(fs, Contained(fs, base, base + Names(names)).value, chain, tail)
    requires tail != [] ==> !IsLink(fs, chain + [tail[0]])
    ensures
      var r := Contained(fs, base, base + Names(names)).value;
      Canonicalize(fs, base).value <= r && Canonicalize(later, Names(r)) in {None, Some(r)}
    ensures
      var r := Contained(fs, base, base + Names(names)).value;
      ParentsExist(later) && EntryAt(later, r).Some? ==> Canonicalize(later, Names(r)) == Some(r)
    ensures
      var r := Contained(fs, base, base + Names(names)).value;
      StaysInside(fs, Canonicalize(fs, base).value, Names(r))
  {
    var r := chain + tail;
    var c, t := ResolvedShape(fs, base, names);
    forall i | 1 <= i <= |r|
      ensures !IsLink(fs, [] + r[..i])
    {
      NoLinkOnTheWay(fs, chain, tail, i);
      assert [] + r[..i] == r[..i];
    }
    WouldStraight(fs, [], r, fs.maxLinks);
    assert [] + r == r;
    hide Walk, Would, Contained, IsReal, ParentsExist, Extends;
    OkStaysInsideExactly(fs, base, names);
    if Canonicalize(later, Names(r)).Some? {
      WalkIsWould(fs, later, [], Names(r), later.maxLinks);
    }
    if ParentsExist(later) && EntryAt(later, r).Some? {
      CreatedIsReal(fs, later, chain, tail);
      WalkReal(later, r, 0, later.maxLinks);
      assert r[..0] == [] && r[0..] == r;
    }
  }

  /** With a dangling link inside the jail the condition fails: the path is an Ok result, and once
      the link's target is created, by whomever, it denotes a place outside. */
  lemma DanglingLinkEscapes()
    ensures
      var fs := Tree(map[["b"] := DirEntry, ["b", "x"] := LinkEntry(true, [Name("o")])], 40);
      var later := Tree(fs.entries[["o"] := FileEntry], 40);
      && ParentsExist(fs) && Extends(fs, later)
      && Contained(fs, [Name("b")], [Name("b")] + Names(["x"])) == Success(["b", "x"])
      && Canonicalize(later, Names(["b", "x"])) == Some(["o"]) && !(["b"] <= ["o"])
  {
    var fs := Tree(map[["b"] := DirEntry, ["b", "x"] := LinkEntry(true, [Name("o")])], 40);
    var later := Tree(fs.entries[["o"] := FileEntry], 40);
    var base, cand := [Name("b")], [Name("b"), Name("x")];
    assert base + Names(["x"]) == cand && Names(["b", "x"]) == cand;
    assert cand[1..] == [Name("x")] && cand[1..][1..] == [] && base[1..] == [];
    assert [Name("o")] + [] == [Name("o")] && [Name("o")][1..] == [];
    assert [] + ["b"] == ["b"] && ["b"] + ["x"] == ["b", "x"] && [] + ["o"] == ["o"];
    assert Walk(fs, ["b"], [Name("x")], 40) == Walk(fs, [], [Name("o")], 39) == None;
    assert Walk(fs, [], base, 40) == Some(Walked(["b"], 40));
    assert Canonicalize(fs, cand).None? && Canonicalize(fs, base) == Some(["b"]);
    assert cand[..2] == cand && cand[..1] == base;
    assert LongestFrom(fs, cand, 2) == 1;
    assert NamesOf(cand[1..]) == ["x"];
    assert Walk(later, ["b"], [Name("x")], 40) == Walk(later, [], [Name("o")], 39) == Some(Walked(["o"], 39));
    assert Walk(later, [], cand, 40) == Walk(later, ["b"], [Name("x")], 40);
  }
}
