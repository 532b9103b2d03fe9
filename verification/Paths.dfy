/** Path scoping and jail containment (src/paths.rs). Real paths are absolute; `canonicalize` is
    defined concretely, as the walk the system makes over a tree with symbolic links. */
module Paths {
  import opened Append
  import opened Options

  /** A component of a real path that need not be canonical. */
  datatype Comp = Name(name: string) | Up

  datatype Entry = DirEntry | FileEntry | LinkEntry(absolute: bool, target: seq<Comp>)

  /** The root directory is always there; `maxLinks` is the system's bound on links followed. */
  datatype Tree = Tree(entries: map<Path, Entry>, maxLinks: nat)

  function EntryAt(fs: Tree, p: Path): Option<Entry> {
    if p == [] then Some(DirEntry) else if p in fs.entries then Some(fs.entries[p]) else None
  }

  predicate IsDir(fs: Tree, p: Path) {
    EntryAt(fs, p) == Some(DirEntry)
  }

  predicate IsLink(fs: Tree, p: Path) {
    p != [] && p in fs.entries && fs.entries[p].LinkEntry?
  }

  datatype Walked = Walked(at: Path, links: nat)

  /** Resolves `rest` from the canonical place `at`, following at most `links` links. */
  function Walk(fs: Tree, at: Path, rest: seq<Comp>, links: nat): (r: Option<Walked>)
    decreases links, |rest|
  {
    if rest == [] then Some(Walked(at, links))
    else if !IsDir(fs, at) then None
    else
      match rest[0]
      case Up => Walk(fs, Dir(at), rest[1..], links)
      case Name(n) =>
        match EntryAt(fs, at + [n])
        case None => None
        case Some(LinkEntry(absolute, target)) =>
          if links == 0 then None
          else Walk(fs, if absolute then [] else at, target + rest[1..], links - 1)
        case Some(_) => Walk(fs, at + [n], rest[1..], links)
  }

  function Canonicalize(fs: Tree, p: seq<Comp>): Option<Path> {
    match Walk(fs, [], p, fs.maxLinks)
    case None => None
    case Some(w) => Some(w.at)
  }

  function Names(p: Path): seq<Comp> {
    seq(|p|, i requires 0 <= i < |p| => Name(p[i]))
  }

  datatype PathError = Traversal | NotFound | OutsideScope

  type Resolved = Result<Path, PathError>

  // ---------------------------------------------------------------- canonicalize

  /** An existing place all of whose ancestors are directories, no link among them. */
  predicate IsReal(fs: Tree, p: Path) {
    && (forall i :: 0 <= i < |p| ==> IsDir(fs, p[..i]))
    && EntryAt(fs, p).Some? && !EntryAt(fs, p).value.LinkEntry?
  }

  lemma RealChild(fs: Tree, at: Path, n: string)
    requires IsReal(fs, at) && IsDir(fs, at)
    requires EntryAt(fs, at + [n]).Some? && !EntryAt(fs, at + [n]).value.LinkEntry?
    ensures IsReal(fs, at + [n])
  {
    forall i | 0 <= i < |at| + 1
      ensures IsDir(fs, (at + [n])[..i])
    {
      assert (at + [n])[..i] == if i == |at| then at else at[..i];
    }
  }

  lemma RealParent(fs: Tree, at: Path)
    requires IsReal(fs, at)
    ensures IsReal(fs, Dir(at)) && (at != [] ==> IsDir(fs, Dir(at)))
  {
    if at != [] {
      assert forall i :: 0 <= i < |at| - 1 ==> Dir(at)[..i] == at[..i];
      assert IsDir(fs, at[..|at| - 1]);
    }
  }

  /** A walk ends at a real place. */
  lemma {:induction false} WalkIsReal(fs: Tree, at: Path, rest: seq<Comp>, links: nat)
    requires IsReal(fs, at)
    ensures Walk(fs, at, rest, links).Some? ==> IsReal(fs, Walk(fs, at, rest, links).value.at)
    decreases links, |rest|
  {
    if rest != [] && IsDir(fs, at) {
      match rest[0] {
        case Up =>
          RealParent(fs, at);
          WalkIsReal(fs, Dir(at), rest[1..], links);
        case Name(n) =>
          match EntryAt(fs, at + [n]) {
            case None =>
            case Some(LinkEntry(absolute, target)) =>
              if links > 0 {
                WalkIsReal(fs, if absolute then [] else at, target + rest[1..], links - 1);
              }
            case Some(_) =>
              RealChild(fs, at, n);
              WalkIsReal(fs, at + [n], rest[1..], links);
          }
      }
    }
  }

  /** Walking in two legs. */
  lemma {:induction false} WalkConcat(fs: Tree, at: Path, a: seq<Comp>, b: seq<Comp>, links: nat)
    ensures
      var w := Walk(fs, at, a, links);
      Walk(fs, at, a + b, links) == if w.Some? then Walk(fs, w.value.at, b, w.value.links) else None
    decreases links, |a|
  {
    if a == [] {
      assert a + b == b;
    } else if IsDir(fs, at) {
      assert (a + b)[0] == a[0] && (a + b)[1..] == a[1..] + b;
      match a[0] {
        case Up => WalkConcat(fs, Dir(at), a[1..], b, links);
        case Name(n) =>
          match EntryAt(fs, at + [n]) {
            case None =>
            case Some(LinkEntry(absolute, target)) =>
              if links > 0 {
                assert target + (a[1..] + b) == (target + a[1..]) + b;
                WalkConcat(fs, if absolute then [] else at, target + a[1..], b, links - 1);
              }
            case Some(_) => WalkConcat(fs, at + [n], a[1..], b, links);
          }
      }
    }
  }

  /** What canonicalizes has only prefixes that canonicalize. */
  lemma CanonicalizePrefix(fs: Tree, a: seq<Comp>, b: seq<Comp>)
    requires Canonicalize(fs, a + b).Some?
    ensures Canonicalize(fs, a).Some?
  {
    WalkConcat(fs, [], a, b, fs.maxLinks);
  }

  lemma {:induction false} WalkReal(fs: Tree, p: Path, i: nat, links: nat)
    requires IsReal(fs, p) && i <= |p|
    ensures Walk(fs, p[..i], Names(p[i..]), links) == Some(Walked(p, links))
    decreases |p| - i
  {
    if i == |p| {
      assert p[..i] == p;
    } else {
      assert Names(p[i..])[0] == Name(p[i]) && Names(p[i..])[1..] == Names(p[i + 1..]);
      assert p[..i] + [p[i]] == p[..i + 1];
      assert i + 1 == |p| ==> p[..i + 1] == p;
      assert IsDir(fs, p[..i]);
      WalkReal(fs, p, i + 1, links);
    }
  }

  /** A canonical path is its own canonical form. */
  lemma CanonicalizeIdempotent(fs: Tree, p: seq<Comp>)
    requires Canonicalize(fs, p).Some?
    ensures
      var c := Canonicalize(fs, p).value;
      IsReal(fs, c) && Canonicalize(fs, Names(c)) == Some(c)
  {
    var c := Canonicalize(fs, p).value;
    WalkIsReal(fs, [], p, fs.maxLinks);
    WalkReal(fs, c, 0, fs.maxLinks);
    assert c[..0] == [] && c[0..] == c;
  }

  /** The walk takes its bound from its argument alone. */
  lemma {:induction false} WalkByBound(fs: Tree, at: Path, rest: seq<Comp>, links: nat, maxLinks: nat)
    ensures Walk(fs, at, rest, links) == Walk(fs.(maxLinks := maxLinks), at, rest, links)
    decreases links, |rest|
  {
    if rest != [] && IsDir(fs, at) {
      match rest[0] {
        case Up => WalkByBound(fs, Dir(at), rest[1..], links, maxLinks);
        case Name(n) =>
          match EntryAt(fs, at + [n]) {
            case None =>
            case Some(LinkEntry(absolute, target)) =>
              if links > 0 {
                WalkByBound(fs, if absolute then [] else at, target + rest[1..], links - 1, maxLinks);
              }
            case Some(_) => WalkByBound(fs, at + [n], rest[1..], links, maxLinks);
          }
      }
    }
  }

  lemma WalkFromReal(fs: Tree, c: Path, rest: seq<Comp>, links: nat)
    requires IsReal(fs, c)
    ensures Walk(fs, [], Names(c) + rest, links) == Walk(fs, c, rest, links)
  {
    WalkReal(fs, c, 0, links);
    assert c[..0] == [] && c[0..] == c;
    WalkConcat(fs, [], Names(c), rest, links);
  }

  /** Below a real directory a link stands for its target, taken from the root or from that directory,
      and uses up one of the links that may be followed; `..` drops the last name. */
  lemma LinkIsTarget(fs: Tree, c: Path, n: string, rest: seq<Comp>)
    requires IsReal(fs, c) && IsDir(fs, c) && fs.maxLinks > 0 && IsLink(fs, c + [n])
    ensures
      var link := fs.entries[c + [n]];
      Canonicalize(fs, Names(c) + ([Name(n)] + rest))
      == Canonicalize(fs.(maxLinks := fs.maxLinks - 1),
                      (if link.absolute then [] else Names(c)) + (link.target + rest))
    ensures Canonicalize(fs, Names(c) + ([Up] + rest)) == Canonicalize(fs, Names(Dir(c)) + rest)
  {
    var link := fs.entries[c + [n]];
    var at, less := if link.absolute then [] else c, fs.(maxLinks := fs.maxLinks - 1);
    WalkFromReal(fs, c, [Name(n)] + rest, fs.maxLinks);
    WalkFromReal(fs, c, [Up] + rest, fs.maxLinks);
    RealParent(fs, c);
    WalkFromReal(fs, Dir(c), rest, fs.maxLinks);
    assert ([Name(n)] + rest)[1..] == rest && ([Up] + rest)[1..] == rest;
    assert IsReal(less, at) by {
      assert forall p :: EntryAt(less, p) == EntryAt(fs, p) && (IsDir(less, p) <==> IsDir(fs, p));
    }
    WalkFromReal(less, at, link.target + rest, less.maxLinks);
    WalkByBound(fs, at, link.target + rest, less.maxLinks, less.maxLinks);
    assert Names([]) == [];
    assert [] + (link.target + rest) == link.target + rest;
  }
}
