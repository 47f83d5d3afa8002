/** A bundle, the files that its files refer to, and where copies of those go. */
module Dependencies {

  type Path = string

  const SAFE_PREFIXES: seq<string> := [
    "/System/", "/lib/", "/usr/lib/", "/usr/X11/lib/", "@loader_path/", "@executable_path/"
  ]

  const LOADER_PATH := "@loader_path/../Frameworks/"

  /** The file system before anything is changed: symbolic links followed to the end, the last
      component of a path, which files exist and can be loaded, and the libraries a file refers to;
      and the bundle. */
  datatype Env = Env(
    resolve: Path -> Path, basename: Path -> string, loadable: Path -> bool, present: Path -> bool,
    libs: Path -> seq<Path>, bundle: Path)
  {
    function Resolved(p: Path): Path { resolve(p) }
    predicate Loadable(p: Path) { loadable(p) }
    predicate Exists(p: Path) { present(p) }
    function Name(p: Path): string { basename(p) }
    function Libs(p: Path): seq<Path> { libs(p) }

    predicate MustCopy(lib: Path) {
      !(bundle <= lib) && !exists i :: 0 <= i < |SAFE_PREFIXES| && SAFE_PREFIXES[i] <= lib
    }

    /** Where a file of this name stands in the framework directory. */
    function Slot(name: string): Path {
      bundle + "/Contents/Frameworks/" + name
    }

    /** The file that a copy of `p` is written to. */
    function Spot(p: Path): Path {
      Resolved(Slot(Name(p)))
    }

    /** `p` refers to `q` by the name at this place of its list. */
    predicate NeedsAt(p: Path, q: Path, i: int) {
      0 <= i < |Libs(p)| && MustCopy(Libs(p)[i]) && Resolved(Libs(p)[i]) == q && Loadable(q)
    }

    ghost predicate Needs(p: Path, q: Path) {
      exists i :: NeedsAt(p, q, i)
    }

    ghost predicate Chain(roots: set<Path>, ps: seq<Path>) {
      && ps != [] && ps[0] in roots
      && forall i :: 0 <= i < |ps| - 1 ==> Needs(ps[i], ps[i + 1])
    }

    /** Reachable from the roots through libraries that must be copied and can be loaded. */
    ghost predicate Reachable(roots: set<Path>, p: Path) {
      exists ps :: Chain(roots, ps) && ps[|ps| - 1] == p
    }

    ghost function Reach(roots: set<Path>): iset<Path> {
      iset p | Reachable(roots, p)
    }

    /** A library that has to be copied. */
    ghost predicate ToCopy(roots: set<Path>, p: Path) {
      Reachable(roots, p) && p !in roots
    }

    /** No two different libraries to copy share a base name. */
    ghost predicate NoCollision(roots: set<Path>) {
      forall p, q :: ToCopy(roots, p) && ToCopy(roots, q) && Name(p) == Name(q) ==> p == q
    }

    /** No two different libraries to copy would be written to one file. */
    ghost predicate SpotsDiffer(roots: set<Path>) {
      forall p, q :: ToCopy(roots, p) && ToCopy(roots, q) && Spot(p) == Spot(q) ==> p == q
    }

    /** No library to copy has the name of something in the framework directory. */
    ghost predicate NamesAreFree(roots: set<Path>) {
      forall p :: ToCopy(roots, p) ==> !Exists(Spot(p))
    }

    /** Every library to copy has a place of its own. */
    ghost predicate Fits(roots: set<Path>) {
      NamesAreFree(roots) && SpotsDiffer(roots)
    }

    /** The roots are files that can be loaded, and all of those in the framework directory are
        among them. */
    ghost predicate Walked(roots: set<Path>) {
      && (forall p :: p in roots ==> Loadable(p))
      && (forall p :: Loadable(Spot(p)) ==> Spot(p) in roots)
      && (forall p :: Loadable(p) ==> Exists(p))
    }
  }

  ghost predicate Closed(e: Env, reach: iset<Path>) {
    forall p, q, i :: p in reach && e.NeedsAt(p, q, i) ==> q in reach
  }

  lemma {:induction false} ReachableStep(e: Env, roots: set<Path>, p: Path, q: Path)
    requires e.Reachable(roots, p) && e.Needs(p, q)
    ensures e.Reachable(roots, q)
  {
    var ps :| e.Chain(roots, ps) && ps[|ps| - 1] == p;
    var qs := ps + [q];
    forall i | 0 <= i < |qs| - 1
      ensures e.Needs(qs[i], qs[i + 1])
    {
      assert i < |ps| - 1 ==> e.Needs(ps[i], ps[i + 1]);
    }
    assert e.Chain(roots, qs);
  }

  lemma {:induction false} ReachIsClosed(e: Env, roots: set<Path>)
    ensures Closed(e, e.Reach(roots))
    ensures forall p :: p in roots ==> p in e.Reach(roots)
  {
    forall p, q, i | p in e.Reach(roots) && e.NeedsAt(p, q, i)
      ensures q in e.Reach(roots)
    {
      assert e.Needs(p, q);
      ReachableStep(e, roots, p, q);
    }
    forall p | p in roots
      ensures e.Reachable(roots, p)
    {
      assert e.Chain(roots, [p]);
    }
  }

  lemma {:induction false} ReachableIsLoadable(e: Env, roots: set<Path>, p: Path)
    requires e.Walked(roots) && e.Reachable(roots, p)
    ensures e.Loadable(p)
  {
    var ps :| e.Chain(roots, ps) && ps[|ps| - 1] == p;
    if |ps| > 1 {
      assert e.Needs(ps[|ps| - 2], ps[|ps| - 1]);
    }
  }

  ghost predicate LoadableAndClosed(e: Env, reach: iset<Path>) {
    Closed(e, reach) && forall p :: p in reach ==> e.Loadable(p)
  }

  lemma {:induction false} ReachIsLoadableAndClosed(e: Env, roots: set<Path>)
    requires e.Walked(roots)
    ensures LoadableAndClosed(e, e.Reach(roots))
    ensures forall p :: p in roots ==> p in e.Reach(roots)
  {
    ReachIsClosed(e, roots);
    forall p | p in e.Reach(roots)
      ensures e.Loadable(p)
    {
      ReachableIsLoadable(e, roots, p);
    }
  }

  lemma {:induction false} ChainIsIn(e: Env, roots: set<Path>, taken: set<Path>, ps: seq<Path>)
    requires e.Chain(roots, ps) && roots <= taken
    requires forall p, q :: p in taken && e.Needs(p, q) ==> q in taken
    ensures ps[|ps| - 1] in taken
  {
    if |ps| > 1 {
      var n := |ps| - 1;
      assert e.Chain(roots, ps[..n]);
      ChainIsIn(e, roots, taken, ps[..n]);
      assert e.Needs(ps[n - 1], ps[n]);
    }
  }

  // ----- References -----

  /** The name that a reference to this library is changed to. */
  function Identity(e: Env, lib: Path): Path {
    LOADER_PATH + e.Name(e.Resolved(lib))
  }

  /** The list with the references to `changed` changed. */
  function Changed(e: Env, libs: seq<Path>, changed: seq<Path>): seq<Path> {
    seq(|libs|, i requires 0 <= i < |libs| => if libs[i] in changed then Identity(e, libs[i]) else libs[i])
  }

  /** The list with all references changed that must be. */
  function Redirected(e: Env, libs: seq<Path>): seq<Path> {
    seq(|libs|, i requires 0 <= i < |libs| => if e.MustCopy(libs[i]) then Identity(e, libs[i]) else libs[i])
  }

  predicate AllSafe(e: Env, libs: seq<Path>) {
    forall i :: 0 <= i < |libs| ==> !e.MustCopy(libs[i])
  }

  lemma {:induction false} IdentityIsSafe(e: Env, lib: Path)
    ensures !e.MustCopy(Identity(e, lib))
  {
    assert SAFE_PREFIXES[4] == "@loader_path/";
    assert LOADER_PATH[..13] == "@loader_path/";
    assert Identity(e, lib)[..13] == LOADER_PATH[..13];
  }

  lemma {:induction false} RedirectedIsSafe(e: Env, libs: seq<Path>)
    ensures AllSafe(e, Redirected(e, libs)) && |Redirected(e, libs)| == |libs|
    ensures AllSafe(e, libs) ==> Redirected(e, libs) == libs
  {
    forall i | 0 <= i < |libs|
      ensures !e.MustCopy(Redirected(e, libs)[i])
    {
      IdentityIsSafe(e, libs[i]);
    }
  }

  /** Changing one more reference, wherever it occurs. */
  lemma {:induction false} ChangedOneMore(e: Env, libs: seq<Path>, changed: seq<Path>, lib: Path)
    requires e.MustCopy(lib)
    ensures Changed(e, Changed(e, libs, changed), [lib]) == Changed(e, libs, changed + [lib])
  {
    forall i | 0 <= i < |libs|
      ensures Changed(e, Changed(e, libs, changed), [lib])[i] == Changed(e, libs, changed + [lib])[i]
    {
      IdentityIsSafe(e, libs[i]);
    }
  }

  // ----- The roots -----

  function RootsOf(e: Env, names: seq<Path>): set<Path> {
    set i | 0 <= i < |names| && e.Loadable(e.Resolved(names[i])) :: e.Resolved(names[i])
  }

  lemma {:induction false} RootsOfNext(e: Env, names: seq<Path>, k: nat)
    requires k < |names|
    ensures var q := e.Resolved(names[k]);
            RootsOf(e, names[..k + 1]) == RootsOf(e, names[..k]) + if e.Loadable(q) then {q} else {}
  {
  }
}
