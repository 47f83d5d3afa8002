/** What the run over a bundle achieves, and what it does not. */
module InternalizerResults {
  import opened Dependencies
  import opened Internalizer
  import opened Wrappers

  /** The worklist is empty. */
  ghost predicate Finished(e: Env, roots: set<Path>, s: State) {
    e.Walked(roots) && s.todo == map[] && Inv(e, roots, e.Reach(roots), s)
  }

  ghost predicate DoneIsReach(e: Env, roots: set<Path>, s: State) {
    forall p :: p in s.done <==> e.Reachable(roots, p)
  }

  /** No file that was there before was replaced by a copy. */
  ghost predicate BundleIsKept(e: Env, s: State) {
    forall f :: f in s.copied ==> !e.Exists(f)
  }

  /** Nor was a copy replaced by another. */
  ghost predicate CopiesAreKept(e: Env, roots: set<Path>, s: State) {
    forall p :: p in s.done && p !in roots ==> e.Spot(p) in s.copied && s.copied[e.Spot(p)] == p
  }

  // ----- Small facts -----

  lemma {:induction false} DoneFacts(e: Env, roots: set<Path>, s: State)
    requires Finished(e, roots, s)
    ensures s.Taken() == s.done.Keys && roots <= s.done.Keys
    ensures forall p :: p in s.done ==> e.Reachable(roots, p)
    ensures forall p :: p in s.done && p !in roots ==> e.ToCopy(roots, p) && e.Loadable(p) && e.Spot(p) in s.copied
    ensures forall f :: f in s.copied ==> e.ToCopy(roots, s.copied[f]) && e.Spot(s.copied[f]) == f
  {
    assert s.Taken() == s.done.Keys;
    assert forall p :: p in s.done ==> p in e.Reach(roots);
    ReachIsLoadableAndClosed(e, roots);
  }

  /** If the bundle was kept, every file of it was read before a copy could have replaced it. */
  lemma {:induction false} KeptIsIntact(e: Env, roots: set<Path>, s: State)
    requires Finished(e, roots, s) && BundleIsKept(e, s)
    ensures s.Intact() == s.done.Keys
  {
    assert s.stale == {} by {
      assert forall p :: p in s.stale ==> p in roots && p in s.copied;
    }
  }

  lemma {:induction false} OnlyOwner(e: Env, roots: set<Path>, s: State, p: Path, q: Path)
    requires Finished(e, roots, s)
    requires p in s.done && q in s.done && p !in roots && q !in roots && e.Name(p) == e.Name(q)
    ensures p == q
  {
    DoneFacts(e, roots, s);
  }

  lemma {:induction false} NothingIsMissed(e: Env, roots: set<Path>, s: State, p: Path, q: Path)
    requires Finished(e, roots, s) && e.NoCollision(roots)
    requires p in s.Intact() && e.Needs(p, q)
    ensures q in s.done
  {
    DoneFacts(e, roots, s);
    var i :| e.NeedsAt(p, q, i);
    var o := NeededIsSettled(e, roots, e.Reach(roots), s, p, q, i);
    ReachableStep(e, roots, p, q);
    assert q !in roots && o != q ==> e.ToCopy(roots, q) && e.ToCopy(roots, o);
  }

  /** A run that reaches only the bundle copies nothing. */
  lemma {:induction false} NothingIsCopied(e: Env, roots: set<Path>, s: State, f: Path)
    requires Finished(e, roots, s) && (forall p :: e.Reachable(roots, p) ==> p in roots)
    ensures f !in s.copied
  {
    DoneFacts(e, roots, s);
  }

  // ----- Main results -----

  /** If no file of the bundle was replaced, exactly the reachable files were processed if and only
      if no two libraries to copy share a base name. */
  lemma {:induction false} ReachedIfKept(e: Env, roots: set<Path>, s: State)
    requires Finished(e, roots, s) && BundleIsKept(e, s)
    ensures DoneIsReach(e, roots, s) <==> e.NoCollision(roots)
  {
    DoneFacts(e, roots, s);
    KeptIsIntact(e, roots, s);
    if e.NoCollision(roots) {
      forall p, q | p in s.done.Keys && e.Needs(p, q)
        ensures q in s.done.Keys
      {
        NothingIsMissed(e, roots, s, p, q);
      }
      forall p | e.Reachable(roots, p)
        ensures p in s.done
      {
        var ps :| e.Chain(roots, ps) && ps[|ps| - 1] == p;
        ChainIsIn(e, roots, s.done.Keys, ps);
      }
    }
    if DoneIsReach(e, roots, s) {
      forall p, q | e.ToCopy(roots, p) && e.ToCopy(roots, q) && e.Name(p) == e.Name(q)
        ensures p == q
      {
        OnlyOwner(e, roots, s, p, q);
      }
    }
  }

  /** No file of the bundle is replaced if no library to copy has the name of something that stands
      in the framework directory; and only then, when no two of these libraries share a name. */
  lemma {:induction false} KeptIffNamesAreFree(e: Env, roots: set<Path>, s: State)
    requires Finished(e, roots, s)
    ensures e.NamesAreFree(roots) ==> BundleIsKept(e, s)
    ensures e.NoCollision(roots) ==> (BundleIsKept(e, s) <==> e.NamesAreFree(roots))
  {
    DoneFacts(e, roots, s);
    if e.NoCollision(roots) && BundleIsKept(e, s) {
      ReachedIfKept(e, roots, s);
      forall p | e.ToCopy(roots, p)
        ensures !e.Exists(e.Spot(p))
      {
        assert p in s.done && e.Spot(p) in s.copied;
      }
    }
  }

  /** In whatever order the worklist was emptied: exactly the reachable files were processed, with
      nothing of the bundle and no copy replaced, if and only if every library to copy has a place
      of its own that is free. */
  lemma {:induction false} ProcessedAreReachable(e: Env, roots: set<Path>, s: State)
    requires Finished(e, roots, s)
    ensures DoneIsReach(e, roots, s) && BundleIsKept(e, s) && CopiesAreKept(e, roots, s) <==> e.Fits(roots)
  {
    DoneFacts(e, roots, s);
    if e.Fits(roots) {
      assert e.NoCollision(roots);
      KeptIffNamesAreFree(e, roots, s);
      ReachedIfKept(e, roots, s);
    }
    if DoneIsReach(e, roots, s) && BundleIsKept(e, s) && CopiesAreKept(e, roots, s) {
      forall p, q | e.ToCopy(roots, p) && e.ToCopy(roots, q) && e.Spot(p) == e.Spot(q)
        ensures p == q
      {
        assert p in s.done && q in s.done;
      }
      ReachedIfKept(e, roots, s);
      KeptIffNamesAreFree(e, roots, s);
    }
  }

  /** Whatever was replaced, no two copied libraries have the same name, and each was copied. */
  lemma {:induction false} NamesAreUnique(e: Env, roots: set<Path>, s: State, p: Path, q: Path)
    requires Finished(e, roots, s)
    requires p in s.done && q in s.done && s.done[p].Some? && s.done[p] == s.done[q]
    ensures p == q && e.Resolved(e.Slot(s.done[p].value)) in s.copied
  {
    DoneFacts(e, roots, s);
    OnlyOwner(e, roots, s, p, q);
  }

  // ----- What the files refer to in the end -----

  /** The file that was read for what stands here. */
  function SourceOf(s: State, f: Path): Path {
    if f in s.copied then s.copied[f] else f
  }

  /** The path is one that a bundle may refer to: in the system, relative, or in the bundle. */
  predicate IsSafe(e: Env, lib: Path) {
    || "/System/" <= lib || "/lib/" <= lib || "/usr/lib/" <= lib || "/usr/X11/lib/" <= lib
    || "@loader_path/" <= lib || "@executable_path/" <= lib || e.bundle <= lib
  }

  lemma {:induction false} SafeOrMustBeCopied(e: Env, lib: Path)
    ensures IsSafe(e, lib) <==> !e.MustCopy(lib)
  {
    assert "/System/" == SAFE_PREFIXES[0] && "/lib/" == SAFE_PREFIXES[1] && "/usr/lib/" == SAFE_PREFIXES[2];
    assert "/usr/X11/lib/" == SAFE_PREFIXES[3] && "@loader_path/" == SAFE_PREFIXES[4];
    assert "@executable_path/" == SAFE_PREFIXES[5];
  }

  lemma {:induction false} FilesAreRedirected(e: Env, roots: set<Path>, s: State, f: Path)
    requires Finished(e, roots, s) && (f in roots || f in s.copied)
    ensures s.Now(e, f) == Redirected(e, e.Libs(SourceOf(s, f)))
  {
    DoneFacts(e, roots, s);
    assert s.Now(e, f) == Expected(e, roots, s, f);
  }

  /** What the script is for: afterwards no file of the bundle, copies included, refers to anything
      outside the safe places, and what did not before is as it was; in any order and whatever was
      replaced. */
  lemma {:induction false} BundleIsSelfContained(e: Env, roots: set<Path>, s: State, f: Path, i: nat)
    requires Finished(e, roots, s) && (f in roots || f in s.copied) && i < |e.Libs(SourceOf(s, f))|
    ensures |s.Now(e, f)| == |e.Libs(SourceOf(s, f))| && IsSafe(e, s.Now(e, f)[i])
    ensures IsSafe(e, e.Libs(SourceOf(s, f))[i]) ==> s.Now(e, f)[i] == e.Libs(SourceOf(s, f))[i]
  {
    FilesAreRedirected(e, roots, s, f);
    RedirectedIsSafe(e, e.Libs(SourceOf(s, f)));
    SafeOrMustBeCopied(e, s.Now(e, f)[i]);
    SafeOrMustBeCopied(e, e.Libs(SourceOf(s, f))[i]);
  }

  /** In the framework directory this name is that of just this library: of a copy of it, or of the
      library itself. */
  predicate Stands(e: Env, s: State, name: string, q: Path) {
    var f := e.Resolved(e.bundle + "/Contents/Frameworks/" + name);
    if f in s.copied then s.copied[f] == q else f == q && e.Exists(f)
  }

  /** The loader finds just this library by this reference. */
  ghost predicate Finds(e: Env, s: State, reference: Path, q: Path) {
    exists n :: reference == "@loader_path/../Frameworks/" + n && Stands(e, s, n, q)
  }

  lemma {:induction false} FindsByName(e: Env, s: State, name: string, q: Path)
    ensures Finds(e, s, LOADER_PATH + name, q) <==> Stands(e, s, name, q)
  {
    forall n | LOADER_PATH + name == "@loader_path/../Frameworks/" + n
      ensures n == name
    {
      assert (LOADER_PATH + name)[|LOADER_PATH|..] == name;
      assert ("@loader_path/../Frameworks/" + n)[|LOADER_PATH|..] == n;
    }
  }

  lemma {:induction false} NamedBySpot(e: Env, roots: set<Path>, s: State, f: Path, i: nat)
    requires Finished(e, roots, s) && (f in roots || f in s.copied) && i < |e.Libs(SourceOf(s, f))|
    requires !IsSafe(e, e.Libs(SourceOf(s, f))[i])
    ensures var q := e.Resolved(e.Libs(SourceOf(s, f))[i]);
            && |s.Now(e, f)| == |e.Libs(SourceOf(s, f))|
            && (Finds(e, s, s.Now(e, f)[i], q) <==> Stands(e, s, e.Name(q), q))
            && e.Spot(q) == e.Resolved(e.bundle + "/Contents/Frameworks/" + e.Name(q))
  {
    var q := e.Resolved(e.Libs(SourceOf(s, f))[i]);
    FilesAreRedirected(e, roots, s, f);
    SafeOrMustBeCopied(e, e.Libs(SourceOf(s, f))[i]);
    assert s.Now(e, f)[i] == LOADER_PATH + e.Name(q);
    FindsByName(e, s, e.Name(q), q);
  }

  lemma {:induction false} NeededIsReached(e: Env, roots: set<Path>, s: State, p: Path, q: Path, i: nat)
    requires Finished(e, roots, s) && p in s.done && e.NeedsAt(p, q, i)
    ensures e.Reachable(roots, q)
  {
    DoneFacts(e, roots, s);
    assert e.Needs(p, q);
    ReachableStep(e, roots, p, q);
  }

  /** A file that stands in the bundle afterwards finds a library it needs if and only if that was
      processed and its copy not replaced, or it stands in the framework directory and was not
      replaced. Every other library, one that could not be loaded, that lost its name, or that is
      elsewhere in the bundle, is still looked for in the framework directory: where there is
      another file or none. When every library to copy has a free place of its own, the condition is
      that the library is to be copied and can be loaded, or stands there. */
  lemma {:induction false} ReferencesAreRight(e: Env, roots: set<Path>, s: State, f: Path, i: nat)
    requires Finished(e, roots, s) && (f in roots || f in s.copied) && i < |e.Libs(SourceOf(s, f))|
    requires !IsSafe(e, e.Libs(SourceOf(s, f))[i])
    ensures |s.Now(e, f)| == |e.Libs(SourceOf(s, f))|
    ensures var q := e.Resolved(e.Libs(SourceOf(s, f))[i]);
            Finds(e, s, s.Now(e, f)[i], q)
            <==> (q in s.done && q !in roots && e.Spot(q) in s.copied && s.copied[e.Spot(q)] == q)
                 || (e.Spot(q) == q && e.Exists(q) && q !in s.copied)
    ensures var q := e.Resolved(e.Libs(SourceOf(s, f))[i]);
            e.Fits(roots) ==>
              (Finds(e, s, s.Now(e, f)[i], q)
               <==> (e.Loadable(q) && q !in roots) || (e.Spot(q) == q && e.Exists(q)))
  {
    var q := e.Resolved(e.Libs(SourceOf(s, f))[i]);
    NamedBySpot(e, roots, s, f, i);
    DoneFacts(e, roots, s);
    if e.Fits(roots) {
      ProcessedAreReachable(e, roots, s);
      SafeOrMustBeCopied(e, e.Libs(SourceOf(s, f))[i]);
      if e.Loadable(q) {
        NeededIsReached(e, roots, s, SourceOf(s, f), q, i);
      }
    }
  }

  /** So when there is a free place for everything, a processed file finds each library that it needs
      from outside the bundle, where it stands now. */
  lemma {:induction false} NeedsAreFound(e: Env, roots: set<Path>, s: State, p: Path, q: Path, i: nat)
    requires Finished(e, roots, s) && e.Fits(roots) && p in s.done && e.NeedsAt(p, q, i) && q !in roots
    ensures var f := if p in roots then p else e.Resolved(e.bundle + "/Contents/Frameworks/" + e.Name(p));
            && |s.Now(e, f)| == |e.Libs(p)|
            && exists n :: s.Now(e, f)[i] == "@loader_path/../Frameworks/" + n
                           && var g := e.Resolved(e.bundle + "/Contents/Frameworks/" + n);
                              g in s.copied && s.copied[g] == q
  {
    DoneFacts(e, roots, s);
    ProcessedAreReachable(e, roots, s);
    var f := if p in roots then p else e.Resolved(e.bundle + "/Contents/Frameworks/" + e.Name(p));
    assert p !in roots ==> f == e.Spot(p);
    assert p in roots ==> e.Exists(p);
    assert SourceOf(s, f) == p;
    SafeOrMustBeCopied(e, e.Libs(p)[i]);
    NeededIsReached(e, roots, s, p, q, i);
    ReferencesAreRight(e, roots, s, f, i);
    var n :| s.Now(e, f)[i] == "@loader_path/../Frameworks/" + n && Stands(e, s, n, q);
    assert e.ToCopy(roots, q);
    assert e.Spot(q) in s.copied;
    var g := e.Resolved(e.bundle + "/Contents/Frameworks/" + n);
    NamedBySpot(e, roots, s, f, i);
    FindsByName(e, s, n, q);
  }

  // ----- The script -----

  /** Takes up the bundle and empties the worklist. There are finitely many files; `universe` has
      those in reach. */
  method Internalize(env: Env, names: seq<Path>, ghost universe: set<Path>) returns (i: Internalizer)
    requires env.Walked(RootsOf(env, names))
    requires forall p :: env.Reachable(RootsOf(env, names), p) ==> p in universe
    ensures fresh(i) && i.env == env && Finished(env, RootsOf(env, names), i.Value())
    ensures var roots := RootsOf(env, names);
            DoneIsReach(env, roots, i.Value()) && BundleIsKept(env, i.Value()) && CopiesAreKept(env, roots, i.Value())
            <==> env.Fits(roots)
  {
    ghost var roots := RootsOf(env, names);
    ghost var reach := env.Reach(roots);
    i := new Internalizer(env);
    i.AddStandard(names);
    ReachIsLoadableAndClosed(env, roots);
    StartsWell(env, roots, reach, i.Value());
    i.Run(roots, reach, universe);
    ProcessedAreReachable(env, roots, i.Value());
  }
}
