/** Bundles for which the run goes wrong, one for every way. */
module InternalizerFailures {
  import opened Dependencies
  import opened Internalizer
  import opened InternalizerResults
  import opened Wrappers

  const BUNDLE: set<Path> := {"app"}

  /** A bundle of one file that refers to these libraries, which stand where they are named. */
  function BundleOf(libs: seq<Path>, loadable: set<Path>, basename: Path -> string): Env {
    Env(p => p, basename, p => p in loadable, p => p in loadable, p => if p == "app" then libs else [], "B")
  }

  /** The path is neither safe nor in the bundle. */
  predicate Outside(p: Path) {
    p != "" && p[0] != '/' && p[0] != '@' && p[0] != 'B'
  }

  lemma {:induction false} OutsideMustBeCopied(e: Env, p: Path)
    requires e.bundle == "B" && Outside(p)
    ensures e.MustCopy(p)
  {
    forall i | 0 <= i < |SAFE_PREFIXES|
      ensures SAFE_PREFIXES[i] != "" && (SAFE_PREFIXES[i][0] == '/' || SAFE_PREFIXES[i][0] == '@')
    {
    }
  }

  lemma {:induction false} ReachOfBundle(libs: seq<Path>, loadable: set<Path>, basename: Path -> string)
    requires "app" in loadable && (forall p :: p in loadable ==> Outside(p))
    requires forall i :: 0 <= i < |libs| ==> Outside(libs[i])
    ensures var e := BundleOf(libs, loadable, basename);
            && RootsOf(e, ["app"]) == BUNDLE && e.Walked(BUNDLE)
            && (forall p :: e.Reachable(BUNDLE, p) ==> p in loadable)
            && (forall i :: 0 <= i < |libs| && libs[i] in loadable ==> e.NeedsAt("app", libs[i], i))
            && (forall i :: 0 <= i < |libs| && libs[i] in loadable ==> e.Reachable(BUNDLE, libs[i]))
  {
    var e := BundleOf(libs, loadable, basename);
    assert ["app"][0] == "app";
    forall p
      ensures !e.Loadable(e.Spot(p))
    {
      assert e.Spot(p)[0] == 'B';
    }
    forall p | e.Reachable(BUNDLE, p)
      ensures p in loadable
    {
      ReachableIsLoadable(e, BUNDLE, p);
    }
    forall i | 0 <= i < |libs| && libs[i] in loadable
      ensures e.NeedsAt("app", libs[i], i) && e.Reachable(BUNDLE, libs[i])
    {
      OutsideMustBeCopied(e, libs[i]);
      assert e.NeedsAt("app", libs[i], i);
      assert e.Chain(BUNDLE, ["app", libs[i]]);
    }
  }

  lemma {:induction false} OneRedirected(e: Env, lib: Path)
    requires e.MustCopy(lib)
    ensures Redirected(e, [lib]) == ["@loader_path/../Frameworks/" + e.Name(e.Resolved(lib))]
  {
  }

  lemma {:induction false} LeftDangling(e: Env, roots: set<Path>, s: State, p: Path, lib: Path)
    requires Finished(e, roots, s) && (forall r :: e.Reachable(roots, r) ==> r in roots)
    requires p in roots && e.Libs(p) == [lib] && e.MustCopy(lib)
    ensures s.Now(e, p) == ["@loader_path/../Frameworks/" + e.Name(e.Resolved(lib))]
  {
    NothingIsCopied(e, roots, s, p);
    FilesAreRedirected(e, roots, s, p);
    OneRedirected(e, lib);
  }

  const DANGLING: Path := "@loader_path/../Frameworks/" + "lib"

  /** A library that cannot be loaded is not copied, but the reference to it is changed to a name
      that nothing has. */
  method DanglingReference() returns (libraries: seq<Path>, copied: map<Path, Path>)
    ensures libraries == [DANGLING] && copied == map[]
  {
    var env := BundleOf(["lib"], {"app"}, p => p);
    ReachOfBundle(["lib"], {"app"}, p => p);
    var i := Internalize(env, ["app"], {"app"});
    libraries, copied := i.GetLibs("app"), i.copied;
    forall f
      ensures f !in copied
    {
      NothingIsCopied(env, BUNDLE, i.Value(), f);
    }
    OutsideMustBeCopied(env, "lib");
    LeftDangling(env, BUNDLE, i.Value(), "app", "lib");
  }

  /** Of two libraries in different places with one name, both needed, one is missing. */
  method LostLibrary() returns (done: set<Path>)
    ensures "a/lib" !in done || "b/lib" !in done
    ensures var e := BundleOf(["a/lib", "b/lib"], {"app", "a/lib", "b/lib"}, p => "lib");
            e.Reachable(BUNDLE, "a/lib") && e.Reachable(BUNDLE, "b/lib")
  {
    var libs, loadable := ["a/lib", "b/lib"], {"app", "a/lib", "b/lib"};
    ReachOfBundle(libs, loadable, p => "lib");
    assert libs[0] == "a/lib" && libs[1] == "b/lib";
    var env := BundleOf(libs, loadable, p => "lib");
    var i := Internalize(env, ["app"], loadable);
    done := i.done.Keys;
    assert "a/lib"[0] != "b/lib"[0];
    if "a/lib" in done && "b/lib" in done {
      OnlyOwner(env, BUNDLE, i.Value(), "a/lib", "b/lib");
      assert false;
    }
  }

  // ----- A library named like a file of the bundle -----

  const SLOT: Path := "B/Contents/Frameworks/lib"
  const FILES: set<Path> := {"app", SLOT, "opt/lib", "opt/bar"}
  const NAMES: seq<Path> := ["app", SLOT]
  const ROOTS: set<Path> := {"app", SLOT}

  /** A bundle that was internalized before, with its executable built anew: that refers to a
      library again whose copy is there already. */
  function Rebuilt(): Env {
    Env(p => p, p => if p == "app" then "app" else if p == "opt/bar" then "bar" else "lib",
        p => p in FILES, p => p in FILES,
        p => if p == "app" then ["opt/lib"] else if p == SLOT then ["opt/bar"] else [], "B")
  }

  lemma {:induction false} SlotOfLib()
    ensures Rebuilt().Slot("lib") == SLOT && Rebuilt().Spot("opt/lib") == SLOT
    ensures SLOT[0] == 'B' && SLOT != "app" && SLOT != "opt/lib" && SLOT != "opt/bar"
  {
    assert "B" + "/Contents/Frameworks/" + "lib" == SLOT;
  }

  lemma {:induction false} RebuiltIsWalked()
    ensures RootsOf(Rebuilt(), NAMES) == ROOTS && Rebuilt().Walked(ROOTS)
  {
    var e := Rebuilt();
    SlotOfLib();
    assert NAMES[0] == "app" && NAMES[1] == SLOT;
    forall p | e.Loadable(e.Spot(p))
      ensures e.Spot(p) in ROOTS
    {
      assert e.Spot(p)[0] == 'B';
      assert "app"[0] == 'a' && "opt/lib"[0] == 'o' && "opt/bar"[0] == 'o';
    }
  }

  lemma {:induction false} RebuiltNeeds()
    ensures var e := Rebuilt();
            && e.NeedsAt("app", "opt/lib", 0) && e.NeedsAt(SLOT, "opt/bar", 0)
            && (forall p, q :: e.Needs(p, q) ==> (p == "app" && q == "opt/lib") || (p == SLOT && q == "opt/bar"))
  {
    var e := Rebuilt();
    SlotOfLib();
    OutsideMustBeCopied(e, "opt/lib");
    OutsideMustBeCopied(e, "opt/bar");
    forall p, q | e.Needs(p, q)
      ensures (p == "app" && q == "opt/lib") || (p == SLOT && q == "opt/bar")
    {
      var i :| e.NeedsAt(p, q, i);
    }
  }

  /** No two libraries collide, and both are within reach. */
  lemma {:induction false} RebuiltHasNoCollision()
    ensures Rebuilt().NoCollision(ROOTS)
    ensures Rebuilt().Reachable(ROOTS, "opt/lib") && Rebuilt().Reachable(ROOTS, "opt/bar")
    ensures !Rebuilt().NamesAreFree(ROOTS)
  {
    var e := Rebuilt();
    SlotOfLib();
    RebuiltIsWalked();
    RebuiltNeeds();
    assert e.Needs("app", "opt/lib") && e.Needs(SLOT, "opt/bar");
    assert e.Chain(ROOTS, ["app", "opt/lib"]) && e.Chain(ROOTS, [SLOT, "opt/bar"]);
    forall p | e.ToCopy(ROOTS, p)
      ensures p == "opt/lib" || p == "opt/bar"
    {
      ReachableIsLoadable(e, ROOTS, p);
    }
    assert "lib"[0] != "bar"[0];
    assert e.ToCopy(ROOTS, "opt/lib") && e.Exists(e.Spot("opt/lib"));
  }

  /** After the executable, the library that it refers to is on the worklist. */
  predicate ExecutableIsDone(s: State) {
    s.todo.Keys == {SLOT, "opt/lib"} && s.done.Keys == {"app"} && s.copied == map[]
  }

  lemma {:induction false} LibraryIsNext(s: State, t: State, o: Path)
    requires s.done == map[] && s.copied == map[] && s.todo.Keys == ROOTS
    requires Advanced(Rebuilt(), ROOTS, s, "app", t) && t.todo.Keys !! t.done.Keys
    requires o in t.Taken() && (o == "opt/lib" || (o !in ROOTS && Rebuilt().Name(o) == "lib"))
    ensures ExecutableIsDone(t)
  {
    RebuiltNeeds();
    assert o in t.todo;
  }

  /** Then its copy stands in the place of the bundle's own library, which is next. */
  predicate LibraryIsDone(s: State) {
    s.todo.Keys == {SLOT} && s.done.Keys == {"app", "opt/lib"} && s.copied == map[SLOT := "opt/lib"]
  }

  lemma {:induction false} SlotIsNext(s: State, t: State)
    requires ExecutableIsDone(s) && Advanced(Rebuilt(), ROOTS, s, "opt/lib", t) && t.todo.Keys !! t.done.Keys
    ensures LibraryIsDone(t)
  {
    RebuiltNeeds();
    SlotOfLib();
  }

  lemma {:induction false} NothingIsNext(s: State, t: State)
    requires LibraryIsDone(s) && Advanced(Rebuilt(), ROOTS, s, SLOT, t) && t.todo.Keys !! t.done.Keys
    ensures t.todo == map[] && t.done.Keys == {"app", "opt/lib", SLOT} && t.copied == map[SLOT := "opt/lib"]
  {
    SlotOfLib();
    assert t.todo.Keys == {};
  }

  method StartRebuilt(ghost reach: iset<Path>) returns (i: Internalizer)
    requires reach == Rebuilt().Reach(ROOTS)
    ensures fresh(i) && i.env == Rebuilt() && Rebuilt().Walked(ROOTS) && LoadableAndClosed(Rebuilt(), reach)
    ensures i.done == map[] && i.copied == map[] && i.todo.Keys == ROOTS && Inv(Rebuilt(), ROOTS, reach, i.Value())
  {
    RebuiltIsWalked();
    ReachIsLoadableAndClosed(Rebuilt(), ROOTS);
    i := new Internalizer(Rebuilt());
    i.AddStandard(NAMES);
    StartsWell(Rebuilt(), ROOTS, reach, i.Value());
  }

  method ProcessExecutable(i: Internalizer, ghost reach: iset<Path>)
    requires i.env == Rebuilt() && Rebuilt().Walked(ROOTS) && LoadableAndClosed(Rebuilt(), reach)
    requires i.done == map[] && i.copied == map[] && i.todo.Keys == ROOTS && Inv(Rebuilt(), ROOTS, reach, i.Value())
    modifies i
    ensures ExecutableIsDone(i.Value()) && Inv(Rebuilt(), ROOTS, reach, i.Value())
  {
    ghost var s := i.Value();
    SlotOfLib();
    RebuiltNeeds();
    i.Process("app", ROOTS, reach);
    assert "app" in i.Value().Intact();
    ghost var o := NeededIsSettled(Rebuilt(), ROOTS, reach, i.Value(), "app", "opt/lib", 0);
    LibraryIsNext(s, i.Value(), o);
  }

  method ProcessLibrary(i: Internalizer, ghost reach: iset<Path>)
    requires i.env == Rebuilt() && Rebuilt().Walked(ROOTS) && LoadableAndClosed(Rebuilt(), reach)
    requires ExecutableIsDone(i.Value()) && Inv(Rebuilt(), ROOTS, reach, i.Value())
    modifies i
    ensures LibraryIsDone(i.Value()) && Inv(Rebuilt(), ROOTS, reach, i.Value())
  {
    ghost var s := i.Value();
    i.Process("opt/lib", ROOTS, reach);
    SlotIsNext(s, i.Value());
  }

  method ProcessSlot(i: Internalizer, ghost reach: iset<Path>)
    requires i.env == Rebuilt() && Rebuilt().Walked(ROOTS) && LoadableAndClosed(Rebuilt(), reach)
    requires LibraryIsDone(i.Value()) && Inv(Rebuilt(), ROOTS, reach, i.Value())
    modifies i
    ensures i.env == Rebuilt() && i.todo == map[] && i.done.Keys == {"app", "opt/lib", SLOT} && "opt/bar" !in i.done
    ensures i.copied == map[SLOT := "opt/lib"]
  {
    ghost var s := i.Value();
    SlotOfLib();
    assert "opt/bar"[4] == 'b' && "opt/lib"[4] == 'l' && "app"[0] == 'a';
    i.Process(SLOT, ROOTS, reach);
    NothingIsNext(s, i.Value());
  }

  /** Taking the executable first and then its library, the bundle's own library is replaced before
      it was read, and what only that one needs is never processed. */
  method ReplacedLibrary() returns (i: Internalizer)
    ensures i.env == Rebuilt() && i.todo == map[] && i.done.Keys == {"app", "opt/lib", SLOT} && "opt/bar" !in i.done
    ensures i.copied == map[SLOT := "opt/lib"] && Rebuilt().Exists(SLOT)
    ensures Rebuilt().NoCollision(ROOTS) && Rebuilt().Reachable(ROOTS, "opt/bar")
  {
    ghost var reach := Rebuilt().Reach(ROOTS);
    i := StartRebuilt(reach);
    ProcessExecutable(i, reach);
    ProcessLibrary(i, reach);
    ProcessSlot(i, reach);
    RebuiltHasNoCollision();
  }
}
