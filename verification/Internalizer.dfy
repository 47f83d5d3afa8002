/** Slurping the libraries that a bundle depends on: a worklist over the dependency graph that
    picks its next item arbitrarily, copies every library into the framework directory of the
    bundle, and changes the references. Copies are written over whatever stands in their place. */
module Internalizer {
  import opened Dependencies
  import opened Wrappers

  /** The worklist and what the run has done to the file system: which library was copied to a file
      last, and what the files refer to that were changed. `stale` is history: the files of the
      bundle that a copy had replaced before they were read. */
  datatype State = State(
    todo: map<Path, Option<string>>, done: map<Path, Option<string>>, used: set<string>,
    copied: map<Path, Path>, contents: map<Path, seq<Path>>, stale: set<Path>)
  {
    function Taken(): set<Path> { todo.Keys + done.Keys }
    function Intact(): set<Path> { done.Keys - stale }
    function Now(e: Env, p: Path): seq<Path> { if p in contents then contents[p] else e.Libs(p) }
  }

  /** The new name of a file: the roots stay where they are. */
  function NameFor(e: Env, roots: set<Path>, p: Path): Option<string> {
    if p in roots then None else Some(e.Name(p))
  }

  /** The file in which the references of `p` are changed. */
  function PlaceOf(e: Env, roots: set<Path>, p: Path): Path {
    if p in roots then p else e.Spot(p)
  }

  // ----- Taking up files -----

  /** What the files taken up so far keep: only reachable ones; the roots among them; the names in
      use are the base names of the others, each the name of one file. */
  ghost predicate TakenInv(e: Env, roots: set<Path>, reach: iset<Path>, taken: set<Path>, used: set<string>) {
    && roots <= taken
    && (forall p :: p in taken ==> p in reach)
    && (forall p :: p in taken && p !in roots ==> e.Name(p) in used)
    && (forall p, q :: p in taken && q in taken && p !in roots && q !in roots ==>
          (e.Name(p) == e.Name(q) ==> p == q))
    && (forall n :: n in used ==> HasOwner(e, roots, taken, n))
  }

  ghost predicate HasOwner(e: Env, roots: set<Path>, taken: set<Path>, n: string) {
    exists p :: p in taken && p !in roots && e.Name(p) == n
  }

  /** A needed file was taken up, or another one already had its name. */
  ghost predicate Settled(e: Env, q: Path, taken: set<Path>, used: set<string>) {
    q in taken || e.Name(q) in used
  }

  ghost predicate AllSettled(e: Env, p: Path, n: int, taken: set<Path>, used: set<string>) {
    forall q, i :: 0 <= i < n && e.NeedsAt(p, q, i) ==> Settled(e, q, taken, used)
  }

  /** Entries only appear, new ones for what `src` needs and under the name they are to get. */
  ghost predicate Extends(e: Env, roots: set<Path>, src: Path, todo0: map<Path, Option<string>>,
                          done: map<Path, Option<string>>, todo: map<Path, Option<string>>)
  {
    && (forall p :: p in todo0 ==> p in todo && todo[p] == todo0[p])
    && (forall p :: p in todo && p !in todo0 ==>
          p !in done && e.Needs(src, p) && todo[p] == NameFor(e, roots, p))
  }

  /** What `src` needs may be looked up in this list: its own, or one in which nothing must be
      copied. */
  ghost predicate ReadOf(e: Env, src: Path, libraries: seq<Path>) {
    libraries == e.Libs(src) || AllSafe(e, libraries)
  }

  ghost predicate MustChange(e: Env, libraries: seq<Path>, mustChange: seq<Path>) {
    forall lib :: lib in mustChange <==> lib in libraries && e.MustCopy(lib)
  }

  lemma {:induction false} MustChangeNext(e: Env, libraries: seq<Path>, k: nat, mustChange: seq<Path>)
    requires k < |libraries| && MustChange(e, libraries[..k], mustChange)
    ensures MustChange(e, libraries[..k + 1],
                       if e.MustCopy(libraries[k]) then mustChange + [libraries[k]] else mustChange)
  {
  }

  lemma {:induction false} AfterAdd(e: Env, roots: set<Path>, reach: iset<Path>, q: Path, taken0: set<Path>,
                                    used0: set<string>, taken: set<Path>, used: set<string>)
    requires TakenInv(e, roots, reach, taken0, used0)
    requires e.Loadable(q) ==> q in reach
    requires if q in taken0 || !e.Loadable(q) || e.Name(q) in used0 then taken == taken0 && used == used0
             else taken == taken0 + {q} && used == used0 + {e.Name(q)}
    ensures TakenInv(e, roots, reach, taken, used)
    ensures e.Loadable(q) ==> Settled(e, q, taken, used)
  {
  }

  lemma {:induction false} SettledStays(e: Env, p: Path, n: nat, taken0: set<Path>, used0: set<string>,
                                        taken: set<Path>, used: set<string>)
    requires AllSettled(e, p, n, taken0, used0) && taken0 <= taken && used0 <= used
    requires forall q :: e.NeedsAt(p, q, n) ==> Settled(e, q, taken, used)
    ensures AllSettled(e, p, n + 1, taken, used)
  {
  }

  // ----- Rewriting -----

  lemma {:induction false} ChangedAll(e: Env, libraries: seq<Path>, mustChange: seq<Path>)
    requires MustChange(e, libraries, mustChange)
    ensures Changed(e, libraries, mustChange) == Redirected(e, libraries)
  {
  }

  // ----- The invariant -----

  /** The files in `done` have been processed and those in `todo` have not. Whatever a file needed
      that was read before a copy replaced it is settled. */
  ghost predicate Progress(e: Env, roots: set<Path>, reach: iset<Path>, s: State) {
    && s.todo.Keys !! s.done.Keys
    && TakenInv(e, roots, reach, s.Taken(), s.used)
    && (forall p :: p in s.todo ==> s.todo[p] == NameFor(e, roots, p))
    && (forall p :: p in s.done ==> s.done[p] == NameFor(e, roots, p))
    && (forall p :: p in s.stale ==> p in s.done && p in roots && p in s.copied)
    && (forall p :: p in s.Intact() ==> AllSettled(e, p, |e.Libs(p)|, s.Taken(), s.used))
  }

  /** What a file read intact needs was taken up, or `o`, which has its name. */
  lemma {:induction false} NeededIsSettled(e: Env, roots: set<Path>, reach: iset<Path>, s: State, p: Path, q: Path,
                                           i: nat) returns (o: Path)
    requires Progress(e, roots, reach, s) && p in s.Intact() && e.NeedsAt(p, q, i)
    ensures o in s.Taken() && (o == q || (o !in roots && e.Name(o) == e.Name(q)))
  {
    assert Settled(e, q, s.Taken(), s.used);
    if q in s.Taken() {
      o := q;
    } else {
      assert HasOwner(e, roots, s.Taken(), e.Name(q));
      o :| o in s.Taken() && o !in roots && e.Name(o) == e.Name(q);
    }
  }

  /** Every processed library that was not part of the bundle was copied, and nothing else was. */
  ghost predicate CopiedAre(e: Env, roots: set<Path>, s: State) {
    && (forall p :: p in s.done && p !in roots ==> e.Spot(p) in s.copied)
    && (forall f :: f in s.copied ==>
          s.copied[f] in s.done && s.copied[f] !in roots && e.Spot(s.copied[f]) == f)
  }

  /** What a file refers to: what the library copied there last refers to, or the file itself,
      with the references changed once it was processed. */
  function Expected(e: Env, roots: set<Path>, s: State, f: Path): seq<Path> {
    if f in s.copied then Redirected(e, e.Libs(s.copied[f]))
    else if f in s.done && f in roots then Redirected(e, e.Libs(f))
    else e.Libs(f)
  }

  ghost predicate ContentsAre(e: Env, roots: set<Path>, s: State) {
    forall f :: s.Now(e, f) == Expected(e, roots, s, f)
  }

  ghost predicate Inv(e: Env, roots: set<Path>, reach: iset<Path>, s: State) {
    && Progress(e, roots, reach, s)
    && CopiedAre(e, roots, s)
    && ContentsAre(e, roots, s)
  }

  /** The worklist after one file: `todo` is the worklist with what it needs, which is all it needs
      if it was read intact. */
  ghost predicate Took(e: Env, roots: set<Path>, reach: iset<Path>, s: State, src: Path,
                       todo: map<Path, Option<string>>, t: State)
  {
    && src in s.todo && Extends(e, roots, src, s.todo, s.done, todo) && s.used <= t.used
    && TakenInv(e, roots, reach, todo.Keys + s.done.Keys, t.used)
    && (src !in s.copied ==> AllSettled(e, src, |e.Libs(src)|, todo.Keys + s.done.Keys, t.used))
    && t.todo == todo - {src} && t.done == s.done[src := s.todo[src]]
    && t.stale == if src in s.copied then s.stale + {src} else s.stale
  }

  /** The files after one file: a library is copied, and references are changed in its place. */
  ghost predicate Wrote(e: Env, roots: set<Path>, s: State, src: Path, t: State) {
    && t.copied == (if src in roots then s.copied else s.copied[e.Spot(src) := src])
    && t.contents == s.contents[PlaceOf(e, roots, src) := Redirected(e, s.Now(e, src))]
  }

  /** The file `src` is read as it was, unless it is one of the bundle and a copy replaced it. */
  predicate ReadAs(e: Env, roots: set<Path>, s: State, src: Path) {
    if src in s.copied then src in roots && AllSafe(e, s.Now(e, src)) else s.Now(e, src) == e.Libs(src)
  }

  lemma {:induction false} WhatIsRead(e: Env, roots: set<Path>, s: State, src: Path)
    requires e.Walked(roots) && CopiedAre(e, roots, s) && ContentsAre(e, roots, s)
    requires e.Loadable(src) && src !in s.done
    ensures ReadAs(e, roots, s, src)
  {
    assert s.Now(e, src) == Expected(e, roots, s, src);
    if src in s.copied {
      assert e.Spot(s.copied[src]) == src;
      RedirectedIsSafe(e, e.Libs(s.copied[src]));
    }
  }

  lemma {:induction false} ProgressAfter(e: Env, roots: set<Path>, reach: iset<Path>, s: State, src: Path,
                                         todo: map<Path, Option<string>>, t: State)
    requires Progress(e, roots, reach, s) && Took(e, roots, reach, s, src, todo, t)
    requires src in s.copied ==> src in roots
    requires s.copied.Keys <= t.copied.Keys
    ensures Progress(e, roots, reach, t)
  {
    assert t.Taken() == todo.Keys + s.done.Keys;
    assert s.Taken() <= t.Taken();
    forall p | p in t.Intact()
      ensures AllSettled(e, p, |e.Libs(p)|, t.Taken(), t.used)
    {
      if p != src {
        assert p in s.Intact();
        assert AllSettled(e, p, |e.Libs(p)|, s.Taken(), s.used);
      }
    }
  }

  lemma {:induction false} CopiesAfter(e: Env, roots: set<Path>, s: State, src: Path, t: State)
    requires CopiedAre(e, roots, s) && Wrote(e, roots, s, src, t) && t.done.Keys == s.done.Keys + {src}
    ensures CopiedAre(e, roots, t) && s.copied.Keys <= t.copied.Keys
  {
  }

  lemma {:induction false} ContentsAfter(e: Env, roots: set<Path>, s: State, src: Path, t: State)
    requires ContentsAre(e, roots, s) && Wrote(e, roots, s, src, t) && t.done.Keys == s.done.Keys + {src}
    requires ReadAs(e, roots, s, src)
    ensures ContentsAre(e, roots, t)
  {
    RedirectedIsSafe(e, s.Now(e, src));
    forall f
      ensures t.Now(e, f) == Expected(e, roots, t, f)
    {
      assert s.Now(e, f) == Expected(e, roots, s, f);
    }
  }

  lemma {:induction false} IntactAfter(s: State, src: Path, t: State)
    requires src in s.todo && src !in s.done && s.stale <= s.done.Keys
    requires t.done == s.done[src := s.todo[src]]
    requires t.stale == if src in s.copied then s.stale + {src} else s.stale
    ensures t.done.Keys == s.done.Keys + {src}
    ensures t.Intact() == if src in s.copied then s.Intact() else s.Intact() + {src}
  {
  }

  lemma {:induction false} ProcessedKeepsInv(e: Env, roots: set<Path>, reach: iset<Path>, s: State, src: Path,
                                             todo: map<Path, Option<string>>, t: State)
    requires Inv(e, roots, reach, s) && ReadAs(e, roots, s, src)
    requires Took(e, roots, reach, s, src, todo, t) && Wrote(e, roots, s, src, t)
    ensures Inv(e, roots, reach, t)
  {
    IntactAfter(s, src, t);
    CopiesAfter(e, roots, s, src, t);
    ProgressAfter(e, roots, reach, s, src, todo, t);
    ContentsAfter(e, roots, s, src, t);
  }

  lemma {:induction false} StartsWell(e: Env, roots: set<Path>, reach: iset<Path>, s: State)
    requires s == State(s.todo, map[], {}, map[], map[], {}) && s.todo.Keys == roots
    requires (forall p :: p in s.todo ==> s.todo[p] == None) && forall p :: p in roots ==> p in reach
    ensures Inv(e, roots, reach, s)
  {
    assert s.Taken() == roots;
  }

  /** The state after `src` was processed, with what its list of libraries was. */
  function AfterFile(e: Env, roots: set<Path>, s: State, src: Path, libraries: seq<Path>): State
    requires src in s.todo
  {
    State(s.todo - {src}, s.done[src := s.todo[src]], s.used,
          if src in roots then s.copied else s.copied[e.Spot(src) := src],
          s.contents[PlaceOf(e, roots, src) := Redirected(e, libraries)],
          if src in s.copied then s.stale + {src} else s.stale)
  }

  /** What one file changes: it is done, the worklist has gained only what it needs, if it was read
      intact, and it is copied unless it is one of the bundle. */
  ghost predicate Advanced(e: Env, roots: set<Path>, s: State, src: Path, t: State) {
    && src in s.todo && t.done == s.done[src := s.todo[src]]
    && (forall p :: p in s.todo && p != src ==> p in t.todo)
    && (forall p :: p in t.todo ==> p in s.todo || (src !in s.copied && e.Needs(src, p)))
    && t.copied == if src in roots then s.copied else s.copied[e.Spot(src) := src]
  }

  /** `s1` is the state when what `src` needs has been taken up. */
  lemma {:induction false} Assembled(e: Env, roots: set<Path>, reach: iset<Path>, s: State, src: Path, s1: State,
                                     t: State)
    requires Inv(e, roots, reach, s) && src in s.todo && ReadAs(e, roots, s, src)
    requires s1 == s.(todo := s1.todo, used := s1.used)
    requires Extends(e, roots, src, s.todo, s.done, s1.todo) && s.used <= s1.used
    requires AllSafe(e, s.Now(e, src)) ==> s1.todo == s.todo
    requires TakenInv(e, roots, reach, s1.Taken(), s1.used)
    requires s.Now(e, src) == e.Libs(src) ==> AllSettled(e, src, |e.Libs(src)|, s1.Taken(), s1.used)
    requires t == AfterFile(e, roots, s1, src, s.Now(e, src))
    ensures Inv(e, roots, reach, t) && Advanced(e, roots, s, src, t)
  {
    assert Took(e, roots, reach, s, src, s1.todo, t) && Wrote(e, roots, s, src, t);
    ProcessedKeepsInv(e, roots, reach, s, src, s1.todo, t);
  }

  // ----- The worklist as it runs -----

  class Internalizer {
    const env: Env
    var todo: map<Path, Option<string>>
    var done: map<Path, Option<string>>
    var used: set<string>
    var errorsEncountered: bool
    // what the run has done to the file system
    var copied: map<Path, Path>
    var contents: map<Path, seq<Path>>
    ghost var stale: set<Path>

    constructor (env: Env)
      ensures this.env == env && Value() == State(map[], map[], {}, map[], map[], {}) && !errorsEncountered
    {
      this.env := env;
      todo, done, used, errorsEncountered := map[], map[], {}, false;
      copied, contents, stale := map[], map[], {};
    }

    ghost function Value(): State
      reads this
    {
      State(todo, done, used, copied, contents, stale)
    }

    ghost function Taken(): set<Path>
      reads this
    {
      todo.Keys + done.Keys
    }

    /** The libraries that a file refers to now. */
    function GetLibs(src: Path): (libraries: seq<Path>)
      reads this
      ensures libraries == Value().Now(env, src)
    {
      if src in contents then contents[src] else env.Libs(src)
    }

    /** Takes up a file unless it is known, cannot be loaded, or its name is in use. */
    method Add(src0: Path, copy: bool)
      modifies this`todo, this`used, this`errorsEncountered
      ensures var src := env.Resolved(src0);
              var name := env.Name(src);
              if src in old(Taken()) || !env.Loadable(src) || (copy && name in old(used))
              then todo == old(todo) && used == old(used)
              else todo == old(todo)[src := if copy then Some(name) else None]
                   && used == if copy then old(used) + {name} else old(used)
      ensures var src := env.Resolved(src0);
              errorsEncountered == (old(errorsEncountered) || (src !in old(Taken()) && !env.Exists(src)))
    {
      var src := env.Resolved(src0);
      if src in todo || src in done {
        return;
      }
      if !env.Exists(src) {
        errorsEncountered := true;
      }
      if !env.Loadable(src) {
        return;
      }
      var dstName := None;
      if copy {
        if env.Name(src) in used {
          return;
        }
        used := used + {env.Name(src)};
        dstName := Some(env.Name(src));
      }
      todo := todo[src := dstName];
    }

    /** The files of the bundle itself, which stay where they are. */
    method AddStandard(names: seq<Path>)
      requires done == map[] && todo == map[] && used == {}
      modifies this`todo, this`used, this`errorsEncountered
      ensures used == {} && todo.Keys == RootsOf(env, names)
      ensures forall p :: p in todo ==> todo[p] == None
    {
      for k := 0 to |names|
        invariant used == {} && todo.Keys == RootsOf(env, names[..k])
        invariant forall p :: p in todo ==> todo[p] == None
      {
        Add(names[k], false);
        RootsOfNext(env, names, k);
      }
      assert names[..|names|] == names;
    }

    /** Takes up the library at place `k` of what `src` refers to. */
    method AddNeed(src: Path, k: nat, ghost roots: set<Path>, ghost reach: iset<Path>)
      requires k < |env.Libs(src)| && env.MustCopy(env.Libs(src)[k])
      requires src in reach && Closed(env, reach) && TakenInv(env, roots, reach, Taken(), used)
      requires AllSettled(env, src, k, Taken(), used)
      modifies this`todo, this`used, this`errorsEncountered
      ensures TakenInv(env, roots, reach, Taken(), used)
      ensures AllSettled(env, src, k + 1, Taken(), used)
      ensures Extends(env, roots, src, old(todo), done, todo) && old(used) <= used
    {
      var lib := env.Libs(src)[k];
      ghost var q, taken0, used0 := env.Resolved(lib), Taken(), used;
      assert env.Loadable(q) ==> env.NeedsAt(src, q, k);
      Add(lib, true);
      assert taken0 <= Taken() && (Taken() == taken0 || Taken() == taken0 + {q});
      AfterAdd(env, roots, reach, q, taken0, used0, Taken(), used);
      SettledStays(env, src, k, taken0, used0, Taken(), used);
    }

    /** Takes up what `src` needs, going by `libraries`; returns the references that have to change. */
    method AddNeeds(src: Path, libraries: seq<Path>, ghost roots: set<Path>, ghost reach: iset<Path>)
      returns (mustChange: seq<Path>)
      requires ReadOf(env, src, libraries)
      requires src in reach && Closed(env, reach) && TakenInv(env, roots, reach, Taken(), used)
      modifies this`todo, this`used, this`errorsEncountered
      ensures TakenInv(env, roots, reach, Taken(), used)
      ensures Extends(env, roots, src, old(todo), done, todo) && old(used) <= used
      ensures libraries == env.Libs(src) ==> AllSettled(env, src, |libraries|, Taken(), used)
      ensures AllSafe(env, libraries) ==> todo == old(todo)
      ensures MustChange(env, libraries, mustChange)
    {
      mustChange := [];
      for k := 0 to |libraries|
        invariant TakenInv(env, roots, reach, Taken(), used)
        invariant Extends(env, roots, src, old(todo), done, todo) && old(used) <= used
        invariant libraries == env.Libs(src) ==> AllSettled(env, src, k, Taken(), used)
        invariant AllSafe(env, libraries) ==> todo == old(todo)
        invariant MustChange(env, libraries[..k], mustChange)
      {
        MustChangeNext(env, libraries, k, mustChange);
        if env.MustCopy(libraries[k]) {
          AddNeed(src, k, roots, reach);
          mustChange := mustChange + [libraries[k]];
        }
      }
      assert libraries[..|libraries|] == libraries;
    }

    /** Copies `src` if it has a new name, and changes the references there. */
    method Rewrite(src: Path, dst: Option<string>, libraries: seq<Path>, mustChange: seq<Path>)
      requires MustChange(env, libraries, mustChange)
      modifies this`copied, this`contents
      ensures var place := if dst == None then src else env.Resolved(env.Slot(dst.value));
              && copied == (if dst == None then old(copied) else old(copied)[place := src])
              && contents == old(contents)[place := Redirected(env, libraries)]
    {
      var place := src;
      if dst.Some? {
        place := env.Resolved(env.Slot(dst.value));
        copied := copied[place := src];
      }
      contents := contents[place := libraries];
      assert Changed(env, libraries, []) == libraries;
      for k := 0 to |mustChange|
        invariant copied == if dst == None then old(copied) else old(copied)[place := src]
        invariant contents == old(contents)[place := Changed(env, libraries, mustChange[..k])]
      {
        ChangedOneMore(env, libraries, mustChange[..k], mustChange[k]);
        assert mustChange[..k + 1] == mustChange[..k] + [mustChange[k]];
        contents := contents[place := Changed(env, contents[place], [mustChange[k]])];
      }
      assert mustChange[..|mustChange|] == mustChange;
      ChangedAll(env, libraries, mustChange);
    }

    /** Moves a file from the worklist to the processed ones, copies it and changes references. */
    method Finish(src: Path, libraries: seq<Path>, mustChange: seq<Path>, ghost roots: set<Path>)
      requires src in todo && todo[src] == NameFor(env, roots, src) && MustChange(env, libraries, mustChange)
      modifies this
      ensures Value() == AfterFile(env, roots, old(Value()), src, libraries)
    {
      var dst := todo[src];
      stale := if src in copied then stale + {src} else stale;
      Rewrite(src, dst, libraries, mustChange);
      todo := todo - {src};
      done := done[src := dst];
    }

    /** One file of the worklist, from looking up what it needs to changing its references. */
    method Process(src: Path, ghost roots: set<Path>, ghost reach: iset<Path>)
      requires src in todo && env.Walked(roots) && LoadableAndClosed(env, reach) && Inv(env, roots, reach, Value())
      modifies this
      ensures Inv(env, roots, reach, Value())
      ensures Advanced(env, roots, old(Value()), src, Value())
    {
      ghost var s := Value();
      assert src in s.Taken();
      WhatIsRead(env, roots, s, src);
      var libraries := GetLibs(src);
      var mustChange := AddNeeds(src, libraries, roots, reach);
      ghost var s1 := Value();
      Finish(src, libraries, mustChange, roots);
      Assembled(env, roots, reach, s, src, s1, Value());
    }

    /** Empties the worklist, in any order. */
    method Run(ghost roots: set<Path>, ghost reach: iset<Path>, ghost universe: set<Path>)
      requires env.Walked(roots) && LoadableAndClosed(env, reach) && Inv(env, roots, reach, Value())
      requires forall p :: p in reach ==> p in universe
      modifies this
      ensures todo == map[] && Inv(env, roots, reach, Value())
    {
      while todo != map[]
        invariant Inv(env, roots, reach, Value())
        decreases universe - done.Keys
      {
        assert todo.Keys != {};
        var src :| src in todo.Keys;
        OneMoreDone(env, roots, reach, Value(), src, universe);
        Process(src, roots, reach);
      }
    }
  }

  lemma {:induction false} OneMoreDone(e: Env, roots: set<Path>, reach: iset<Path>, s: State, src: Path,
                                       universe: set<Path>)
    requires Inv(e, roots, reach, s) && src in s.todo && forall p :: p in reach ==> p in universe
    ensures universe - (s.done.Keys + {src}) < universe - s.done.Keys
  {
    assert src in s.Taken();
  }
}
