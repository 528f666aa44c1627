/** Following references to files outside the workload: conversion/workload_converter.py,
    _process_external_collected_files. */
module ExternalCollect {
  import opened Wrappers
  import opened Paths

  /** A file: its text, and the relative paths of its benchmark.collect references in order of appearance. */
  datatype File = File(text: string, refs: seq<seq<string>>)

  /** The source side, which is only read, the output files the walk visits, as they are before it, and the
      conversion of the text around references. */
  datatype Site = Site(source: Path, output: Path, files: map<Path, File>, visited: map<Path, File>,
      convert: string -> string) {

    ghost predicate Valid() {
      source != [] && Normal(source) && Normal(output)
      && (forall o :: o in visited ==> output < o && Normal(o))
    }

    function Parent(): Path {
      Dir(source)
    }

    predicate Inside(path: Path) {
      source <= path
    }

    /** Not too far up the tree. */
    predicate Mirrorable(ext: Path) {
      !(".." <= RelPath(ext, Parent())[0])
    }

    function Mirror(ext: Path): Path {
      Resolve(output, RelPath(ext, Parent()))
    }

    predicate Followed(ext: Path) {
      !Inside(ext) && Mirrorable(ext)
    }

    function Target(src: Path, parts: seq<string>): Path {
      Resolve(Dir(src), parts)
    }

    /** The source file an output file was made from. */
    function SourceOf(o: Path): Path
      requires output <= o
    {
      source + o[|output|..]
    }

    /** A file at src with these references leads to the external file e. */
    ghost predicate Refers(src: Path, refs: seq<seq<string>>, e: Path) {
      Followed(e) && exists i :: 0 <= i < |refs| && Target(src, refs[i]) == e
    }

    /** What a reference should read in the output file o. */
    function Rewritten(o: Path, src: Path, parts: seq<string>): seq<string> {
      var e := Target(src, parts);
      if Followed(e) then RelPath(Mirror(e), Dir(o)) else parts
    }

    // ----- reachability

    ghost predicate Root(e: Path)
      requires Valid()
    {
      exists o :: o in visited && Refers(SourceOf(o), visited[o].refs, e)
    }

    ghost predicate Chain(c: seq<Path>)
      requires Valid()
      decreases |c|
    {
      && c != []
      && if |c| == 1 then Root(c[0])
         else Chain(c[..|c| - 1]) && Step(c[|c| - 2], c[|c| - 1])
    }

    ghost predicate Step(from: Path, to: Path) {
      from in files && Refers(from, files[from].refs, to)
    }

    ghost predicate Reached(e: Path)
      requires Valid()
    {
      exists c :: Chain(c) && c[|c| - 1] == e
    }

    /** No external file that is reached and exists is mirrored to one of these places. */
    ghost predicate Clear(places: set<Path>)
      requires Valid()
    {
      forall e :: Reached(e) && e in files ==> Mirror(e) !in places
    }
  }

  // ----- mirroring

  /** Exactly the files under the parent directory are mirrored, except those whose first name begins with two dots; the
      mirrored copy has the same place under the output directory. */
  lemma {:induction false} MirrorKeepsThePlace(site: Site, e: Path)
    requires site.Valid() && Normal(e)
    ensures site.Mirrorable(e) <==> site.Parent() <= e && !(|e| > |site.Parent()| && ".." <= e[|site.Parent()|])
    ensures site.Mirrorable(e) ==> site.Mirror(e) == site.output + e[|site.Parent()|..]
  {
    var parent := site.Parent();
    RelPathDown(e, parent);
    if parent <= e {
      var down := e[|parent|..];
      assert Normal(down);
      ResolveDown(site.output, down);
      if e == parent {
        assert site.output + down == site.output;
        assert Resolve(site.output, ["."]) == Resolve(site.output, []);
      }
    }
  }

  lemma {:induction false} MirrorInjective(site: Site, e: Path, f: Path)
    requires site.Valid() && Normal(e) && Normal(f) && site.Followed(e) && site.Followed(f)
    requires site.Mirror(e) == site.Mirror(f)
    ensures e == f
  {
    MirrorKeepsThePlace(site, e);
    MirrorKeepsThePlace(site, f);
    var parent := site.Parent();
    var a, b := e[|parent|..], f[|parent|..];
    assert (site.output + a)[|site.output|..] == a && (site.output + b)[|site.output|..] == b;
    assert e == parent + a && f == parent + b;
  }

  lemma {:induction false} MirrorIsNormal(site: Site, e: Path)
    requires site.Valid()
    ensures Normal(site.Mirror(e))
  {
    ResolveIsNormal(site.output, RelPath(e, site.Parent()));
  }

  /** A rewritten reference, read from the output file, leads to the mirrored copy of what the source file refers to. */
  lemma {:induction false} RewrittenLeadsToMirror(site: Site, o: Path, src: Path, parts: seq<string>)
    requires site.Valid() && site.Followed(site.Target(src, parts))
    ensures site.Target(o, site.Rewritten(o, src, parts)) == site.Mirror(site.Target(src, parts))
  {
    var m := site.Mirror(site.Target(src, parts));
    MirrorIsNormal(site, site.Target(src, parts));
    RelPathLeadsThere(m, Dir(o));
  }

  /** Should the walk come to a mirrored copy once more, it takes it for a file of the workload itself: there, a
      rewritten reference leads inside the workload and is left alone. */
  lemma {:induction false} RewrittenIsLeftAlone(site: Site, o: Path, src: Path, parts: seq<string>)
    requires site.Valid() && site.output <= o && |o| > |site.output| && Normal(o)
    requires site.Followed(site.Target(src, parts)) && Normal(src)
    ensures var again := site.Rewritten(o, src, parts);
            && site.Inside(site.Target(site.SourceOf(o), again))
            && site.Rewritten(o, site.SourceOf(o), again) == again
  {
    var e := site.Target(src, parts);
    ResolveIsNormal(Dir(src), parts);
    ReadAgain(site, o, e);
    hide RelPath, Resolve, Normal, Site.Mirror, Site.Mirrorable;
    assert site.source <= site.source + e[|site.Parent()|..];
  }

  /** A reference from the workload to an external file never reads the same once it is rewritten. */
  lemma {:induction false} RewrittenDiffers(site: Site, o: Path, parts: seq<string>)
    requires site.Valid() && site.output < o && Normal(o) && Normal(site.SourceOf(o))
    requires site.Followed(site.Target(site.SourceOf(o), parts))
    ensures site.Rewritten(o, site.SourceOf(o), parts) != parts
  {
    hide Site.Mirror, Site.Mirrorable, Site.Target;
    RewrittenIsLeftAlone(site, o, site.SourceOf(o), parts);
  }

  lemma {:induction false} ReadAgain(site: Site, o: Path, e: Path)
    requires site.Valid() && site.output <= o && |o| > |site.output|
    requires Normal(e) && site.Mirrorable(e)
    ensures site.Parent() <= e
    ensures Resolve(Dir(site.SourceOf(o)), RelPath(site.Mirror(e), Dir(o))) == site.source + e[|site.Parent()|..]
  {
    MirrorKeepsThePlace(site, e);
    var target, rest := e[|site.Parent()|..], o[|site.output|..];
    assert Normal(target) && o == site.output + rest;
    hide RelPath, Resolve, Dir;
    SameWay(site.output, site.source, target, Dir(rest));
    DirUnder(site.output, rest);
    DirUnder(site.source, rest);
  }

  lemma {:induction false} DirUnder(base: Path, rest: Path)
    requires rest != []
    ensures Dir(base + rest) == base + Dir(rest)
  {
  }

  lemma {:induction false} SameWay(from: Path, to: Path, target: Path, dir: Path)
    requires Normal(to) && Normal(target)
    ensures Resolve(to + dir, RelPath(from + target, from + dir)) == to + target
  {
    hide RelPath, Resolve;
    RelPathIsMovable(from, target, dir);
    RelPathIsMovable(to, target, dir);
    JoinIsNormal(to, target);
    RelPathLeadsThere(to + target, to + dir);
  }

  lemma {:induction false} JoinIsNormal(a: Path, b: Path)
    requires Normal(a) && Normal(b)
    ensures Normal(a + b)
  {
  }

  /** The way between two paths under one directory does not depend on where that directory is. */
  lemma {:induction false} RelPathIsMovable(base: Path, target: Path, dir: Path)
    ensures RelPath(base + target, base + dir) == RelPath(target, dir)
  {
    CommonUnder(base, target, dir);
    var k := Common(target, dir);
    assert (base + target)[|base| + k..] == target[k..];
  }

  lemma {:induction false} CommonUnder(base: Path, target: Path, dir: Path)
    ensures Common(base + target, base + dir) == |base| + Common(target, dir)
  {
    if base == [] {
      assert base + target == target && base + dir == dir;
    } else {
      assert (base + target)[1..] == base[1..] + target && (base + dir)[1..] == base[1..] + dir;
      CommonUnder(base[1..], target, dir);
    }
  }

  // ----- reachability

  lemma {:induction false} RootIsReached(site: Site, o: Path, e: Path)
    requires site.Valid() && o in site.visited && site.Refers(site.SourceOf(o), site.visited[o].refs, e)
    ensures site.Reached(e)
  {
    assert site.Root(e);
    assert site.Chain([e]);
  }

  lemma {:induction false} StepIsReached(site: Site, from: Path, to: Path)
    requires site.Valid() && site.Reached(from) && site.Step(from, to)
    ensures site.Reached(to)
  {
    var c :| site.Chain(c) && c[|c| - 1] == from;
    var d := c + [to];
    assert d[..|d| - 1] == c;
    assert site.Chain(d);
  }

  /** What is reached lies in every set that holds the roots and is closed under references. */
  lemma {:induction false} ReachedIsInClosed(site: Site, c: seq<Path>, s: iset<Path>)
    requires site.Valid() && site.Chain(c)
    requires forall e :: site.Root(e) ==> e in s
    requires forall e, f :: e in s && site.Step(e, f) ==> f in s
    ensures c[|c| - 1] in s
    decreases |c|
  {
    if |c| > 1 {
      ReachedIsInClosed(site, c[..|c| - 1], s);
    }
  }

  // ----- the state of the walk

  ghost predicate Distinct(s: seq<Path>) {
    forall i, j :: 0 <= i < j < |s| ==> s[i] != s[j]
  }

  /** The output files, the places taken, the missing files reported, the files converted in order, the files not yet
      converted, where which of them were written, and which places hold whose copy. */
  datatype State = State(out: map<Path, File>, converted: set<Path>, issues: seq<Path>,
                         log: seq<Path>, todo: set<Path>, written: map<Path, Path>, copies: map<Path, Path>) {

    /** The external file whose copy is at a place, if it is not a file of the workload's own. */
    function CopyAt(p: Path): Option<Path> {
      if p in copies then Some(copies[p]) else None
    }

    predicate Seen(e: Path) {
      e in log || e in issues
    }
  }

  function ConvertedFile(site: Site, file: File): File {
    File(site.convert(file.text), file.refs)
  }

  ghost predicate Known(site: Site, s: State, e: Path)
    requires site.Valid()
  {
    Normal(e) && site.Followed(e) && site.Mirror(e) in s.converted
  }

  ghost predicate Good(site: Site, s: State) {
    && site.Valid()
    && Distinct(s.log) && Distinct(s.issues)
    && (forall e :: e in s.log ==> e in site.files && Known(site, s, e) && site.Mirror(e) in s.written)
    && (forall e :: e in s.issues ==> e !in site.files && Known(site, s, e))
    && (forall e :: Normal(e) && site.Followed(e) && site.Mirror(e) in s.converted ==> s.Seen(e))
    && (forall d :: d in s.written ==> s.written[d] in s.log && site.Mirror(s.written[d]) == d)
    && (forall e :: e in s.todo <==> e in site.files && e !in s.log)
  }

  ghost predicate AllReached(site: Site, s: State)
    requires site.Valid()
  {
    forall e :: s.Seen(e) ==> site.Reached(e)
  }

  /** A place has the text of the file whose copy it holds; a visited file that holds none has its own. */
  ghost predicate Holds(site: Site, s: State) {
    && (forall p :: p in s.copies ==>
          p in s.out && s.copies[p] in site.files && site.Mirror(s.copies[p]) == p
          && s.out[p].text == site.convert(site.files[s.copies[p]].text))
    && (forall p :: p in site.visited && p !in s.copies ==> p in s.out && s.out[p].text == site.visited[p].text)
  }

  /** Only newly written places change hands; except is left as it was. */
  ghost predicate HandsOver(s: State, t: State, except: Option<Path>) {
    forall p :: t.CopyAt(p) ==
      if p in t.written && p !in s.written && except != Some(p) then Some(t.written[p]) else s.CopyAt(p)
  }

  ghost predicate Covered(site: Site, s: State, src: Path, refs: seq<seq<string>>) {
    forall e :: site.Refers(src, refs, e) ==> s.Seen(e)
  }

  ghost predicate RefSettled(site: Site, s: State, o: Path, src: Path, now: seq<string>, was: seq<string>) {
    now == site.Rewritten(o, src, was) || (now == was && site.Target(src, was) in s.issues)
  }

  ghost predicate RefsSettled(site: Site, s: State, o: Path, src: Path, now: seq<seq<string>>, was: seq<seq<string>>) {
    |now| == |was| && forall i :: 0 <= i < |now| ==> RefSettled(site, s, o, src, now[i], was[i])
  }

  /** The output file o reads as it should: all its references are rewritten, but for those found missing. */
  ghost predicate Settled(site: Site, s: State, o: Path, src: Path, was: File) {
    o in s.out && s.out[o].text == was.text && RefsSettled(site, s, o, src, s.out[o].refs, was.refs)
  }

  ghost predicate Done(site: Site, s: State, e: Path) {
    && e in site.files
    && Covered(site, s, e, site.files[e].refs)
    && Settled(site, s, site.Mirror(e), e, ConvertedFile(site, site.files[e]))
  }

  /** Nothing is taken back. */
  ghost predicate Grows(s: State, t: State) {
    && s.log <= t.log && s.issues <= t.issues && |t.todo| <= |s.todo|
    && s.converted <= t.converted && (forall d :: d in s.written ==> d in t.written && t.written[d] == s.written[d])
    && s.out.Keys <= t.out.Keys
  }

  /** Output files other than those in except and the newly written stay. */
  ghost predicate Keeps(s: State, t: State, except: set<Path>) {
    && (forall p :: p in s.out && p !in except && (p in s.written || p !in t.written) ==>
        p in t.out && t.out[p] == s.out[p])
    && (forall p :: p in t.out ==> p in s.out || p in t.written)
  }

  /** What every step keeps: nothing is taken back, what is new is done, and what is not new is left as it is. */
  ghost predicate Extends(site: Site, s: State, t: State, except: set<Path>) {
    && Grows(s, t) && Keeps(s, t, except)
    && (forall e :: e in t.log && e !in s.log ==> Done(site, t, e))
  }

  lemma {:induction false} SettledStays(site: Site, s: State, t: State, o: Path, src: Path, was: File)
    requires Grows(s, t) && Settled(site, s, o, src, was) && o in t.out && t.out[o] == s.out[o]
    ensures Settled(site, t, o, src, was)
  {
  }

  lemma {:induction false} CoveredStays(site: Site, s: State, t: State, src: Path, refs: seq<seq<string>>)
    requires Grows(s, t) && Covered(site, s, src, refs)
    ensures Covered(site, t, src, refs)
  {
    hide Site.Refers;
  }

  lemma {:induction false} DoneStays(site: Site, s: State, t: State, except: set<Path>, e: Path)
    requires Grows(s, t) && Keeps(s, t, except) && Done(site, s, e)
    requires site.Mirror(e) in s.written && site.Mirror(e) !in except
    ensures Done(site, t, e)
  {
    hide Site.Mirror, Covered, Settled;
    CoveredStays(site, s, t, e, site.files[e].refs);
    assert site.Mirror(e) in s.out by {
      AboutSettled(site, s, site.Mirror(e), e, ConvertedFile(site, site.files[e]));
    }
    SettledStays(site, s, t, site.Mirror(e), e, ConvertedFile(site, site.files[e]));
  }

  lemma {:induction false} AboutSettled(site: Site, s: State, o: Path, src: Path, was: File)
    requires Settled(site, s, o, src, was)
    ensures o in s.out
  {
  }

  lemma {:induction false} LogIsWritten(site: Site, s: State, e: Path)
    requires Good(site, s) && e in s.log
    ensures site.Mirror(e) in s.written
  {
  }

  lemma {:induction false} ExtendsTransitive(site: Site, s: State, t: State, u: State)
    requires Good(site, s) && Good(site, t) && Good(site, u)
    requires Extends(site, s, t, {}) && Extends(site, t, u, {})
    ensures Extends(site, s, u, {})
  {
    hide Good, Done;
    forall e | e in u.log && e !in s.log ensures Done(site, u, e) {
      if e in t.log {
        LogIsWritten(site, t, e);
        DoneStays(site, t, u, {}, e);
      }
    }
  }

  lemma {:induction false} ExtendsReflexive(site: Site, s: State)
    ensures Extends(site, s, s, {})
  {
  }

  // ----- the steps

  /** The state once a missing file is reported. */
  function Reported(site: Site, s: State, e: Path): State {
    s.(converted := s.converted + {site.Mirror(e)}, issues := s.issues + [e])
  }

  /** The state once a file's conversion is written. */
  function Registered(site: Site, s: State, e: Path): State
    requires e in site.files
  {
    var place := site.Mirror(e);
    s.(converted := s.converted + {place}, log := s.log + [e], todo := s.todo - {e}, written := s.written[place := e],
       out := s.out[place := ConvertedFile(site, site.files[e])], copies := s.copies[place := e])
  }

  lemma {:induction false} PlaceTakenOnce(site: Site, s: State, e: Path, f: Path)
    requires Good(site, s) && Normal(e) && site.Followed(e) && Normal(f) && site.Followed(f)
    requires site.Mirror(f) in s.converted + {site.Mirror(e)}
    ensures s.Seen(f) || f == e
  {
    hide Site.Mirror, Site.Followed, Site.Reached;
    if site.Mirror(f) == site.Mirror(e) {
      MirrorInjective(site, e, f);
    }
  }

  lemma {:induction false} DistinctSnoc(s: seq<Path>, x: Path)
    requires Distinct(s) && x !in s
    ensures Distinct(s + [x])
  {
  }

  lemma {:induction false} ReportedIsGood(site: Site, s: State, e: Path)
    requires Good(site, s) && Normal(e) && site.Followed(e)
    requires site.Mirror(e) !in s.converted && e !in site.files
    ensures Good(site, Reported(site, s, e)) && Extends(site, s, Reported(site, s, e), {})
  {
    hide Site.Mirror, Site.Followed, Site.Reached, Site.Refers, Site.Rewritten, Site.Target;
    var t := Reported(site, s, e);
    assert !s.Seen(e);
    DistinctSnoc(s.issues, e);
    forall f | Normal(f) && site.Followed(f) && site.Mirror(f) in t.converted ensures t.Seen(f) {
      PlaceTakenOnce(site, s, e, f);
    }
  }

  lemma {:induction false} RegisteredIsGood(site: Site, s: State, e: Path)
    requires Good(site, s) && Normal(e) && site.Followed(e)
    requires site.Mirror(e) !in s.converted && e in site.files
    ensures Good(site, Registered(site, s, e)) && Grows(s, Registered(site, s, e))
    ensures |Registered(site, s, e).todo| < |s.todo| && Keeps(s, Registered(site, s, e), {})
  {
    RegisteredGrows(site, s, e);
    hide Site.Mirror, Site.Followed, Site.Valid, Site.Refers, Grows, Keeps, ConvertedFile;
    RegisteredKnown(site, s, e);
    DistinctSnoc(s.log, e);
    var t := Registered(site, s, e);
    forall f | Normal(f) && site.Followed(f) && site.Mirror(f) in t.converted ensures t.Seen(f) {
      PlaceTakenOnce(site, s, e, f);
    }
    hide Known, Normal;
  }

  lemma {:induction false} RegisteredGrows(site: Site, s: State, e: Path)
    requires Good(site, s) && Normal(e) && site.Followed(e)
    requires site.Mirror(e) !in s.converted && e in site.files
    ensures !s.Seen(e) && site.Mirror(e) !in s.written
    ensures Grows(s, Registered(site, s, e)) && Keeps(s, Registered(site, s, e), {})
    ensures |Registered(site, s, e).todo| < |s.todo|
  {
    RegisteredIsNew(site, s, e);
    RegisteredPlaceIsNew(site, s, e);
    hide Good, Site.Mirror, Site.Followed, Site.Valid, Normal, ConvertedFile;
    var t, place := Registered(site, s, e), site.Mirror(e);
    PutKeeps(s, t, place, e, ConvertedFile(site, site.files[e]));
    hide Keeps, Registered;
    assert t.log == s.log + [e] && t.todo == s.todo - {e} by {
      RegisteredLists(site, s, e);
    }
    FewerTodo(s.todo, e);
  }

  lemma {:induction false} RegisteredLists(site: Site, s: State, e: Path)
    requires e in site.files
    ensures var t := Registered(site, s, e);
            && t.log == s.log + [e] && t.todo == s.todo - {e} && t.issues == s.issues
            && t.converted == s.converted + {site.Mirror(e)} && t.written == s.written[site.Mirror(e) := e]
  {
  }

  lemma {:induction false} FewerTodo(todo: set<Path>, e: Path)
    requires e in todo
    ensures |todo - {e}| < |todo|
  {
  }

  lemma {:induction false} PutKeeps(s: State, t: State, place: Path, e: Path, file: File)
    requires place !in s.written && t.written == s.written[place := e] && t.out == s.out[place := file]
    ensures Keeps(s, t, {})
  {
  }

  lemma {:induction false} RegisteredIsNew(site: Site, s: State, e: Path)
    requires Good(site, s) && e in site.files && site.Mirror(e) !in s.converted
    ensures !s.Seen(e) && e in s.todo
  {
    hide Site.Mirror, Site.Followed, Site.Valid;
    assert !s.Seen(e);
  }

  lemma {:induction false} RegisteredKnown(site: Site, s: State, e: Path)
    requires Good(site, s) && Normal(e) && site.Followed(e) && e in site.files
    ensures var t := Registered(site, s, e);
            && (forall f :: f in t.log ==> f in site.files && Known(site, t, f) && site.Mirror(f) in t.written)
            && (forall f :: f in t.issues ==> Known(site, t, f))
  {
    hide Site.Mirror, Site.Followed, Site.Reached;
  }

  /** Registering a file and then processing its copy amounts to one step. */
  lemma {:induction false} RegisteredThenProcessed(site: Site, s: State, e: Path, t: State)
    requires Good(site, s) && Good(site, t) && Normal(e) && site.Followed(e)
    requires site.Mirror(e) !in s.converted && e in site.files
    requires Extends(site, Registered(site, s, e), t, {site.Mirror(e)})
    requires Covered(site, t, e, site.files[e].refs)
    requires Settled(site, t, site.Mirror(e), e, ConvertedFile(site, site.files[e]))
    ensures Extends(site, s, t, {})
  {
    RegisteredIsGood(site, s, e);
    RegisteredPlaceIsNew(site, s, e);
    AboutDone(site, t, e);
    hide Good, Done, Extends, Grows, Keeps, Site.Mirror, Site.Followed;
    ExtendsThrough(site, s, Registered(site, s, e), t, e, site.Mirror(e));
  }

  lemma {:induction false} ExtendsThrough(site: Site, s: State, r: State, t: State, e: Path, place: Path)
    requires Grows(s, r) && Keeps(s, r, {}) && Extends(site, r, t, {place})
    requires place !in s.written && place in r.written && r.log == s.log + [e] && Done(site, t, e)
    ensures Extends(site, s, t, {})
  {
    hide Done;
    assert place in t.written;
    forall p | p in s.out && (p in s.written || p !in t.written) ensures p in t.out && t.out[p] == s.out[p] {
      assert p != place;
      assert p in r.out && r.out[p] == s.out[p];
    }
  }

  lemma {:induction false} AboutDone(site: Site, t: State, e: Path)
    requires e in site.files && Covered(site, t, e, site.files[e].refs)
    requires Settled(site, t, site.Mirror(e), e, ConvertedFile(site, site.files[e]))
    ensures Done(site, t, e)
  {
  }

  lemma {:induction false} RegisteredPlaceIsNew(site: Site, s: State, e: Path)
    requires Good(site, s) && Normal(e) && site.Followed(e) && site.Mirror(e) !in s.converted
    ensures site.Mirror(e) !in s.written
  {
  }

  /** Registering writes a copy to a new place. */
  lemma {:induction false} RegisteredHandsOver(site: Site, s: State, e: Path)
    requires Good(site, s) && Holds(site, s) && Normal(e) && site.Followed(e)
    requires site.Mirror(e) !in s.converted && e in site.files
    ensures Holds(site, Registered(site, s, e)) && HandsOver(s, Registered(site, s, e), None)
  {
    RegisteredPlaceIsNew(site, s, e);
    hide Good, Site.Mirror, Site.Followed, Site.Valid, Normal;
    CopyHolds(site, s, e, site.Mirror(e));
    CopyHandsOver(site, s, e, site.Mirror(e));
  }

  lemma {:induction false} CopyHolds(site: Site, s: State, e: Path, place: Path)
    requires Holds(site, s) && e in site.files && place == site.Mirror(e)
    ensures Holds(site, Registered(site, s, e))
  {
    hide Site.Mirror;
    var t := Registered(site, s, e);
    forall p | p in t.copies
      ensures p in t.out && t.copies[p] in site.files && site.Mirror(t.copies[p]) == p
              && t.out[p].text == site.convert(site.files[t.copies[p]].text)
    {
    }
  }

  lemma {:induction false} CopyHandsOver(site: Site, s: State, e: Path, place: Path)
    requires e in site.files && place == site.Mirror(e) && place !in s.written
    ensures HandsOver(s, Registered(site, s, e), None)
  {
    hide Site.Mirror;
  }

  lemma {:induction false} HandsOverItself(s: State)
    ensures HandsOver(s, s, None)
  {
  }

  lemma {:induction false} SameHands(site: Site, s: State, t: State)
    requires Holds(site, s) && t == s.(converted := t.converted, issues := t.issues)
    ensures Holds(site, t) && HandsOver(s, t, None)
  {
  }

  lemma {:induction false} SameReached(site: Site, s: State, t: State)
    requires site.Valid() && t.log == s.log && t.issues == s.issues
    ensures AllReached(site, s) <==> AllReached(site, t)
  {
  }

  lemma {:induction false} HandsOverTransitive(s: State, t: State, u: State)
    requires Grows(s, t) && Grows(t, u) && HandsOver(s, t, None) && HandsOver(t, u, None)
    ensures HandsOver(s, u, None)
  {
  }

  lemma {:induction false} HandsOverThrough(s: State, r: State, t: State, place: Path)
    requires Grows(s, r) && Grows(r, t) && HandsOver(s, r, None) && HandsOver(r, t, Some(place))
    requires place in r.written && place !in s.written
    ensures HandsOver(s, t, None)
  {
  }

  /** The state t once the output file o is written out again with other references, as it was read in s. */
  function WrittenBack(s: State, t: State, o: Path, refs: seq<seq<string>>): State
    requires o in s.out
  {
    t.(out := t.out[o := File(s.out[o].text, refs)],
       copies := if o in s.copies then t.copies[o := s.copies[o]] else t.copies - {o})
  }

  lemma {:induction false} WriteBackIs(s: State, t: State, u: State, o: Path, refs: seq<seq<string>>)
    requires o in s.out && u == t.(out := t.out[o := File(s.out[o].text, refs)],
                                   copies := if o in s.copies then t.copies[o := s.copies[o]] else t.copies - {o})
    ensures u == WrittenBack(s, t, o, refs)
  {
  }

  /** Writing a file back undoes whatever was written over it in between. */
  lemma {:induction false} WrittenBackHolds(site: Site, s: State, t: State, o: Path, src: Path, refs: seq<seq<string>>)
    requires Good(site, t) && Holds(site, s) && Holds(site, t) && o in s.out
    requires Grows(s, t) && Keeps(s, t, {}) && HandsOver(s, t, None) && Covered(site, t, src, s.out[o].refs)
    ensures var u := WrittenBack(s, t, o, refs);
            && Good(site, u) && Holds(site, u) && Grows(s, u) && Keeps(s, u, {o}) && HandsOver(s, u, Some(o))
            && Covered(site, u, src, s.out[o].refs) && u.log == t.log && u.issues == t.issues
  {
    var u := WrittenBack(s, t, o, refs);
    WrittenBackIsGood(site, t, u);
    OverwriteKeeps(s, t, o, File(s.out[o].text, refs), u.copies);
    OverwriteGrows(t, o, File(s.out[o].text, refs), u.copies);
    CoveredStays(site, t, u, src, s.out[o].refs);
    RestoredHolds(site, s, t, o, refs);
    RestoredHandsOver(s, t, o, refs);
    hide Good, Holds, HandsOver, Grows, Keeps, Covered;
  }

  lemma {:induction false} RestoredHolds(site: Site, s: State, t: State, o: Path, refs: seq<seq<string>>)
    requires Holds(site, s) && Holds(site, t) && o in s.out
    ensures Holds(site, WrittenBack(s, t, o, refs))
  {
    hide Site.Mirror;
  }

  lemma {:induction false} RestoredHandsOver(s: State, t: State, o: Path, refs: seq<seq<string>>)
    requires HandsOver(s, t, None) && o in s.out
    ensures HandsOver(s, WrittenBack(s, t, o, refs), Some(o))
  {
    var u := WrittenBack(s, t, o, refs);
    forall p ensures u.CopyAt(p) == if p in u.written && p !in s.written && Some(o) != Some(p) then Some(u.written[p])
                                    else s.CopyAt(p) {
      assert t.CopyAt(p) == if p in t.written && p !in s.written then Some(t.written[p]) else s.CopyAt(p);
    }
  }

  /** A file that nothing was written over is rewritten in one step. */
  lemma {:induction false} WrittenBackSettles(site: Site, s: State, t: State, o: Path, src: Path,
                                              refs: seq<seq<string>>)
    requires Good(site, s) && Good(site, t) && Extends(site, s, t, {}) && o in s.out && o in t.out
    requires o in s.written || o !in t.written
    requires RefsSettled(site, t, o, src, refs, s.out[o].refs)
    ensures var u := WrittenBack(s, t, o, refs);
            Extends(site, s, u, {o}) && Settled(site, u, o, src, s.out[o])
  {
    hide Good, Done, RefsSettled, Covered, Grows, Keeps, Site.Mirror;
    var file := File(s.out[o].text, refs);
    var u := WrittenBack(s, t, o, refs);
    OverwriteKeeps(s, t, o, file, u.copies);
    OverwriteGrows(t, o, file, u.copies);
    SettledRefsStay(site, t, u, o, src, refs, s.out[o].refs);
    forall e | e in u.log && e !in s.log ensures Done(site, u, e) {
      OthersStayDone(site, s, t, o, file, u.copies, e);
    }
  }

  /** A file whose references all stay need not be written. */
  lemma {:induction false} NothingToWrite(s: State, t: State, o: Path)
    requires o in s.out && o in t.out && t.out[o] == s.out[o] && HandsOver(s, t, None)
    requires o in s.written || o !in t.written
    ensures WrittenBack(s, t, o, s.out[o].refs) == t
  {
    assert t.CopyAt(o) == s.CopyAt(o);
    assert t.out[o := s.out[o]] == t.out;
    assert WrittenBack(s, t, o, s.out[o].refs).copies == t.copies;
  }

  lemma {:induction false} KeepsItself(s: State)
    ensures Grows(s, s) && Keeps(s, s, {})
  {
  }

  lemma {:induction false} OverwriteGrows(s: State, o: Path, file: File, copies: map<Path, Path>)
    ensures Grows(s, s.(out := s.out[o := file], copies := copies))
  {
  }

  lemma {:induction false} OverwriteKeeps(s: State, t: State, o: Path, file: File, copies: map<Path, Path>)
    requires Grows(s, t) && Keeps(s, t, {}) && o in s.out
    ensures var u := t.(out := t.out[o := file], copies := copies); Grows(s, u) && Keeps(s, u, {o})
  {
  }

  lemma {:induction false} OthersStayDone(site: Site, s: State, t: State, o: Path, file: File,
                                          copies: map<Path, Path>, e: Path)
    requires Good(site, s) && Good(site, t) && e in t.log && e !in s.log && Done(site, t, e)
    requires (o in s.written || o !in t.written) && o in t.out
    ensures Done(site, t.(out := t.out[o := file], copies := copies), e)
  {
    hide Good, Done, Site.Mirror, Keeps, Grows;
    NewPlace(site, s, t, o, e);
    LogIsWritten(site, t, e);
    KeepsItself(t);
    OverwriteKeeps(t, t, o, file, copies);
    DoneStays(site, t, t.(out := t.out[o := file], copies := copies), {o}, e);
  }

  lemma {:induction false} WrittenBackIsGood(site: Site, t: State, u: State)
    requires Good(site, t) && u == t.(out := u.out, copies := u.copies)
    ensures Good(site, u)
  {
    hide Site.Mirror, Site.Followed, Site.Refers, Site.Rewritten, Site.Target;
  }

  lemma {:induction false} NewPlace(site: Site, s: State, t: State, o: Path, e: Path)
    requires Good(site, s) && Good(site, t) && e in t.log && e !in s.log
    requires o in s.written || o !in t.written
    ensures site.Mirror(e) != o
  {
    if o in s.written && site.Mirror(e) == o {
      MirrorInjective(site, e, s.written[o]);
    }
  }

  lemma {:induction false} ConvertedIsSeen(site: Site, s: State, e: Path)
    requires Good(site, s) && Normal(e) && site.Followed(e) && site.Mirror(e) in s.converted
    ensures s.Seen(e)
  {
  }

  lemma {:induction false} GoodIsValid(site: Site, s: State)
    requires Good(site, s)
    ensures site.Valid()
  {
  }

  lemma {:induction false} RegisteredIsSeen(site: Site, s: State, t: State, e: Path)
    requires e in site.files && Extends(site, Registered(site, s, e), t, {site.Mirror(e)})
    ensures t.Seen(e)
  {
    assert Registered(site, s, e).log[|s.log|] == e;
  }

  lemma {:induction false} ReferredIsReached(site: Site, e: Path, refs: seq<seq<string>>)
    requires site.Valid() && site.Reached(e) && e in site.files && refs == site.files[e].refs
    ensures forall f :: site.Refers(e, refs, f) ==> site.Reached(f)
  {
    forall f | site.Refers(e, refs, f) ensures site.Reached(f) {
      StepIsReached(site, e, f);
    }
  }

  lemma {:induction false} NoRefs(site: Site, s: State, o: Path, src: Path)
    ensures RefsSettled(site, s, o, src, [], []) && Covered(site, s, src, [])
  {
  }

  lemma {:induction false} TodoShrinks(s: State, t: State)
    requires Grows(s, t)
    ensures |t.todo| <= |s.todo|
  {
  }

  lemma {:induction false} SettledRefsStay(site: Site, s: State, t: State, o: Path, src: Path,
                                           now: seq<seq<string>>, was: seq<seq<string>>)
    requires Grows(s, t) && RefsSettled(site, s, o, src, now, was)
    ensures RefsSettled(site, t, o, src, now, was)
  {
    hide Site.Target, Site.Rewritten;
  }

  /** One more reference of a file: what held of the others holds with it. */
  lemma {:induction false} OneMoreRef(site: Site, s: State, t: State, o: Path, src: Path,
                                      now: seq<seq<string>>, was: seq<seq<string>>,
                                      ref: seq<string>, parts: seq<string>)
    requires Grows(s, t)
    requires RefsSettled(site, s, o, src, now, was) && Covered(site, s, src, was)
    requires RefSettled(site, t, o, src, ref, parts)
    requires site.Followed(site.Target(src, parts)) ==> t.Seen(site.Target(src, parts))
    ensures RefsSettled(site, t, o, src, now + [ref], was + [parts]) && Covered(site, t, src, was + [parts])
  {
    hide Site.Mirror, Site.Followed, Site.Target, Site.Rewritten;
    SettledRefsStay(site, s, t, o, src, now, was);
    forall e | site.Refers(src, was + [parts], e) ensures t.Seen(e) {
      var i :| 0 <= i < |was + [parts]| && site.Target(src, (was + [parts])[i]) == e;
      if i < |was| {
        assert site.Target(src, was[i]) == e;
        assert site.Refers(src, was, e);
      }
    }
  }

  /** What an output file being processed reads does not change under it unless it is written over. */
  lemma {:induction false} SourceStays(s: State, t: State, o: Path)
    requires Keeps(s, t, {}) && o in s.out && (o in s.written || o !in t.written)
    ensures o in t.out && t.out[o] == s.out[o]
  {
  }

  /** Where nothing is converted nothing is written. */
  lemma {:induction false} NothingWritten(site: Site, s: State, t: State, o: Path)
    requires Good(site, s) && Good(site, t) && s.log == t.log && o in t.written
    ensures o in s.written
  {
    assert t.written[o] in s.log;
  }

  lemma {:induction false} ExtendsGrows(site: Site, s: State, t: State, except: set<Path>)
    requires Extends(site, s, t, except)
    ensures Grows(s, t) && Keeps(s, t, except)
  {
  }

  /** The state t once the first references of the output file o are dealt with, which was read in s. */
  ghost predicate RefsDone(site: Site, s: State, t: State, o: Path, src: Path, all: seq<seq<string>>,
                           refs: seq<seq<string>>, i: nat) {
    && i <= |all| && Good(site, t) && Holds(site, t) && Extends(site, s, t, {}) && HandsOver(s, t, None)
    && RefsSettled(site, t, o, src, refs, all[..i]) && Covered(site, t, src, all[..i])
    && (AllReached(site, s) && AllRefsReached(site, src, all) ==> AllReached(site, t))
    && (o !in s.written && refs == all[..i] ==> t.log == s.log)
  }

  ghost predicate AllRefsReached(site: Site, src: Path, refs: seq<seq<string>>)
    requires site.Valid()
  {
    forall e :: site.Refers(src, refs, e) ==> site.Reached(e)
  }

  lemma {:induction false} NoRefDone(site: Site, s: State, o: Path, src: Path, all: seq<seq<string>>)
    requires Good(site, s) && Holds(site, s)
    ensures RefsDone(site, s, s, o, src, all, [], 0)
  {
    hide Good, Holds, Extends, HandsOver, RefsSettled, Covered;
    ExtendsReflexive(site, s);
    HandsOverItself(s);
    NoRefs(site, s, o, src);
  }

  lemma {:induction false} NextRef(site: Site, s: State, t: State, u: State, o: Path, src: Path, all: seq<seq<string>>,
                                   refs: seq<seq<string>>, i: nat, ref: seq<string>)
    requires Good(site, s) && i < |all| && RefsDone(site, s, t, o, src, all, refs, i)
    requires Good(site, u) && Holds(site, u) && Extends(site, t, u, {}) && HandsOver(t, u, None)
    requires AllReached(site, t)
             && (site.Followed(site.Target(src, all[i])) ==> site.Reached(site.Target(src, all[i]))) ==>
               AllReached(site, u)
    requires RefSettled(site, u, o, src, ref, all[i])
    requires site.Followed(site.Target(src, all[i])) ==> u.Seen(site.Target(src, all[i]))
    requires ref == all[i] && o !in s.written ==> u.log == t.log
    ensures RefsDone(site, s, u, o, src, all, refs + [ref], i + 1) && |u.todo| <= |t.todo|
  {
    hide Good, Holds, Extends, HandsOver, RefsSettled, RefSettled, Covered, Grows, AllReached, Site.Followed,
      Site.Reached, Site.Target;
    ExtendsTransitive(site, s, t, u);
    ExtendsGrows(site, s, t, {});
    ExtendsGrows(site, t, u, {});
    HandsOverTransitive(s, t, u);
    TodoShrinks(t, u);
    OneMoreRef(site, t, u, o, src, refs, all[..i], ref, all[i]);
    assert all[..i + 1] == all[..i] + [all[i]];
    assert |refs| == i by {
      SameNumber(site, t, o, src, refs, all[..i]);
    }
    if refs + [ref] == all[..i + 1] {
      assert (refs + [ref])[..i] == refs;
    }
    assert site.Followed(site.Target(src, all[i])) ==> site.Refers(src, all, site.Target(src, all[i]));
  }

  lemma {:induction false} SameNumber(site: Site, s: State, o: Path, src: Path, now: seq<seq<string>>,
                                      was: seq<seq<string>>)
    requires RefsSettled(site, s, o, src, now, was)
    ensures |now| == |was|
  {
  }

  lemma {:induction false} AboutRefsDone(site: Site, s: State, t: State, o: Path, src: Path, all: seq<seq<string>>,
                                         refs: seq<seq<string>>, i: nat)
    requires RefsDone(site, s, t, o, src, all, refs, i)
    ensures Good(site, t) && Holds(site, t) && site.Valid()
  {
  }

  /** What processing an output file amounts to, once it is written back. */
  lemma {:induction false} AllRefsDone(site: Site, s: State, t: State, o: Path, src: Path, refs: seq<seq<string>>)
    requires Good(site, s) && Holds(site, s) && o in s.out
             && RefsDone(site, s, t, o, src, s.out[o].refs, refs, |s.out[o].refs|)
    ensures var u := WrittenBack(s, t, o, refs);
            && Good(site, u) && Holds(site, u) && Grows(s, u) && Keeps(s, u, {o}) && HandsOver(s, u, Some(o))
            && Covered(site, u, src, s.out[o].refs)
            && (o in s.written || o !in u.written ==> Extends(site, s, u, {o}) && Settled(site, u, o, src, s.out[o]))
            && (AllReached(site, s) && AllRefsReached(site, src, s.out[o].refs) ==> AllReached(site, u))
            && (refs == s.out[o].refs ==> u == t)
  {
    hide Good, Holds, HandsOver, Extends, Settled, RefsSettled, Covered, Grows, Keeps, AllReached;
    var all := s.out[o].refs;
    assert all[..|all|] == all;
    GoodIsValid(site, s);
    ExtendsGrows(site, s, t, {});
    WrittenBackHolds(site, s, t, o, src, refs);
    SameReached(site, t, WrittenBack(s, t, o, refs));
    if o in s.written || o !in t.written {
      SourceStays(s, t, o);
      WrittenBackSettles(site, s, t, o, src, refs);
    }
    if refs == all {
      if o !in s.written && o in t.written {
        NothingWritten(site, s, t, o);
      }
      SourceStays(s, t, o);
      NothingToWrite(s, t, o);
    }
  }

  // ----- the whole walk

  /** No copy was written over a visited file. */
  ghost predicate Unclashed(site: Site, s: State) {
    forall o :: o in site.visited ==> o !in s.written
  }

  lemma {:induction false} ClearIsUnclashed(site: Site, s: State)
    requires Good(site, s) && AllReached(site, s) && site.Clear(site.visited.Keys)
    ensures Unclashed(site, s)
  {
    hide Site.Mirror, Site.Followed, Site.Reached;
    forall d | d in s.written ensures d !in site.visited {
      assert s.Seen(s.written[d]);
    }
  }

  lemma {:induction false} UnclashedBefore(site: Site, s: State, t: State)
    requires Grows(s, t) && Unclashed(site, t)
    ensures Unclashed(site, s)
  {
  }

  /** Output files that were visited stay as they are while others are visited. */
  lemma {:induction false} NextVisit(site: Site, s: State, t: State, u: State, visits: set<Path>, o: Path)
    requires Good(site, s) && Good(site, t) && Good(site, u) && o !in u.written
    requires Extends(site, s, t, visits) && Extends(site, t, u, {o})
    ensures Extends(site, s, u, visits + {o})
  {
    hide Good, Done, Site.Mirror, Grows, Keeps;
    KeepsMore(s, t, u, visits, o);
    forall e | e in u.log && e !in s.log ensures Done(site, u, e) {
      if e in t.log {
        LogIsWritten(site, t, e);
        WrittenStays(t, u, site.Mirror(e));
        DoneStays(site, t, u, {o}, e);
      }
    }
  }

  lemma {:induction false} WrittenStays(t: State, u: State, p: Path)
    requires Grows(t, u) && p in t.written
    ensures p in u.written
  {
  }

  lemma {:induction false} KeepsMore(s: State, t: State, u: State, visits: set<Path>, o: Path)
    requires Grows(s, t) && Grows(t, u) && Keeps(s, t, visits) && Keeps(t, u, {o})
    ensures Grows(s, u) && Keeps(s, u, visits + {o})
  {
  }

  lemma {:induction false} UnvisitedStays(t: State, u: State, o: Path, p: Path)
    requires Keeps(t, u, {o}) && p != o && p !in u.written && p in t.out
    ensures p in u.out && u.out[p] == t.out[p]
  {
  }

  lemma {:induction false} VisitedStays(site: Site, t: State, u: State, o: Path, p: Path, was: File)
    requires Extends(site, t, u, {o}) && p != o && p !in u.written
    requires site.output <= p
    requires Settled(site, t, p, site.SourceOf(p), was) && Covered(site, t, site.SourceOf(p), was.refs)
    ensures Settled(site, u, p, site.SourceOf(p), was) && Covered(site, u, site.SourceOf(p), was.refs)
  {
    hide Done;
    SettledStays(site, t, u, p, site.SourceOf(p), was);
  }

  function Range(s: seq<Path>): set<Path> {
    set x | x in s
  }

  /** The files to visit are the output files there are at first. */
  ghost predicate Ready(site: Site, s: State, visits: seq<Path>) {
    && site.Valid() && s == State(s.out, {}, [], [], site.files.Keys, map[], map[])
    && Distinct(visits) && (forall o :: o in visits <==> o in site.visited)
    && forall o :: o in site.visited ==> o in s.out && s.out[o] == site.visited[o]
  }

  ghost predicate VisitDone(site: Site, s: State, o: Path) {
    && o in site.visited && site.output <= o
    && Settled(site, s, o, site.SourceOf(o), site.visited[o])
    && Covered(site, s, site.SourceOf(o), site.visited[o].refs)
  }

  ghost predicate Unvisited(site: Site, s: State, o: Path) {
    o in site.visited && o in s.out && s.out[o] == site.visited[o]
  }

  /** The state t once the first k files are visited. */
  ghost predicate WalkedTo(site: Site, s: State, t: State, visits: seq<Path>, k: nat) {
    && k <= |visits| && Good(site, t) && Extends(site, s, t, Range(visits[..k]))
    && (forall j :: 0 <= j < k ==> VisitDone(site, t, visits[j]))
    && (forall j :: k <= j < |visits| ==> Unvisited(site, t, visits[j]))
  }

  lemma {:induction false} WalkStarts(site: Site, s: State, visits: seq<Path>)
    requires Ready(site, s, visits)
    ensures WalkedTo(site, s, s, visits, 0) && Good(site, s)
  {
    ExtendsReflexive(site, s);
    assert Range(visits[..0]) == {};
    assert Good(site, s);
  }

  lemma {:induction false} WalkStep(site: Site, s: State, t: State, u: State, visits: seq<Path>, k: nat)
    requires Ready(site, s, visits) && Good(site, s) && k < |visits| && WalkedTo(site, s, t, visits, k)
    requires Good(site, u) && Extends(site, t, u, {visits[k]}) && VisitDone(site, u, visits[k]) && Unclashed(site, u)
    ensures WalkedTo(site, s, u, visits, k + 1)
  {
    hide Good, Extends, Settled, Covered, Site.SourceOf, Site.Valid;
    var o := visits[k];
    assert o in visits;
    NextVisit(site, s, t, u, Range(visits[..k]), o);
    assert Range(visits[..k + 1]) == Range(visits[..k]) + {o};
    forall j | 0 <= j < |visits| && j != k ensures j < k ==> VisitDone(site, u, visits[j])
                                           ensures j > k ==> Unvisited(site, u, visits[j]) {
      assert visits[j] in visits;
      OthersStay(site, t, u, o, visits[j]);
    }
  }

  lemma {:induction false} OthersStay(site: Site, t: State, u: State, o: Path, p: Path)
    requires Extends(site, t, u, {o}) && p != o && p !in u.written
    ensures VisitDone(site, t, p) ==> VisitDone(site, u, p)
    ensures Unvisited(site, t, p) ==> Unvisited(site, u, p)
  {
    ExtendsGrows(site, t, u, {o});
    hide Extends, Settled, Covered, Keeps, Grows;
    if VisitDone(site, t, p) {
      VisitedStays(site, t, u, o, p, site.visited[p]);
    }
    if Unvisited(site, t, p) {
      UnvisitedStays(t, u, o, p);
    }
  }

  lemma {:induction false} SourceIsNormal(site: Site, o: Path)
    requires site.Valid() && o in site.visited
    ensures site.output < o && Normal(o) && Normal(site.SourceOf(o))
  {
    JoinIsNormal(site.source, o[|site.output|..]);
  }

  lemma {:induction false} RootsAreReached(site: Site, o: Path)
    requires site.Valid() && o in site.visited
    ensures forall e :: site.Refers(site.SourceOf(o), site.visited[o].refs, e) ==> site.Reached(e)
  {
    forall e | site.Refers(site.SourceOf(o), site.visited[o].refs, e) ensures site.Reached(e) {
      RootIsReached(site, o, e);
    }
  }

  // ----- where copies are written over files of the workload

  /** A place that was written during the visit of the file that is there. */
  predicate OwnVisit(visits: seq<Path>, met: map<Path, nat>, p: Path) {
    p in met && met[p] < |visits| && visits[met[p]] == p
  }

  /** A file on which no copy is before it is visited has its references followed by the end of its visit. */
  ghost predicate InTime(site: Site, t: State, visits: seq<Path>, met: map<Path, nat>, j: nat)
    requires j < |visits|
  {
    var o := visits[j];
    o in site.visited && site.output <= o
    && ((o in met ==> met[o] >= j) ==>
          forall e :: site.Refers(site.SourceOf(o), site.visited[o].refs, e) ==>
            t.Seen(e) && (e in site.files ==> site.Mirror(e) in met && met[site.Mirror(e)] <= j))
  }

  /** What is true of every walk after k visits: met tells during which visit a place was written, and a place holds the
      copy that was written there unless that was during the visit of the file itself. */
  ghost predicate Tracked(site: Site, t: State, visits: seq<Path>, k: nat, met: map<Path, nat>) {
    && k <= |visits| && Good(site, t) && Holds(site, t)
    && MetBefore(t, met, k) && CopiesTold(t, visits, met) && Untouched(site, t, visits, k)
    && (forall j :: 0 <= j < k ==> InTime(site, t, visits, met, j))
  }

  ghost predicate MetBefore(t: State, met: map<Path, nat>, k: nat) {
    met.Keys == t.written.Keys && forall p :: p in met ==> met[p] < k
  }

  ghost predicate CopiesTold(t: State, visits: seq<Path>, met: map<Path, nat>) {
    forall p :: t.CopyAt(p) == if p in t.written && !OwnVisit(visits, met, p) then Some(t.written[p]) else None
  }

  /** Files still to visit are as they were, unless a copy was written over them. */
  ghost predicate Untouched(site: Site, t: State, visits: seq<Path>, k: nat) {
    && (forall j :: 0 <= j < |visits| ==> visits[j] in site.visited && visits[j] in t.out)
    && (forall j :: k <= j < |visits| && visits[j] !in t.written ==> t.out[visits[j]] == site.visited[visits[j]])
  }

  function MetBy(met: map<Path, nat>, written: map<Path, Path>, k: nat): map<Path, nat> {
    map p | p in written :: if p in met then met[p] else k
  }

  lemma {:induction false} TrackedStarts(site: Site, s: State, visits: seq<Path>)
    requires Ready(site, s, visits)
    ensures Good(site, s) && Tracked(site, s, visits, 0, map[]) && AllReached(site, s)
  {
    forall j | 0 <= j < |visits| ensures visits[j] in site.visited {
      assert visits[j] in visits;
    }
  }

  lemma {:induction false} TrackedStep(site: Site, t: State, u: State, visits: seq<Path>, k: nat, met: map<Path, nat>)
    requires k < |visits| && Tracked(site, t, visits, k, met) && Distinct(visits)
    requires Good(site, u) && Holds(site, u) && Grows(t, u) && Keeps(t, u, {visits[k]})
             && HandsOver(t, u, Some(visits[k]))
    requires site.output <= visits[k] && Covered(site, u, site.SourceOf(visits[k]), t.out[visits[k]].refs)
    ensures Tracked(site, u, visits, k + 1, MetBy(met, u.written, k))
  {
    var o, met' := visits[k], MetBy(met, u.written, k);
    VisitedInTime(site, t, u, visits, k, met);
    forall j | 0 <= j < k ensures InTime(site, u, visits, met', j) {
      StaysInTime(site, t, u, visits, k, met, j);
    }
    hide Good, Holds, Covered, InTime, Site.SourceOf, MetBefore, CopiesTold, Untouched;
    CopiesStayTold(t, u, visits, k, met);
    UntouchedStay(site, t, u, visits, k);
    MetByBefore(t, u, met, k);
  }

  lemma {:induction false} MetByBefore(t: State, u: State, met: map<Path, nat>, k: nat)
    requires Grows(t, u) && MetBefore(t, met, k)
    ensures MetBefore(u, MetBy(met, u.written, k), k + 1)
  {
  }

  lemma {:induction false} UntouchedStay(site: Site, t: State, u: State, visits: seq<Path>, k: nat)
    requires k < |visits| && Distinct(visits) && Grows(t, u) && Keeps(t, u, {visits[k]})
             && Untouched(site, t, visits, k)
    ensures Untouched(site, u, visits, k + 1)
  {
  }

  lemma {:induction false} CopiesStayTold(t: State, u: State, visits: seq<Path>, k: nat, met: map<Path, nat>)
    requires k < |visits| && MetBefore(t, met, k) && CopiesTold(t, visits, met)
    requires Grows(t, u) && HandsOver(t, u, Some(visits[k]))
    ensures CopiesTold(u, visits, MetBy(met, u.written, k))
  {
    forall p ensures u.CopyAt(p) ==
              if p in u.written && !OwnVisit(visits, MetBy(met, u.written, k), p) then Some(u.written[p]) else None {
      assert t.CopyAt(p) == if p in t.written && !OwnVisit(visits, met, p) then Some(t.written[p]) else None;
    }
  }

  lemma {:induction false} StaysInTime(site: Site, t: State, u: State, visits: seq<Path>, k: nat, met: map<Path, nat>,
                                       j: nat)
    requires j < k < |visits| && met.Keys == t.written.Keys && Grows(t, u)
    requires InTime(site, t, visits, met, j)
    ensures InTime(site, u, visits, MetBy(met, u.written, k), j)
  {
    hide Site.Mirror, Site.Refers, Site.SourceOf;
  }

  lemma {:induction false} VisitedInTime(site: Site, t: State, u: State, visits: seq<Path>, k: nat, met: map<Path, nat>)
    requires k < |visits| && Tracked(site, t, visits, k, met) && Good(site, u) && Grows(t, u)
             && site.output <= visits[k]
    requires Covered(site, u, site.SourceOf(visits[k]), t.out[visits[k]].refs)
    ensures InTime(site, u, visits, MetBy(met, u.written, k), k)
  {
    hide Site.Mirror, Site.Refers, Site.Followed, Site.SourceOf, Holds;
    var o, met' := visits[k], MetBy(met, u.written, k);
    if o in met' ==> met'[o] >= k {
      assert o !in met && t.out[o] == site.visited[o];
      forall e | site.Refers(site.SourceOf(o), site.visited[o].refs, e)
        ensures u.Seen(e) && (e in site.files ==> site.Mirror(e) in met' && met'[site.Mirror(e)] <= k)
      {
        assert u.Seen(e);
      }
    }
  }

  /** No file is lost: no copy is at these places, and every converted file has its copy. */
  ghost predicate NothingLost(site: Site, t: State, places: set<Path>) {
    (forall o :: o in places ==> t.CopyAt(o) == None)
    && (forall e :: e in t.log ==> t.CopyAt(site.Mirror(e)) == Some(e))
  }

  lemma {:induction false} NothingLostIsUnclashed(site: Site, t: State, visits: seq<Path>, met: map<Path, nat>)
    requires Tracked(site, t, visits, |visits|, met) && (forall o :: o in visits <==> o in site.visited)
    ensures NothingLost(site, t, site.visited.Keys) <==> Unclashed(site, t)
  {
    hide Site.Mirror, Site.Followed, Site.Refers, InTime, Holds;
    if NothingLost(site, t, site.visited.Keys) {
      forall d | d in t.written ensures t.CopyAt(d) == Some(t.written[d]) {
        assert t.written[d] in t.log && site.Mirror(t.written[d]) == d;
      }
    }
    if Unclashed(site, t) {
      forall o | o in site.visited ensures t.CopyAt(o) == None {
      }
      forall e | e in t.log ensures t.CopyAt(site.Mirror(e)) == Some(e) {
        var p := site.Mirror(e);
        MirrorInjective(site, e, t.written[p]);
        assert !OwnVisit(visits, met, p);
      }
    }
  }

  /** A file of the workload's own is lost exactly if an external file is mirrored onto it while another file is
      visited. */
  lemma {:induction false} LostExactlyWhen(site: Site, t: State, visits: seq<Path>, met: map<Path, nat>, k: nat)
    requires Tracked(site, t, visits, |visits|, met) && k < |visits|
    requires forall i, j :: 0 <= i < j < |visits| ==> visits[i] != visits[j]
    ensures var o := visits[k];
            if o in met && met[o] != k
            then t.CopyAt(o) == Some(t.written[o]) && t.out[o].text == site.convert(site.files[t.written[o]].text)
            else t.CopyAt(o) == None && t.out[o].text == site.visited[o].text
  {
    hide Good, InTime;
    var o := visits[k];
    assert t.CopyAt(o) == if o in t.written && !OwnVisit(visits, met, o) then Some(t.written[o]) else None;
  }

  /** Of an output file that is not visited the same goes for any copy written over it. */
  lemma {:induction false} OthersLostExactlyWhen(site: Site, s: State, t: State, visits: seq<Path>,
                                                 met: map<Path, nat>, p: Path)
    requires Tracked(site, t, visits, |visits|, met) && Keeps(s, t, site.visited.Keys) && s.written == map[]
    requires p in s.out && p !in site.visited
    ensures if p in met
            then t.CopyAt(p) == Some(t.written[p]) && p in t.out
                 && t.out[p].text == site.convert(site.files[t.written[p]].text)
            else t.CopyAt(p) == None && p in t.out && t.out[p] == s.out[p]
  {
    hide Good, InTime;
    assert t.CopyAt(p) == if p in t.written && !OwnVisit(visits, met, p) then Some(t.written[p]) else None;
  }

  /** When all visited files and all converted files are covered, exactly the reachable files have been seen. */
  lemma {:induction false} SeenAreTheReached(site: Site, s: State, e: Path)
    requires Good(site, s) && AllReached(site, s)
    requires forall f :: f in s.log ==> Done(site, s, f)
    requires forall o :: o in site.visited ==> Covered(site, s, site.SourceOf(o), site.visited[o].refs)
    ensures site.Reached(e) <==> s.Seen(e)
  {
    hide Settled, Site.Mirror, Site.Refers, Site.Followed;
    if site.Reached(e) {
      var c :| site.Chain(c) && c[|c| - 1] == e;
      var closed := iset f | s.Seen(f);
      forall f | site.Root(f) ensures f in closed {
      }
      forall f, g | f in closed && site.Step(f, g) ensures g in closed {
        assert f in s.log && Done(site, s, f);
      }
      ReachedIsInClosed(site, c, closed);
    }
  }

  lemma {:induction false} WalkEnds(site: Site, s: State, t: State, visits: seq<Path>)
    requires Ready(site, s, visits) && WalkedTo(site, s, t, visits, |visits|) && AllReached(site, t)
    ensures Good(site, t) && Keeps(s, t, site.visited.Keys)
    ensures forall o :: o in site.visited ==> VisitDone(site, t, o)
    ensures forall e :: e in t.log ==> Done(site, t, e)
    ensures Distinct(t.log) && forall e :: e in t.log <==> site.Reached(e) && e in site.files
    ensures Distinct(t.issues) && forall e :: e in t.issues <==> site.Reached(e) && e !in site.files
  {
    hide Settled, Covered, Site.Reached, Site.Mirror, Site.Followed, Done, VisitDone;
    assert visits[..|visits|] == visits;
    assert Range(visits) == site.visited.Keys;
    forall o | o in site.visited ensures VisitDone(site, t, o) {
      var j :| 0 <= j < |visits| && visits[j] == o;
      assert VisitDone(site, t, visits[j]);
    }
    forall e ensures site.Reached(e) <==> t.Seen(e) {
      VisitsCover(site, t);
      SeenAreTheReached(site, t, e);
    }
  }

  lemma {:induction false} VisitsCover(site: Site, t: State)
    requires site.Valid() && forall o :: o in site.visited ==> VisitDone(site, t, o)
    ensures forall o :: o in site.visited ==> Covered(site, t, site.SourceOf(o), site.visited[o].refs)
  {
  }

  /** Where no copy was written over a visited file, none is mirrored onto one. */
  lemma {:induction false} UnclashedIsClear(site: Site, t: State)
    requires Good(site, t) && Unclashed(site, t) && forall e :: e in t.log <==> site.Reached(e) && e in site.files
    ensures site.Clear(site.visited.Keys)
  {
    hide Site.Mirror, Site.Followed, Site.Reached;
    forall e | site.Reached(e) && e in site.files ensures site.Mirror(e) !in site.visited {
      assert e in t.log;
    }
  }

  /** A reference to a file that exists leads to its copy, and the copy is there. */
  lemma {:induction false} SettledLeadsToCopy(site: Site, s: State, o: Path, src: Path, was: File, i: nat)
    requires Good(site, s) && Settled(site, s, o, src, was) && Covered(site, s, src, was.refs) && i < |was.refs|
    requires forall f :: f in s.log ==> Done(site, s, f)
    requires var e := site.Target(src, was.refs[i]); site.Followed(e) && e in site.files
    ensures var e := site.Target(src, was.refs[i]);
            && site.Target(o, s.out[o].refs[i]) == site.Mirror(e)
            && site.Mirror(e) in s.out && s.out[site.Mirror(e)].text == site.convert(site.files[e].text)
  {
    var e := site.Target(src, was.refs[i]);
    RewrittenLeadsToMirror(site, o, src, was.refs[i]);
    hide Site.Target, Site.Mirror, Site.Followed, Site.Rewritten;
    assert site.Refers(src, was.refs, e);
    assert e in s.log;
    assert RefSettled(site, s, o, src, s.out[o].refs[i], was.refs[i]);
  }

  /** A missing file has no copy, so a reference to it that is rewritten, as all but the one that found it missing are,
      leads nowhere. */
  lemma {:induction false} MissingHasNoCopy(site: Site, s: State, t: State, e: Path, o: Path, src: Path,
                                            parts: seq<string>)
    requires Good(site, t) && Keeps(s, t, site.visited.Keys) && e in t.issues && site.Mirror(e) !in s.out
    requires site.Target(src, parts) == e
    ensures site.Target(o, site.Rewritten(o, src, parts)) == site.Mirror(e) && site.Mirror(e) !in t.out
  {
    if site.Mirror(e) in t.written {
      MirrorInjective(site, e, t.written[site.Mirror(e)]);
    }
    hide Site.Mirror, Site.Followed, Site.Target, Site.Rewritten;
    RewrittenLeadsToMirror(site, o, src, parts);
  }

  /** What is known after k visits: where nothing was lost so far, everything is as it should be. */
  ghost predicate Walked(site: Site, s: State, t: State, visits: seq<Path>, k: nat, met: map<Path, nat>) {
    && Tracked(site, t, visits, k, met) && Grows(s, t) && Keeps(s, t, site.visited.Keys)
    && (Unclashed(site, t) ==> WalkedTo(site, s, t, visits, k) && AllReached(site, t))
    && (site.Clear(site.visited.Keys) ==> Unclashed(site, t))
  }

  lemma {:induction false} WalkedStarts(site: Site, s: State, visits: seq<Path>)
    requires Ready(site, s, visits)
    ensures Walked(site, s, s, visits, 0, map[])
  {
    TrackedStarts(site, s, visits);
    WalkStarts(site, s, visits);
    hide Tracked, Good, WalkedTo;
    ClearIsUnclashedAtFirst(site, s);
  }

  lemma {:induction false} ClearIsUnclashedAtFirst(site: Site, s: State)
    requires s.written == map[]
    ensures Unclashed(site, s)
  {
  }

  lemma {:induction false} KeepsTheOthers(site: Site, s: State, t: State, u: State, o: Path)
    requires Grows(s, t) && Grows(t, u) && Keeps(s, t, site.visited.Keys) && Keeps(t, u, {o}) && o in site.visited
    ensures Grows(s, u) && Keeps(s, u, site.visited.Keys)
  {
    hide Grows, Keeps;
    KeepsMore(s, t, u, site.visited.Keys, o);
    assert site.visited.Keys + {o} == site.visited.Keys;
  }

  lemma {:induction false} WalkedStep(site: Site, s: State, t: State, u: State, visits: seq<Path>, k: nat,
                                      met: map<Path, nat>)
    requires Ready(site, s, visits) && Good(site, s) && k < |visits| && Walked(site, s, t, visits, k, met)
    requires Good(site, u) && Holds(site, u) && Grows(t, u) && Keeps(t, u, {visits[k]})
             && HandsOver(t, u, Some(visits[k]))
    requires visits[k] in site.visited && visits[k] in t.out
    requires Covered(site, u, site.SourceOf(visits[k]), t.out[visits[k]].refs)
    requires visits[k] in t.written || visits[k] !in u.written ==>
               Extends(site, t, u, {visits[k]})
                 && Settled(site, u, visits[k], site.SourceOf(visits[k]), t.out[visits[k]])
    requires AllReached(site, t) && AllRefsReached(site, site.SourceOf(visits[k]), t.out[visits[k]].refs) ==>
               AllReached(site, u)
    ensures Walked(site, s, u, visits, k + 1, MetBy(met, u.written, k))
  {
    var o := visits[k];
    hide Grows, Keeps;
    KeepsTheOthers(site, s, t, u, o);
    TrackedStep(site, t, u, visits, k, met);
    hide Tracked, Good, Holds, HandsOver, Extends, Settled, Covered, Site.Refers, AllReached, Site.Clear;
    if Unclashed(site, t) {
      assert Unvisited(site, t, o);
      RootsAreReached(site, o);
      if site.Clear(site.visited.Keys) {
        ClearIsUnclashed(site, u);
      }
    }
    if Unclashed(site, u) {
      UnclashedBefore(site, t, u);
      assert VisitDone(site, u, o);
      WalkStep(site, s, t, u, visits, k);
    }
  }

  lemma {:induction false} VisitIsReady(site: Site, s: State, t: State, visits: seq<Path>, k: nat, met: map<Path, nat>)
    requires k < |visits| && Walked(site, s, t, visits, k, met) && Ready(site, s, visits)
    ensures Good(site, s) && Good(site, t) && Holds(site, t)
    ensures var o := visits[k];
            o in t.out && o in site.visited && site.output <= o && Normal(site.SourceOf(o))
  {
    TrackedStarts(site, s, visits);
    hide Good, Holds, WalkedTo;
    SourceIsNormal(site, visits[k]);
  }

  lemma {:induction false} WalkedIsTracked(site: Site, s: State, t: State, visits: seq<Path>, met: map<Path, nat>)
    requires Walked(site, s, t, visits, |visits|, met)
    ensures Tracked(site, t, visits, |visits|, met) && Keeps(s, t, site.visited.Keys)
  {
  }

  lemma {:induction false} WalkedEnds(site: Site, s: State, t: State, visits: seq<Path>, met: map<Path, nat>)
    requires Ready(site, s, visits) && Walked(site, s, t, visits, |visits|, met)
    ensures NothingLost(site, t, s.out.Keys) <==> site.Clear(s.out.Keys)
    ensures NothingLost(site, t, site.visited.Keys) <==> site.Clear(site.visited.Keys)
    ensures site.Clear(site.visited.Keys) ==>
              && (forall e :: e in t.log <==> site.Reached(e) && e in site.files)
              && (forall e :: e in t.issues <==> site.Reached(e) && e !in site.files)
              && (forall o :: o in site.visited ==> VisitDone(site, t, o))
              && (forall e :: e in t.log ==> Done(site, t, e))
  {
    NothingLostIsUnclashed(site, t, visits, met);
    VisitedArePlaces(site, s, t, visits);
    if Unclashed(site, t) {
      hide Ready, Good, Holds, Tracked, WalkedTo, NothingLost, Site.Clear, AllReached, Keeps, Unclashed;
      WalkEnds(site, s, t, visits);
      UnclashedIsClear(site, t);
      CopiesAreOfConverted(site, t, visits, met);
      OtherPlaces(site, t, s.out.Keys);
    }
  }

  lemma {:induction false} VisitedArePlaces(site: Site, s: State, t: State, visits: seq<Path>)
    requires Ready(site, s, visits)
    ensures NothingLost(site, t, s.out.Keys) ==> NothingLost(site, t, site.visited.Keys)
    ensures site.Clear(s.out.Keys) ==> site.Clear(site.visited.Keys)
  {
    FewerPlaces(site, t, s.out.Keys);
  }

  lemma {:induction false} CopiesAreOfConverted(site: Site, t: State, visits: seq<Path>, met: map<Path, nat>)
    requires Tracked(site, t, visits, |visits|, met)
    ensures Good(site, t) && Holds(site, t) && forall p :: p in t.copies ==> t.copies[p] in t.log
  {
    hide InTime, Site.Mirror, Site.Followed;
    forall p | p in t.copies ensures t.copies[p] in t.log {
      assert t.CopyAt(p) == Some(t.copies[p]);
    }
  }

  /** What goes for all places goes for the visited ones. */
  lemma {:induction false} FewerPlaces(site: Site, t: State, places: set<Path>)
    requires site.Valid() && site.visited.Keys <= places
    ensures NothingLost(site, t, places) ==> NothingLost(site, t, site.visited.Keys)
    ensures site.Clear(places) ==> site.Clear(site.visited.Keys)
  {
    hide Site.Mirror, Site.Followed, Site.Reached;
  }

  /** At other places a copy is lost or not just as at the visited ones. */
  lemma {:induction false} OtherPlaces(site: Site, t: State, places: set<Path>)
    requires Good(site, t) && Holds(site, t) && NothingLost(site, t, site.visited.Keys)
    requires forall e :: e in t.log <==> site.Reached(e) && e in site.files
    requires forall p :: p in t.copies ==> t.copies[p] in t.log
    ensures NothingLost(site, t, places) <==> site.Clear(places)
  {
    hide Site.Mirror, Site.Followed, Site.Reached;
    if site.Clear(places) {
      forall o | o in places ensures t.CopyAt(o) == None {
      }
    }
  }

  // ----- references back into the workload

  /** Where the output has a file of the source side: the workload's own, or a mirrored one. */
  function OutputCopy(site: Site, f: Path): Option<Path> {
    if site.Inside(f) then Some(site.output + f[|site.source|..])
    else if site.Mirrorable(f) then Some(site.Mirror(f))
    else None
  }

  /** A reference that goes up beyond the root, where nothing is, and comes down just where the output directory has the
      path of the source. */
  predicate GoesAround(site: Site, e: Path, parts: seq<string>) {
    var up := Net(parts).0;
    up > |Dir(e)| && Above(Dir(site.Mirror(e)), up) + site.source == site.output
  }

  /** A reference in a converted external file leads to the output copy of its target exactly if the target is external
      and mirrored, or if it goes around. So as a rule references back into the workload lead nowhere. */
  lemma {:induction false} LeadsToCopyExactlyWhen(site: Site, e: Path, parts: seq<string>)
    requires site.Valid() && Normal(e) && site.Followed(e) && e != site.Parent()
    ensures var f := site.Target(e, parts);
            Some(site.Target(site.Mirror(e), site.Rewritten(site.Mirror(e), e, parts))) == OutputCopy(site, f)
            <==> site.Followed(f) || (site.Inside(f) && GoesAround(site, e, parts))
  {
    var f := site.Target(e, parts);
    if site.Followed(f) {
      RewrittenLeadsToMirror(site, site.Mirror(e), e, parts);
    } else if site.Inside(f) {
      BackReference(site, e, parts);
    }
  }

  lemma {:induction false} BackReference(site: Site, e: Path, parts: seq<string>)
    requires site.Valid() && Normal(e) && site.Followed(e) && e != site.Parent() && site.Inside(site.Target(e, parts))
    ensures site.Target(site.Mirror(e), parts) == site.output + site.Target(e, parts)[|site.source|..]
            <==> GoesAround(site, e, parts)
  {
    MirrorKeepsThePlace(site, e);
    var parent, rest := site.Parent(), e[|site.Parent()|..];
    assert e == parent + rest && rest != [];
    DirUnder(parent, rest);
    DirUnder(site.output, rest);
    ResolveIsNet(Dir(e), parts);
    ResolveIsNet(Dir(site.Mirror(e)), parts);
    var (up, down) := Net(parts);
    hide Resolve, RelPath, Net, Dir, Normal;
    assert |parent| + 1 == |site.source| && parent == site.source[..|parent|] by {
      ParentOf(site);
    }
    Landing(site.source, parent, site.output, Dir(rest), up, down);
  }

  lemma {:induction false} ParentOf(site: Site)
    requires site.Valid()
    ensures |site.Parent()| + 1 == |site.source| && site.Parent() == site.source[..|site.Parent()|]
  {
  }

  /** The same steps from the same place under two directories. */
  lemma {:induction false} Landing(source: Path, parent: Path, output: Path, dir: Path, up: nat, down: Path)
    requires |parent| + 1 == |source| && parent == source[..|parent|]
    requires source <= Above(parent + dir, up) + down
    ensures Above(output + dir, up) + down == output + (Above(parent + dir, up) + down)[|source|..]
            <==> up > |parent + dir| && Above(output + dir, up) + source == output
  {
    var a, b := Above(parent + dir, up), Above(output + dir, up);
    var rest := (a + down)[|source|..];
    assert a + down == source + rest;
    assert |b| + |down| == |output| + |rest| ==> up > |parent + dir|;
    if up > |parent + dir| {
      assert a == [] && down == source + rest;
      assert b + down == (b + source) + rest;
      SameFront(b + source, output, rest);
    } else {
      assert |b + down| == |output + rest| ==> false;
    }
  }

  lemma {:induction false} SameFront(a: Path, b: Path, rest: Path)
    ensures a + rest == b + rest <==> a == b
  {
    if a + rest == b + rest {
      assert |a| == |b|;
      assert (a + rest)[..|a|] == a && (b + rest)[..|b|] == b;
    }
  }

  /** The plain way back from an external file to a file of the workload: from the mirrored copy it leads to the name of
      the source directory below the output, where the workload's own files are not. */
  lemma {:induction false} PlainBackReference(site: Site, e: Path, f: Path)
    requires site.Valid() && Normal(e) && site.Followed(e) && e != site.Parent() && Normal(f) && site.Inside(f)
    ensures var parts := RelPath(f, Dir(e));
            && site.Target(e, parts) == f
            && site.Target(site.Mirror(e), site.Rewritten(site.Mirror(e), e, parts))
              == site.output + f[|site.Parent()|..]
            && site.output + f[|site.Parent()|..] != site.output + f[|site.source|..]
  {
    MirrorKeepsThePlace(site, e);
    ParentOf(site);
    var parent, rest := site.Parent(), e[|site.Parent()|..];
    var target := f[|parent|..];
    assert e == parent + rest && f == parent + target && Normal(target);
    DirUnder(parent, rest);
    DirUnder(site.output, rest);
    RelPathLeadsThere(f, Dir(e));
    SameWay(parent, site.output, target, Dir(rest));
    hide Resolve, RelPath, Dir, Normal;
  }

  // ----- a second visit

  /** Where the walk lists a directory after a copy was written into it, it takes the copy for a file of the workload's
      own. A reference that was left as it is then starts one directory further down; it must lead out of the source
      directory and stay below its parent to be followed there. */
  predicate LooksElsewhere(site: Site, e: Path, parts: seq<string>) {
    var (up, down) := Net(parts);
    var depth := |e| - |site.Parent()|;
    depth <= up
    && var f := Above(site.Parent(), up - depth) + down;
       site.Parent() <= f && !site.Inside(f) && !(|f| > |site.Parent()| && ".." <= f[|site.Parent()|])
  }

  /** A second visit of a copy follows a reference exactly if it was not rewritten and looks elsewhere. */
  lemma {:induction false} FollowedAgainExactlyWhen(site: Site, e: Path, parts: seq<string>)
    requires site.Valid() && Normal(e) && site.Followed(e) && e != site.Parent()
    ensures var o := site.Mirror(e);
            && site.output < o
            && (site.Followed(site.Target(site.SourceOf(o), parts)) <==> LooksElsewhere(site, e, parts))
            && (site.Followed(site.Target(site.SourceOf(o), site.Rewritten(o, e, parts)))
                <==> !site.Followed(site.Target(e, parts)) && LooksElsewhere(site, e, parts))
  {
    var o := site.Mirror(e);
    PlaceOfCopy(site, e);
    SecondTarget(site, e, parts);
    hide Site.Mirror, Site.Target, Site.SourceOf, Resolve, RelPath, Net, Normal, LooksElsewhere;
    if site.Followed(site.Target(e, parts)) {
      assert Normal(o) by {
        MirrorIsNormal(site, e);
      }
      RewrittenIsLeftAlone(site, o, e, parts);
    }
  }

  lemma {:induction false} PlaceOfCopy(site: Site, e: Path)
    requires site.Valid() && Normal(e) && site.Followed(e) && e != site.Parent()
    ensures site.Parent() < e && site.output < site.Mirror(e) && Normal(site.SourceOf(site.Mirror(e)))
    ensures site.SourceOf(site.Mirror(e)) == site.source + e[|site.Parent()|..]
  {
    MirrorKeepsThePlace(site, e);
    assert e == site.Parent() + e[|site.Parent()|..];
  }

  lemma {:induction false} SecondTarget(site: Site, e: Path, parts: seq<string>)
    requires site.Valid() && Normal(e) && site.Followed(e) && e != site.Parent()
    ensures site.output < site.Mirror(e)
    ensures site.Followed(site.Target(site.SourceOf(site.Mirror(e)), parts)) <==> LooksElsewhere(site, e, parts)
  {
    PlaceOfCopy(site, e);
    ParentOf(site);
    var parent, rest := site.Parent(), e[|site.Parent()|..];
    var src := site.source + rest;
    var f := site.Target(src, parts);
    DirUnder(site.source, rest);
    ResolveIsNet(Dir(src), parts);
    ResolveIsNormal(Dir(src), parts);
    MirrorKeepsThePlace(site, f);
    var (up, down) := Net(parts);
    hide Resolve, RelPath, Net, Normal, Site.Mirror, Site.Mirrorable, Site.SourceOf, Site.Valid, Above, Dir;
    UpFromSource(site.source, parent, rest, up, down);
  }

  /** Shared operations that refer to a file too far up the tree: a second visit of their copy takes a file below the
      parent of the source for the one meant. */
  lemma {:induction false} AnotherFileIsFollowed(site: Site)
    requires site.source == ["w", "geonames"] && site.output == ["out"] && site.visited.Keys <= {MAIN, OWN}
    ensures var parts := ["..", "..", "lib", "x.json"];
            && site.Valid() && site.Followed(SHARED) && site.Mirror(SHARED) == OWN
            && site.Target(SHARED, parts) == ["lib", "x.json"] && !site.Followed(["lib", "x.json"])
            && site.Target(site.SourceOf(OWN), parts) == ["w", "lib", "x.json"] && site.Followed(["w", "lib", "x.json"])
  {
    SharedPlace(site);
    LibIsTooFarUp(site);
    SharedIsTwoUp(site);
    hide Site.Mirror, Site.Followed, Site.Target, Site.Valid, Normal;
    assert site.SourceOf(OWN) == ["w", "geonames", "operations", "default.json"];
  }

  lemma {:induction false} SharedIsTwoUp(site: Site)
    ensures var parts := ["..", "..", "lib", "x.json"];
            && site.Target(SHARED, parts) == ["lib", "x.json"]
            && site.Target(["w", "geonames", "operations", "default.json"], parts) == ["w", "lib", "x.json"]
  {
    TwoUp(site, ["w"], "operations");
    TwoUp(site, ["w", "geonames"], "operations");
    hide Site.Target;
    assert ["w"] + ["operations", "default.json"] == SHARED && ["w"][..0] == [];
    assert ["w", "geonames"] + ["operations", "default.json"] == ["w", "geonames", "operations", "default.json"];
    assert ["w", "geonames"][..1] == ["w"];
  }

  lemma {:induction false} LibIsTooFarUp(site: Site)
    requires site.Valid() && site.source == ["w", "geonames"]
    ensures !site.Followed(["lib", "x.json"]) && site.Followed(["w", "lib", "x.json"])
  {
    assert site.Parent() == ["w"];
    MirrorKeepsThePlace(site, ["lib", "x.json"]);
    MirrorKeepsThePlace(site, ["w", "lib", "x.json"]);
    assert "lib"[0] != ".."[0];
  }

  lemma {:induction false} TwoUp(site: Site, dir: Path, name: string)
    requires dir != []
    ensures site.Target(dir + [name, "default.json"], ["..", "..", "lib", "x.json"])
            == dir[..|dir| - 1] + ["lib", "x.json"]
  {
    DirOf(dir + [name], "default.json");
    assert dir + [name] + ["default.json"] == dir + [name, "default.json"];
    UpTwice(dir + [name], ["..", "..", "lib", "x.json"], ["lib", "x.json"]);
  }

  lemma {:induction false} UpTwice(dir: Path, parts: seq<string>, down: Path)
    requires |dir| >= 2 && parts == ["..", ".."] + down && Normal(down)
    ensures Resolve(dir, parts) == dir[..|dir| - 2] + down
  {
    assert Ups(2) == [".."] + Ups(1) == ["..", ".."] + Ups(0);
    ResolveUps(dir, 2, down);
    ResolveDown(dir[..|dir| - 2], down);
  }

  lemma {:induction false} UpFromSource(source: Path, parent: Path, rest: Path, up: nat, down: Path)
    requires |parent| + 1 == |source| && parent == source[..|parent|] && rest != []
    ensures up < |rest| ==> source <= Above(source + Dir(rest), up) + down
    ensures up >= |rest| ==> Above(source + Dir(rest), up) + down == Above(parent, up - |rest|) + down
  {
    var top := Above(source + Dir(rest), up);
    if up < |rest| {
      assert top == source + Dir(rest)[..|rest| - 1 - up];
    } else {
      assert top == Above(parent, up - |rest|);
    }
  }

  // ----- what is lost

  /** A workload file's own text is lost if an earlier visited file refers to a file that is mirrored onto it. */
  lemma {:induction false} OverwrittenByReference(site: Site, t: State, visits: seq<Path>, met: map<Path, nat>,
                                                  j: nat, k: nat, e: Path)
    requires Tracked(site, t, visits, |visits|, met) && j < k < |visits|
    requires visits[j] in met ==> met[visits[j]] >= j
    requires forall i :: 0 <= i < |visits| && i != k ==> visits[i] != visits[k]
    requires visits[j] in site.visited && site.output <= visits[j]
    requires site.Refers(site.SourceOf(visits[j]), site.visited[visits[j]].refs, e) && e in site.files && Normal(e)
    requires site.Mirror(e) == visits[k]
    ensures t.CopyAt(visits[k]) == Some(e) && t.out[visits[k]].text == site.convert(site.files[e].text)
  {
    assert InTime(site, t, visits, met, j);
    var o := visits[k];
    hide Site.Refers, Site.SourceOf, Site.Followed, Site.Mirror;
    assert o in met && met[o] <= j;
    CopyIsOf(site, t, visits, met, e, o);
  }

  lemma {:induction false} CopyIsOf(site: Site, t: State, visits: seq<Path>, met: map<Path, nat>, e: Path, o: Path)
    requires Tracked(site, t, visits, |visits|, met) && Normal(e) && site.Followed(e) && site.Mirror(e) == o && o in met
    ensures t.written[o] == e
    ensures !OwnVisit(visits, met, o) ==>
              t.CopyAt(o) == Some(e) && o in t.out && t.out[o].text == site.convert(site.files[e].text)
  {
    hide InTime;
    MirrorInjective(site, e, t.written[o]);
  }

  const SHARED := ["w", "operations", "default.json"]
  const OWN := ["out", "operations", "default.json"]
  const MAIN := ["out", "workload.json"]

  /** A workload that collects the shared operations beside operations of its own with the same name. */
  function TwoOperations(main: string, own: File, shared: File, convert: string -> string): Site {
    Site(["w", "geonames"], ["out"], map[SHARED := shared],
         map[MAIN := File(main, [["..", "operations", "default.json"]]), OWN := own], convert)
  }

  /** Its own operations are lost: in their place is the conversion of the shared ones. */
  lemma {:induction false} OwnOperationsAreLost(main: string, own: File, shared: File, convert: string -> string,
                                                t: State, met: map<Path, nat>)
    ensures var site := TwoOperations(main, own, shared, convert);
            && site.Valid() && !site.Clear(site.visited.Keys)
            && (Tracked(site, t, [MAIN, OWN], 2, met) ==> OWN in t.out && t.out[OWN].text == convert(shared.text))
  {
    var site := TwoOperations(main, own, shared, convert);
    SharedPlace(site);
    MainRefersToShared(site);
    hide Site.Refers, Site.Mirror, Site.Followed, Site.Target, Site.SourceOf, Site.Reached, Site.Valid, Resolve,
      Tracked, Normal;
    RootIsReached(site, MAIN, SHARED);
    if Tracked(site, t, [MAIN, OWN], 2, met) {
      SharedOverwrites(site, t, met);
    }
  }

  lemma {:induction false} SharedOverwrites(site: Site, t: State, met: map<Path, nat>)
    requires Tracked(site, t, [MAIN, OWN], 2, met) && MAIN in site.visited && site.output <= MAIN
             && SHARED in site.files
    requires site.Refers(site.SourceOf(MAIN), site.visited[MAIN].refs, SHARED) && Normal(SHARED)
             && site.Mirror(SHARED) == OWN
    ensures OWN in t.out && t.out[OWN].text == site.convert(site.files[SHARED].text)
  {
    hide Site.Refers, Site.Mirror, Site.SourceOf, Tracked, Normal;
    var visits := [MAIN, OWN];
    assert |visits[0]| == 2 && |visits[1]| == 3;
    OverwrittenByReference(site, t, visits, met, 0, 1, SHARED);
    TrackedIsThere(site, t, visits, 2, met, 1);
  }

  lemma {:induction false} TrackedIsThere(site: Site, t: State, visits: seq<Path>, k: nat, met: map<Path, nat>, j: nat)
    requires Tracked(site, t, visits, k, met) && j < |visits|
    ensures visits[j] in t.out
  {
  }

  lemma {:induction false} MainRefersToShared(site: Site)
    requires site.source == ["w", "geonames"] && site.output == ["out"] && site.visited.Keys <= {MAIN, OWN}
    requires MAIN in site.visited && site.visited[MAIN].refs == [["..", "operations", "default.json"]]
    ensures site.output <= MAIN && site.Refers(site.SourceOf(MAIN), site.visited[MAIN].refs, SHARED)
  {
    SharedPlace(site);
    hide Site.Mirror, Site.Followed;
    var ref := site.visited[MAIN].refs[0];
    assert site.SourceOf(MAIN) == ["w", "geonames", "workload.json"];
    assert Dir(site.SourceOf(MAIN)) == ["w", "geonames"] && Dir(["w", "geonames"]) == ["w"];
    ResolveDown(["w"], ["operations", "default.json"]);
    assert ref[1..] == ["operations", "default.json"];
    assert Resolve(["w", "geonames"], ref) == Resolve(["w"], ref[1..]);
  }

  lemma {:induction false} SharedPlace(site: Site)
    requires site.source == ["w", "geonames"] && site.output == ["out"] && site.visited.Keys <= {MAIN, OWN}
    ensures site.Valid() && Normal(SHARED) && site.Followed(SHARED) && site.Mirror(SHARED) == OWN
  {
    assert site.Parent() == ["w"];
    assert SHARED[1..] == ["operations", "default.json"];
    assert "operations"[0] != ".."[0];
    MirrorKeepsThePlace(site, SHARED);
  }

  const SHARED_TEXT := ["w", "common", "settings.txt"]
  const OWN_TEXT := ["out", "common", "settings.txt"]

  /** A workload that collects shared settings. Settings of its own with the same name, which are no JSON, are among the
      output files but are not visited. */
  function TwoSettings(main: string, shared: File, convert: string -> string): Site {
    Site(["w", "geonames"], ["out"], map[SHARED_TEXT := shared],
         map[MAIN := File(main, [["..", "common", "settings.txt"]])], convert)
  }

  /** No copy is mirrored onto a visited file, and its own settings are lost. */
  lemma {:induction false} OwnSettingsAreLost(main: string, shared: File, convert: string -> string,
                                              t: State, met: map<Path, nat>)
    ensures var site := TwoSettings(main, shared, convert);
            && site.Valid() && site.Clear({MAIN}) && !site.Clear({MAIN, OWN_TEXT})
            && (Tracked(site, t, [MAIN], 1, met) ==> OWN_TEXT in t.out && t.out[OWN_TEXT].text == convert(shared.text))
  {
    var site := TwoSettings(main, shared, convert);
    SettingsPlace(site);
    MainRefersToSettings(site);
    hide Site.Refers, Site.Mirror, Site.Followed, Site.Target, Site.SourceOf, Site.Reached, Site.Valid, Resolve, Normal,
      Tracked;
    assert MAIN != OWN_TEXT by {
      assert |MAIN| == 2 && |OWN_TEXT| == 3;
    }
    RootIsReached(site, MAIN, SHARED_TEXT);
    if Tracked(site, t, [MAIN], 1, met) {
      SettingsOverwrite(site, t, met);
    }
  }

  lemma {:induction false} SettingsOverwrite(site: Site, t: State, met: map<Path, nat>)
    requires Tracked(site, t, [MAIN], 1, met) && MAIN in site.visited && site.output <= MAIN
             && SHARED_TEXT in site.files && Normal(SHARED_TEXT) && site.Mirror(SHARED_TEXT) == OWN_TEXT
    requires site.Refers(site.SourceOf(MAIN), site.visited[MAIN].refs, SHARED_TEXT) && MAIN != OWN_TEXT
    ensures OWN_TEXT in t.out && t.out[OWN_TEXT].text == site.convert(site.files[SHARED_TEXT].text)
  {
    hide Site.Mirror, Site.SourceOf, Site.Followed, Site.Target, Good, Holds, CopiesTold, Untouched, Normal;
    assert InTime(site, t, [MAIN], met, 0);
    assert site.Followed(SHARED_TEXT) && OWN_TEXT in met;
    CopyIsOf(site, t, [MAIN], met, SHARED_TEXT, OWN_TEXT);
  }

  lemma {:induction false} SettingsPlace(site: Site)
    requires site.source == ["w", "geonames"] && site.output == ["out"] && site.visited.Keys == {MAIN}
    ensures site.Valid() && Normal(SHARED_TEXT) && site.Followed(SHARED_TEXT) && site.Mirror(SHARED_TEXT) == OWN_TEXT
  {
    assert site.Parent() == ["w"];
    assert SHARED_TEXT[1..] == ["common", "settings.txt"];
    assert "common"[0] != ".."[0];
    MirrorKeepsThePlace(site, SHARED_TEXT);
  }

  lemma {:induction false} MainRefersToSettings(site: Site)
    requires site.source == ["w", "geonames"] && site.output == ["out"] && site.visited.Keys == {MAIN}
    requires site.visited[MAIN].refs == [["..", "common", "settings.txt"]]
    ensures site.output <= MAIN && site.Refers(site.SourceOf(MAIN), site.visited[MAIN].refs, SHARED_TEXT)
  {
    SettingsPlace(site);
    hide Site.Mirror, Site.Followed;
    var ref := site.visited[MAIN].refs[0];
    assert site.SourceOf(MAIN) == ["w", "geonames", "workload.json"];
    assert Dir(site.SourceOf(MAIN)) == ["w", "geonames"] && Dir(["w", "geonames"]) == ["w"];
    ResolveDown(["w"], ["common", "settings.txt"]);
    assert ref[1..] == ["common", "settings.txt"];
    assert Resolve(["w", "geonames"], ref) == Resolve(["w"], ref[1..]);
  }

  /** Operations that extend the shared ones of the same name, and no other file. */
  function OneOperations(own: string, shared: File, convert: string -> string): Site {
    Site(["w", "geonames"], ["out"], map[SHARED := shared],
         map[OWN := File(own, [["..", "..", "operations", "default.json"]])], convert)
  }

  /** Here it is the other way round: the operations keep their text, and it is the copy of the shared ones that is
      lost. */
  lemma {:induction false} SharedOperationsAreLost(own: string, shared: File, convert: string -> string,
                                                   t: State, met: map<Path, nat>)
    ensures var site := OneOperations(own, shared, convert);
            && site.Valid() && !site.Clear(site.visited.Keys)
            && (Tracked(site, t, [OWN], 1, met) ==>
                  SHARED in t.log && site.Mirror(SHARED) == OWN && OWN in t.out && t.out[OWN].text == own)
  {
    var site := OneOperations(own, shared, convert);
    SharedPlace(site);
    OwnRefersToShared(site);
    hide Site.Refers, Site.Mirror, Site.Followed, Site.Target, Resolve, Normal, Holds;
    RootIsReached(site, OWN, SHARED);
    if Tracked(site, t, [OWN], 1, met) {
      LostExactlyWhen(site, t, [OWN], met, 0);
      assert InTime(site, t, [OWN], met, 0);
      assert t.Seen(SHARED);
      TrackedIsThere(site, t, [OWN], 1, met, 0);
    }
  }

  lemma {:induction false} DirOf(dir: Path, name: string)
    ensures Dir(dir + [name]) == dir
  {
  }

  lemma {:induction false} OwnRefersToShared(site: Site)
    requires site.source == ["w", "geonames"] && site.output == ["out"] && site.visited.Keys <= {MAIN, OWN}
    requires OWN in site.visited && site.visited[OWN].refs == [["..", "..", "operations", "default.json"]]
    ensures site.output <= OWN && site.Refers(site.SourceOf(OWN), site.visited[OWN].refs, SHARED)
  {
    SharedPlace(site);
    hide Site.Mirror, Site.Followed, Resolve;
    var ref, dir := site.visited[OWN].refs[0], ["w", "geonames", "operations"];
    assert site.SourceOf(OWN) == dir + ["default.json"];
    DirOf(dir, "default.json");
    UpTwice(dir, ref, ["operations", "default.json"]);
    assert dir[..1] + ["operations", "default.json"] == SHARED;
  }

  // ----- the program

  class Collector {
    const site: Site
    var out: map<Path, File>
    var converted: set<Path>
    var issues: seq<Path>
    ghost var log: seq<Path>
    ghost var todo: set<Path>
    ghost var written: map<Path, Path>
    ghost var copies: map<Path, Path>

    ghost function Now(): State
      reads this
    {
      State(out, converted, issues, log, todo, written, copies)
    }

    constructor (site: Site, out: map<Path, File>)
      requires site.Valid()
      ensures this.site == site && Now() == State(out, {}, [], [], site.files.Keys, map[], map[])
      ensures Good(site, Now())
    {
      this.site, this.out := site, out;
      converted, issues := {}, [];
      log, todo, written, copies := [], site.files.Keys, map[], map[];
    }

    /** Convert an external file to its mirrored place, once; the result is that place. */
    method EnsureExternal(ext: Path) returns (dst: Option<Path>)
      requires Good(site, Now()) && Holds(site, Now()) && Normal(ext) && !site.Inside(ext)
      modifies this
      ensures Good(site, Now()) && Holds(site, Now())
      ensures Extends(site, old(Now()), Now(), {}) && HandsOver(old(Now()), Now(), None)
      ensures AllReached(site, old(Now())) && (site.Followed(ext) ==> site.Reached(ext)) ==> AllReached(site, Now())
      ensures dst.None? <==> !site.Mirrorable(ext) || (ext !in site.files && site.Mirror(ext) !in old(converted))
      ensures dst.None? ==> log == old(log)
      ensures dst.Some? ==> dst.value == site.Mirror(ext)
      ensures site.Followed(ext) ==> Now().Seen(ext)
      ensures dst.None? && site.Mirrorable(ext) ==> ext in issues
      decreases |todo|, 0
    {
      hide Good, Holds, HandsOver, Extends, Site.Reached, Paths.RelPath;
      ghost var s := Now();
      GoodIsValid(site, s);
      ExtendsReflexive(site, s);
      HandsOverItself(s);
      if !site.Mirrorable(ext) {
        return None;
      }
      var place := site.Mirror(ext);
      if place in converted {
        ConvertedIsSeen(site, s, ext);
        return Some(place);
      }
      if ext !in site.files {
        ReportedIsGood(site, s, ext);
        converted, issues := converted + {place}, issues + [ext];
        assert Now() == Reported(site, s, ext);
        SameHands(site, s, Now());
        return None;
      }
      RegisteredIsGood(site, s, ext);
      RegisteredHandsOver(site, s, ext);
      RegisteredPlaceIsNew(site, s, ext);
      converted := converted + {place};
      log, todo, written := log + [ext], todo - {ext}, written[place := ext];
      out := out[place := ConvertedFile(site, site.files[ext])];
      copies := copies[place := ext];
      ghost var r := Now();
      assert r == Registered(site, s, ext);
      if site.Reached(ext) {
        ReferredIsReached(site, ext, out[place].refs);
      }
      ProcessOneFile(place, ext);
      RegisteredThenProcessed(site, s, ext, Now());
      RegisteredIsSeen(site, s, Now(), ext);
      HandsOverThrough(s, r, Now(), place);
      return Some(place);
    }

    /** Rewrite the references of an output file. If a copy is written over the file meanwhile, it is the copy that is
        lost. */
    method ProcessOneFile(o: Path, src: Path)
      requires Good(site, Now()) && Holds(site, Now()) && Normal(src) && o in out
      requires o in written || (o in site.visited && src == site.SourceOf(o))
      modifies this
      ensures Good(site, Now()) && Holds(site, Now())
      ensures Grows(old(Now()), Now()) && Keeps(old(Now()), Now(), {o}) && HandsOver(old(Now()), Now(), Some(o))
      ensures Covered(site, Now(), src, old(out[o]).refs)
      ensures o in old(written) || o !in written ==>
                Extends(site, old(Now()), Now(), {o}) && Settled(site, Now(), o, src, old(out[o]))
      ensures AllReached(site, old(Now())) && AllRefsReached(site, src, old(out[o]).refs) ==>
                AllReached(site, Now())
      decreases |todo|, 1
    {
      hide Good, Holds, HandsOver, Extends, Settled, RefsDone, WrittenBack, Covered, Grows, Keeps, AllReached,
        AllRefsReached, Site.Reached, Site.Mirror, Site.Mirrorable;
      var content := out[o];
      var refs := [];
      ghost var s := Now();
      GoodIsValid(site, s);
      NoRefDone(site, s, o, src, content.refs);
      for i := 0 to |content.refs|
        invariant RefsDone(site, s, Now(), o, src, content.refs, refs, i) && |todo| <= |s.todo|
      {
        var parts := content.refs[i];
        var ext := site.Target(src, parts);
        ghost var t, before := Now(), refs;
        AboutRefsDone(site, s, t, o, src, content.refs, refs, i);
        ResolveIsNormal(Dir(src), parts);
        if site.Inside(ext) {
          refs := refs + [parts];
          ExtendsReflexive(site, t);
          HandsOverItself(t);
        } else {
          var dst := EnsureExternal(ext);
          refs := refs + [if dst.None? then parts else RelPath(dst.value, Dir(o))];
          if dst.Some? && o !in s.written {
            SourceIsNormal(site, o);
            RewrittenDiffers(site, o, parts);
          }
        }
        NextRef(site, s, t, Now(), o, src, content.refs, before, i, refs[|before|]);
      }
      ghost var t := Now();
      AllRefsDone(site, s, t, o, src, refs);
      if refs != content.refs {
        out := out[o := File(content.text, refs)];
        copies := if o in s.copies then copies[o := s.copies[o]] else copies - {o};
        WriteBackIs(s, t, Now(), o, refs);
      }
    }

    /** The references of all visited output files, and of all files they lead to. Nothing is lost exactly if no reached
        file that exists is mirrored onto an output file there was before, visited or not. If none is mirrored onto a
        visited one, every reached file that exists is converted once, every reached file that does not is reported
        once, and all references are settled. */
    method FollowAll(visits: seq<Path>) returns (ghost met: map<Path, nat>)
      requires Ready(site, Now(), visits)
      modifies this
      ensures Tracked(site, Now(), visits, |visits|, met) && Keeps(old(Now()), Now(), site.visited.Keys)
      ensures NothingLost(site, Now(), old(out).Keys) <==> site.Clear(old(out).Keys)
      ensures NothingLost(site, Now(), site.visited.Keys) <==> site.Clear(site.visited.Keys)
      ensures site.Clear(site.visited.Keys) ==>
                && (forall e :: e in log <==> site.Reached(e) && e in site.files)
                && (forall e :: e in issues <==> site.Reached(e) && e !in site.files)
                && (forall o :: o in site.visited ==> VisitDone(site, Now(), o))
                && (forall e :: e in log ==> Done(site, Now(), e))
    {
      hide Ready, Good, Holds, Tracked, Walked, Grows, Keeps, HandsOver, Extends, Settled, Covered, AllReached,
        Unclashed, Site.Clear, NothingLost;
      ghost var s := Now();
      met := map[];
      WalkedStarts(site, s, visits);
      for k := 0 to |visits|
        invariant Walked(site, s, Now(), visits, k, met)
      {
        var o := visits[k];
        ghost var t := Now();
        VisitIsReady(site, s, t, visits, k, met);
        ProcessOneFile(o, site.SourceOf(o));
        WalkedStep(site, s, t, Now(), visits, k, met);
        met := MetBy(met, written, k);
      }
      WalkedEnds(site, s, Now(), visits, met);
      WalkedIsTracked(site, s, Now(), visits, met);
    }
  }
}
