/** Absolute and relative paths as lists of components: what os.path.normpath, join and relpath do with them. */
module Paths {

  /** An absolute path; normal if it is one that os.path.abspath returns. */
  type Path = seq<string>

  ghost predicate NormalName(c: string) {
    c != "" && c != "." && c != ".."
  }

  ghost predicate Normal(path: Path) {
    forall i :: 0 <= i < |path| ==> NormalName(path[i])
  }

  function Dir(path: Path): Path {
    if path == [] then [] else path[..|path| - 1]
  }

  /** Where a relative path leads from a directory: normpath of the two joined. */
  function Resolve(dir: Path, parts: seq<string>): Path
    decreases |parts|
  {
    if parts == [] then dir
    else if parts[0] == "" || parts[0] == "." then Resolve(dir, parts[1..])
    else if parts[0] == ".." then Resolve(Dir(dir), parts[1..])
    else Resolve(dir + [parts[0]], parts[1..])
  }

  function Common(a: Path, b: Path): (k: nat)
    ensures k <= |a| && k <= |b| && a[..k] == b[..k]
  {
    if a == [] || b == [] || a[0] != b[0] then 0 else 1 + Common(a[1..], b[1..])
  }

  function Ups(n: nat): seq<string> {
    if n == 0 then [] else [".."] + Ups(n - 1)
  }

  /** os.path.relpath(target, dir) */
  function RelPath(target: Path, dir: Path): (parts: seq<string>)
    ensures parts != []
  {
    var k := Common(target, dir);
    var parts := Ups(|dir| - k) + target[k..];
    if parts == [] then ["."] else parts
  }

  lemma {:induction false} ResolveUps(dir: Path, n: nat, parts: seq<string>)
    requires n <= |dir|
    ensures Resolve(dir, Ups(n) + parts) == Resolve(dir[..|dir| - n], parts)
    decreases n
  {
    if n == 0 {
      assert dir[..|dir|] == dir && Ups(0) + parts == parts;
    } else {
      assert (Ups(n) + parts)[1..] == Ups(n - 1) + parts;
      ResolveUps(Dir(dir), n - 1, parts);
      assert Dir(dir)[..|dir| - 1 - (n - 1)] == dir[..|dir| - n];
    }
  }

  lemma {:induction false} ResolveDown(dir: Path, names: Path)
    requires Normal(names)
    ensures Resolve(dir, names) == dir + names
    decreases |names|
  {
    if names == [] {
      assert dir + names == dir;
    } else {
      assert NormalName(names[0]);
      assert Normal(names[1..]);
      ResolveDown(dir + [names[0]], names[1..]);
      assert dir + [names[0]] + names[1..] == dir + names;
    }
  }

  /** A relative path leads to its target. */
  lemma {:induction false} RelPathLeadsThere(target: Path, dir: Path)
    requires Normal(target)
    ensures Resolve(dir, RelPath(target, dir)) == target
  {
    var k := Common(target, dir);
    var down := target[k..];
    assert Normal(down);
    ResolveUps(dir, |dir| - k, down);
    ResolveDown(dir[..k], down);
    assert dir[..|dir| - (|dir| - k)] == dir[..k] && dir[..k] + down == target;
    var parts := Ups(|dir| - k) + down;
    if parts == [] {
      assert Resolve(dir, ["."]) == Resolve(dir, []);
    }
  }

  lemma {:induction false} ResolveIsNormal(dir: Path, parts: seq<string>)
    requires Normal(dir)
    ensures Normal(Resolve(dir, parts))
    decreases |parts|
  {
    if parts != [] {
      if parts[0] == "" || parts[0] == "." {
        ResolveIsNormal(dir, parts[1..]);
      } else if parts[0] == ".." {
        ResolveIsNormal(Dir(dir), parts[1..]);
      } else {
        ResolveIsNormal(dir + [parts[0]], parts[1..]);
      }
    }
  }

  lemma {:induction false} CommonOfPrefix(prefix: Path, path: Path)
    requires prefix <= path
    ensures Common(path, prefix) == |prefix|
  {
    if prefix != [] {
      assert prefix[1..] <= path[1..];
      CommonOfPrefix(prefix[1..], path[1..]);
    }
  }

  /** The relative path has no step up exactly when the target lies under the directory. */
  lemma {:induction false} RelPathDown(target: Path, dir: Path)
    requires Normal(target)
    ensures dir <= target ==> RelPath(target, dir) == if target == dir then ["."] else target[|dir|..]
    ensures !(dir <= target) ==> RelPath(target, dir)[0] == ".."
  {
    var k := Common(target, dir);
    if dir <= target {
      CommonOfPrefix(dir, target);
    } else {
      assert k < |dir| by {
        assert dir[..|dir|] == dir;
      }
      assert Ups(|dir| - k)[0] == "..";
    }
  }

  // ----- what a relative path does to any directory

  function Walk(dir: Path, c: string): Path {
    if c == "" || c == "." then dir else if c == ".." then Dir(dir) else dir + [c]
  }

  /** The steps up that a relative path makes in all, and what it then adds. */
  function Net(parts: seq<string>): (nat, Path) {
    if parts == [] then (0, [])
    else
      var (up, down) := Net(parts[..|parts| - 1]);
      var c := parts[|parts| - 1];
      if c == ".." && down == [] then (up + 1, []) else (up, Walk(down, c))
  }

  /** A directory some levels up; there is nothing above the root. */
  function Above(dir: Path, up: nat): Path {
    if up > |dir| then [] else dir[..|dir| - up]
  }

  lemma {:induction false} ResolveStepwise(dir: Path, parts: seq<string>, c: string)
    ensures Resolve(dir, parts + [c]) == Walk(Resolve(dir, parts), c)
    decreases |parts|
  {
    if parts == [] {
      assert ([] + [c])[1..] == [] && ([] + [c])[0] == c;
    } else {
      assert (parts + [c])[1..] == parts[1..] + [c];
      ResolveStepwise(Walk(dir, parts[0]), parts[1..], c);
    }
  }

  lemma {:induction false} ResolveIsNet(dir: Path, parts: seq<string>)
    ensures Resolve(dir, parts) == Above(dir, Net(parts).0) + Net(parts).1
  {
    if parts == [] {
      assert Above(dir, 0) + [] == dir;
    } else {
      var n := |parts| - 1;
      var (up, down) := Net(parts[..n]);
      ResolveIsNet(dir, parts[..n]);
      ResolveStepwise(dir, parts[..n], parts[n]);
      assert parts == parts[..n] + [parts[n]];
      WalkNet(Above(dir, up), down, parts[n]);
      assert Dir(Above(dir, up)) == Above(dir, up + 1);
      assert Above(dir, up + 1) + [] == Above(dir, up + 1) && Above(dir, up) + [] == Above(dir, up);
    }
  }

  lemma {:induction false} WalkNet(base: Path, down: Path, c: string)
    ensures c != ".." || down != [] ==> Walk(base + down, c) == base + Walk(down, c)
  {
  }
}
