/** The two `os.path` operations the replication script uses, for POSIX paths. */
module PosixPath {
  /** Index just past the last '/' of `p`, or 0 when `p` has none. */
  function BaseStart(p: string): (i: nat)
    ensures i <= |p|
    ensures i > 0 ==> p[i - 1] == '/'
    ensures forall j :: i <= j < |p| ==> p[j] != '/'
  {
    if p == [] then 0
    else if p[|p| - 1] == '/' then |p|
    else BaseStart(p[..|p| - 1])
  }

  /** `os.path.basename(p)`: everything after the last '/'. */
  function Basename(p: string): string
  {
    p[BaseStart(p)..]
  }

  /**
   * The base name is the last component: a suffix of the path with no '/' in
   * it, preceded by a '/' unless it is the whole path.
   */
  lemma BasenameIsLastComponent(p: string)
    ensures var b := Basename(p);
      && '/' !in b
      && |b| <= |p| && b == p[|p| - |b|..]
      && (|b| < |p| ==> p[|p| - |b| - 1] == '/')
  {
  }

  /** `os.path.join(a, b)`: an absolute `b` wins; otherwise one '/' separates the parts. */
  function Join(a: string, b: string): string
  {
    if |b| > 0 && b[0] == '/' then b
    else if a == [] || a[|a| - 1] == '/' then a + b
    else a + "/" + b
  }

  /** The base name of a path that ends in a slash-free name after a '/' (or that is that name). */
  lemma BasenameAfterSlash(dir: string, name: string)
    requires dir == [] || dir[|dir| - 1] == '/'
    requires '/' !in name
    ensures Basename(dir + name) == name
  {
    var p := dir + name;
    var i := BaseStart(p);
    if |dir| > 0 {
      assert p[|dir| - 1] == '/';
    }
    assert forall k :: |dir| <= k < |p| ==> p[k] == name[k - |dir|];
    assert i == |dir|;
    assert p[|dir|..] == name;
  }

  /** Joining a directory with a slash-free file name and taking the base name gives the file name back. */
  lemma BasenameOfJoin(dir: string, name: string)
    requires '/' !in name
    ensures Basename(Join(dir, name)) == name
  {
    if |name| > 0 {
      assert name[0] in name;
    }
    if dir == [] || dir[|dir| - 1] == '/' {
      BasenameAfterSlash(dir, name);
    } else {
      assert dir + "/" + name == (dir + "/") + name;
      BasenameAfterSlash(dir + "/", name);
    }
  }

  /** Under a relative (or empty) directory, distinct names join to distinct paths. */
  lemma JoinInjective(dir: string, b1: string, b2: string)
    requires dir == [] || dir[0] != '/'
    ensures Join(dir, b1) == Join(dir, b2) ==> b1 == b2
  {
    var p1, p2 := Join(dir, b1), Join(dir, b2);
    if p1 == p2 {
      var abs1 := |b1| > 0 && b1[0] == '/';
      var abs2 := |b2| > 0 && b2[0] == '/';
      if dir != [] {
        assert |p1| > 0 && (p1[0] == '/' <==> abs1);
        assert |p2| > 0 && (p2[0] == '/' <==> abs2);
      }
      if !abs1 && !abs2 {
        if dir == [] || dir[|dir| - 1] == '/' {
          assert b1 == p1[|dir|..] == p2[|dir|..] == b2;
        } else {
          assert b1 == p1[|dir| + 1..] == p2[|dir| + 1..] == b2;
        }
      }
    }
  }
}
