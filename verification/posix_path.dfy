/** `os.path.join` and `os.path.basename` on POSIX paths. */
module PosixPath {
  import opened PyStr

  /** `os.path.join(a, b)`: an absolute `b` replaces `a`; otherwise `b` is
      appended, with a `/` inserted unless `a` is empty or already ends in one. */
  function PathJoin(a: string, b: string): (p: string)
    ensures EndsWith(p, b)
    ensures StartsWith(b, "/") ==> p == b
    ensures !StartsWith(b, "/") ==> StartsWith(p, a)
  {
    if StartsWith(b, "/") then b
    else if |a| == 0 || EndsWith(a, "/") then a + b
    else a + "/" + b
  }

  /** `os.path.basename(p)`: everything after the last `/`. */
  function Basename(p: string): (r: string)
    ensures '/' !in r
    ensures EndsWith(p, r)
    ensures r == p || p[|p| - |r| - 1] == '/'
  {
    if |p| == 0 || p[|p| - 1] == '/' then ""
    else
      var r := Basename(p[..|p| - 1]) + [p[|p| - 1]];
      assert p[..|p| - 1] + [p[|p| - 1]] == p;
      r
  }

  /** The basename of a slash-free name placed after a prefix that is empty or ends in `/` is that name. */
  lemma {:induction false} BasenameAfterSlash(prefix: string, name: string)
    requires prefix == [] || EndsWith(prefix, "/")
    requires '/' !in name
    ensures Basename(prefix + name) == name
    decreases |name|
  {
    var p := prefix + name;
    if |name| == 0 {
      assert p == prefix;
    } else {
      var init := name[..|name| - 1];
      var c := name[|name| - 1];
      assert c != '/' by { assert c in name; }
      assert '/' !in init by {
        forall i | 0 <= i < |init| ensures init[i] != '/' { assert init[i] in name; }
      }
      assert p[|p| - 1] == c;
      assert p[..|p| - 1] == prefix + init;
      BasenameAfterSlash(prefix, init);
      assert Basename(p) == Basename(prefix + init) + [c];
      assert init + [c] == name;
    }
  }

  /** Joining a slash-free name under any directory and taking the basename gives the name back. */
  lemma BasenameOfJoin(dir: string, name: string)
    requires '/' !in name
    ensures Basename(PathJoin(dir, name)) == name
  {
    if |name| > 0 {
      assert name[0] != '/' by { assert name[0] in name; }
      assert !StartsWith(name, "/");
    }
    if |dir| == 0 || EndsWith(dir, "/") {
      BasenameAfterSlash(dir, name);
    } else {
      assert dir + "/" + name == (dir + "/") + name;
      BasenameAfterSlash(dir + "/", name);
    }
  }

  /** A slash-free suffix of a path is a suffix of its basename. */
  lemma {:induction false} BasenameKeepsSuffix(p: string, suffix: string)
    requires EndsWith(p, suffix)
    requires '/' !in suffix
    ensures EndsWith(Basename(p), suffix)
    decreases |p|
  {
    if |suffix| > 0 {
      assert p[|p| - 1] == suffix[|suffix| - 1];
      assert p[|p| - 1] != '/' by { assert suffix[|suffix| - 1] in suffix; }
      var q := p[..|p| - 1];
      var s := suffix[..|suffix| - 1];
      assert '/' !in s by {
        forall i | 0 <= i < |s| ensures s[i] != '/' { assert s[i] == suffix[i]; assert suffix[i] in suffix; }
      }
      assert q[|q| - |s|..] == p[|p| - |suffix|..|p| - 1];
      BasenameKeepsSuffix(q, s);
      var b := Basename(q);
      assert Basename(p) == b + [p[|p| - 1]];
      assert (b + [p[|p| - 1]])[|b| + 1 - |suffix|..] == b[|b| - |s|..] + [p[|p| - 1]];
      assert s + [suffix[|suffix| - 1]] == suffix;
    }
  }
}
