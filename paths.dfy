/** The two `os.path` operations the pipeline uses, with POSIX semantics. */
module Paths {
  import Sequences

  /** `os.path.join(a, b)`: an absolute `b` replaces `a`; otherwise a `/` is
      inserted unless `a` is empty or already ends in one. */
  function Join(a: string, b: string): (r: string)
    ensures b != "" && b[0] == '/' ==> r == b
  {
    if b != "" && b[0] == '/' then b
    else if a == "" || a[|a| - 1] == '/' then a + b
    else a + "/" + b
  }

  /** `os.path.basename(p)`: everything after the last `/` of `p`. */
  function Basename(p: string): (r: string)
    ensures '/' !in r
    ensures |r| <= |p| && r == p[|p| - |r|..]
    ensures |r| < |p| ==> p[|p| - |r| - 1] == '/'
    ensures '/' !in p ==> r == p
  {
    if p == "" || p[|p| - 1] == '/' then ""
    else Basename(p[..|p| - 1]) + [p[|p| - 1]]
  }

  /** Appending a name without a slash extends the basename by that name. */
  lemma {:induction false} BasenameAppend(p: string, name: string)
    requires '/' !in name
    ensures Basename(p + name) == Basename(p) + name
  {
    if name != "" {
      var init, last := name[..|name| - 1], name[|name| - 1];
      Sequences.DropLastOfAppend(p, name);
      assert '/' !in init by {
        Sequences.TakeStep(name, |name| - 1);
        Sequences.TakeAll(name);
      }
      BasenameAppend(p, init);
      Sequences.AppendAssoc(Basename(p), init, [last]);
      Sequences.TakeStep(name, |name| - 1);
      Sequences.TakeAll(name);
    } else {
      Sequences.AppendEmpty(p);
      Sequences.AppendEmpty(Basename(p));
    }
  }

  /** After an empty prefix or one ending in `/`, the basename is the name. */
  lemma BasenameAfterSeparator(prefix: string, name: string)
    requires prefix == "" || prefix[|prefix| - 1] == '/'
    requires '/' !in name
    ensures Basename(prefix + name) == name
  {
    assert Basename(prefix) == "";
    BasenameAppend(prefix, name);
    assert "" + name == name;
  }

  /** The basename of a directory joined with a plain file name is that name. */
  lemma BasenameOfJoin(dir: string, name: string)
    requires '/' !in name
    ensures Basename(Join(dir, name)) == name
  {
    var prefix := if dir == "" || dir[|dir| - 1] == '/' then dir else dir + "/";
    assert name == "" || name[0] != '/';
    assert Join(dir, name) == prefix + name;
    BasenameAfterSeparator(prefix, name);
  }
}
