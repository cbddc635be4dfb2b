/** The file system the core touches, reduced to the set of paths that have been
    created. A directory exists when it, or anything below it, is recorded; the paths
    where creation or deletion fails (permissions, a read-only mount) are fixed when the
    host is built. The same object carries the two facts about the running interpreter
    the core consults: whether the platform is Windows and the path of `sys.executable`. */
module Hosts {
  import opened Outcomes
  import opened Text

  /** `os.path.exists(p)`: `p` is recorded, or something below it is. */
  predicate Present(paths: set<string>, p: string) {
    exists q :: q in paths && Under(q, p)
  }

  /** Everything recorded at or below `p`: what `shutil.rmtree(p)` deletes. */
  function Tree(paths: set<string>, p: string): (t: set<string>)
    ensures t <= paths
    ensures forall q :: q in paths && Under(q, p) ==> q in t
  {
    set q | q in paths && Under(q, p)
  }

  /** The `str()` of the `FileNotFoundError` an operation on a missing path raises. */
  function NotFound(p: string): Error {
    Error(OsFailure, "[Errno 2] No such file or directory: '" + p + "'")
  }

  /** The `str()` of the `PermissionError` an operation on a protected path raises. */
  function Denied(p: string): Error {
    Error(OsFailure, "[Errno 13] Permission denied: '" + p + "'")
  }

  /** A removal leaves nothing at or below the removed path. */
  lemma RemovedTreeAbsent(paths: set<string>, p: string)
    ensures !Present(paths - Tree(paths, p), p)
  {
  }

  /** Deleting one tree and then another from what is left deletes the two trees from
      the start; the second tree can only have shrunk. */
  lemma TreeAfterTree(paths: set<string>, p: string, q: string)
    ensures var rest := paths - Tree(paths, p);
      rest - Tree(rest, q) == paths - Tree(paths, p) - Tree(paths, q) && Tree(rest, q) <= Tree(paths, q)
  {
  }

  /** What lies below a path lies below each directory above that path. */
  lemma UnderTrans(q: string, r: string, p: string)
    requires Under(q, r) && Under(r, p)
    ensures Under(q, p)
  {
    if q != r && r != p {
      var dr := DirPrefix(r);
      var dp := DirPrefix(p);
      assert r[..|dp|] == dp;
      assert |dr| >= |r|;
      assert dr[..|r|] == r;
      assert q[..|dr|] == dr;
      assert q[..|dp|] == r[..|dp|];
    }
  }

  /** When a directory is absent, so is everything below it. */
  lemma AbsentBelow(paths: set<string>, q: string, p: string)
    requires Under(q, p) && !Present(paths, p)
    ensures !Present(paths, q)
  {
    forall x | x in paths && Under(x, q) ensures false {
      UnderTrans(x, q, p);
    }
  }

  class Host {
    var paths: set<string>
    const unwritable: set<string>
    const undeletable: set<string>
    const windows: bool
    const systemPython: string

    constructor (paths0: set<string>, unwritable: set<string>, undeletable: set<string>,
                 windows: bool, systemPython: string)
      ensures paths == paths0 && this.unwritable == unwritable && this.undeletable == undeletable
      ensures this.windows == windows && this.systemPython == systemPython
    {
      paths := paths0;
      this.unwritable := unwritable;
      this.undeletable := undeletable;
      this.windows := windows;
      this.systemPython := systemPython;
    }

    predicate Exists(p: string)
      reads this
    {
      Present(paths, p)
    }

    /** `os.makedirs(p, exist_ok=True)`: an existing directory is left alone; otherwise
        the directory is created, unless `p` is a protected path. */
    method MakeDirs(p: string) returns (r: Result<()>)
      modifies this
      ensures Present(old(paths), p) ==> r.Ok? && paths == old(paths)
      ensures !Present(old(paths), p) && p in unwritable ==> r == Err(Denied(p)) && paths == old(paths)
      ensures !Present(old(paths), p) && p !in unwritable ==> r.Ok? && paths == old(paths) + {p}
      ensures r.Ok? ==> Exists(p)
    {
      if Exists(p) {
        return Ok(());
      }
      if p in unwritable {
        return Err(Denied(p));
      }
      paths := paths + {p};
      assert Under(p, p);
      return Ok(());
    }

    /** Opening `p` for writing: the file is created unless `p` is protected. */
    method CreateFile(p: string) returns (r: Result<()>)
      modifies this
      ensures p in unwritable ==> r == Err(Denied(p)) && paths == old(paths)
      ensures p !in unwritable ==> r.Ok? && paths == old(paths) + {p}
    {
      if p in unwritable {
        return Err(Denied(p));
      }
      paths := paths + {p};
      return Ok(());
    }

    /** Files an external program wrote (a cloned repository, a new interpreter). */
    method Record(ps: set<string>)
      modifies this
      ensures paths == old(paths) + ps
    {
      paths := paths + ps;
    }

    /** `shutil.rmtree(p)`: a missing path raises `FileNotFoundError`; a tree without a
        protected entry goes entirely. Otherwise the walk raises `PermissionError` at a
        protected entry, having deleted some of the others first: which ones depends on
        the order the directories are listed in, which the model leaves open, so it
        promises only that the protected entries and everything outside the tree stay. */
    method RemoveTree(p: string) returns (r: Result<()>)
      modifies this
      ensures !Present(old(paths), p) ==> r == Err(NotFound(p)) && paths == old(paths)
      ensures Present(old(paths), p) && Tree(old(paths), p) * undeletable == {} ==>
                r.Ok? && paths == old(paths) - Tree(old(paths), p)
      ensures Present(old(paths), p) && Tree(old(paths), p) * undeletable != {} ==>
                (exists q :: q in Tree(old(paths), p) && q in undeletable && r == Err(Denied(q)))
                && old(paths) - Tree(old(paths), p) + Tree(old(paths), p) * undeletable <= paths <= old(paths)
      ensures r.Ok? ==> !Exists(p)
    {
      if !Exists(p) {
        return Err(NotFound(p));
      }
      var blocked := Tree(paths, p) * undeletable;
      if blocked != {} {
        var q :| q in blocked;
        paths := paths - (Tree(paths, p) - undeletable);
        return Err(Denied(q));
      }
      RemovedTreeAbsent(paths, p);
      paths := paths - Tree(paths, p);
      return Ok(());
    }

    /** `os.unlink(p)`: only the file itself is deleted. */
    method Unlink(p: string) returns (r: Result<()>)
      modifies this
      ensures p !in old(paths) ==> r == Err(NotFound(p)) && paths == old(paths)
      ensures p in old(paths) && p in undeletable ==> r == Err(Denied(p)) && paths == old(paths)
      ensures p in old(paths) && p !in undeletable ==> r == Ok(()) && paths == old(paths) - {p}
    {
      if p !in paths {
        return Err(NotFound(p));
      }
      if p in undeletable {
        return Err(Denied(p));
      }
      paths := paths - {p};
      return Ok(());
    }
  }
}
