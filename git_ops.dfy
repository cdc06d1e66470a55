/**
 * `apply_fix_to_repo` of backend/app/git_ops.py: resolve and contain the target
 * path, create or reuse the fix branch, check it out, write the file, stage it
 * and commit.
 *
 * Paths are sequences of components; `Path.resolve` is modelled as lexical
 * normalisation (symbolic links are not followed).  The repository is a class
 * whose fields are the branch heads, the checked-out branch, the working-tree
 * files, the staged paths and the commit log.  Whether `repo_path` is a
 * directory and the exceptions GitPython or the file system raise are arguments.
 */
module GitOps {
  import opened Text

  type PathName = seq<string>

  /** The directory reached after one more component. */
  function Step(dir: PathName, comp: string): PathName
  {
    if comp == "" || comp == "." then dir
    else if comp == ".." then (if |dir| > 0 then dir[..|dir| - 1] else dir)
    else dir + [comp]
  }

  /** Reads `rest` character by character; `comp` is the component read so far. */
  function Walk(dir: PathName, comp: string, rest: string): PathName
    decreases |rest|
  {
    if |rest| == 0 then Step(dir, comp)
    else if rest[0] == '/' then Walk(Step(dir, comp), "", rest[1..])
    else Walk(dir, comp + [rest[0]], rest[1..])
  }

  /** `(base / p).resolve()`: an absolute `p` starts again from the root. */
  function Resolve(base: PathName, p: string): PathName
  {
    if |p| > 0 && p[0] == '/' then Walk([], "", p[1..]) else Walk(base, "", p)
  }

  /** A resolved path: no empty, "." or ".." component. */
  predicate Normal(p: PathName)
  {
    forall i :: 0 <= i < |p| ==> p[i] != "" && p[i] != "." && p[i] != ".."
  }

  lemma {:induction false} WalkNormal(dir: PathName, comp: string, rest: string)
    requires Normal(dir)
    ensures Normal(Walk(dir, comp, rest))
    decreases |rest|
  {
    if |rest| == 0 {
    } else if rest[0] == '/' {
      WalkNormal(Step(dir, comp), "", rest[1..]);
    } else {
      WalkNormal(dir, comp + [rest[0]], rest[1..]);
    }
  }

  /** Resolution yields a normal path. */
  lemma ResolveNormal(base: PathName, p: string)
    requires Normal(base)
    ensures Normal(Resolve(base, p))
  {
    if |p| > 0 && p[0] == '/' {
      WalkNormal([], "", p[1..]);
    } else {
      WalkNormal(base, "", p);
    }
  }

  /** `Path.parents`: every proper ancestor, down to the root. */
  function Parents(p: PathName): set<PathName>
  {
    set k | 0 <= k < |p| :: p[..k]
  }

  /** The containment test: the target is the repository directory or lies under it. */
  predicate Inside(repoDir: PathName, target: PathName)
  {
    repoDir in Parents(target) || repoDir == target
  }

  /** Containment is exactly being a component-wise prefix. */
  lemma InsideIsPrefix(repoDir: PathName, target: PathName)
    ensures Inside(repoDir, target) <==> repoDir <= target
  {
    if repoDir <= target && repoDir != target {
      assert target[..|repoDir|] == repoDir;
      assert repoDir in Parents(target);
    }
  }

  lemma {:induction false} WalkStaysBelow(base: PathName, dir: PathName, comp: string, rest: string)
    requires base <= dir
    requires !Contains(comp + rest, "..")
    ensures base <= Walk(dir, comp, rest)
    decreases |rest|
  {
    if comp == ".." {
      assert OccursAt(comp, "..", 0);
      ContainsSuffixed(comp, rest, "..");
    }
    assert base <= Step(dir, comp);
    if |rest| > 0 {
      if rest[0] == '/' {
        assert comp + [rest[0]] + rest[1..] == comp + rest;
        if Contains(rest[1..], "..") {
          ContainsPrefixed(comp + [rest[0]], rest[1..], "..");
          assert false;
        }
        assert "" + rest[1..] == rest[1..];
        WalkStaysBelow(base, Step(dir, comp), "", rest[1..]);
      } else {
        assert (comp + [rest[0]]) + rest[1..] == comp + rest;
        WalkStaysBelow(base, dir, comp + [rest[0]], rest[1..]);
      }
    }
  }

  /** A relative path that never mentions ".." stays inside the directory it is
      resolved against. */
  lemma RelativeWithoutParentStaysInside(repoDir: PathName, p: string)
    requires !(|p| > 0 && p[0] == '/')
    requires !Contains(p, "..")
    ensures Inside(repoDir, Resolve(repoDir, p))
  {
    assert "" + p == p;
    WalkStaysBelow(repoDir, repoDir, "", p);
    InsideIsPrefix(repoDir, Resolve(repoDir, p));
  }

  /** ".." leaves a non-root directory, so it is caught as traversal. */
  lemma ParentEscapes(repoDir: PathName)
    requires |repoDir| > 0
    ensures Resolve(repoDir, "..") == repoDir[..|repoDir| - 1]
    ensures !Inside(repoDir, Resolve(repoDir, ".."))
  {
    assert ".."[0] == '.' && ".."[1..] == ".";
    assert Walk(repoDir, "", "..") == Walk(repoDir, ".", ".");
    assert "."[1..] == "";
    assert Walk(repoDir, ".", ".") == Walk(repoDir, "..", "");
    InsideIsPrefix(repoDir, Resolve(repoDir, ".."));
  }

  /** An absolute target resolves from the root, ignoring the repository directory. */
  lemma AbsoluteIgnoresBase(a: PathName, b: PathName, p: string)
    requires |p| > 0 && p[0] == '/'
    ensures Resolve(a, p) == Resolve(b, p)
  {
  }

  /** How a resolved path prints, as `str(path)`. */
  function PathText(p: PathName): string
  {
    if |p| == 0 then "/" else "/" + JoinPath(p)
  }

  function JoinPath(p: PathName): string
  {
    if |p| == 0 then "" else if |p| == 1 then p[0] else p[0] + "/" + JoinPath(p[1..])
  }

  function BranchName(bugId: string): (name: string)
    ensures |name| == |"fix/bug-"| + |bugId| && name[|"fix/bug-"|..] == bugId
    ensures name[..|"fix/bug-"|] == "fix/bug-"
  {
    "fix/bug-" + bugId
  }

  /** Different bugs get different branches. */
  lemma BranchNameInjective(a: string, b: string)
    requires BranchName(a) == BranchName(b)
    ensures a == b
  {
    assert a == BranchName(a)[|"fix/bug-"|..];
  }

  function CommitMessage(bugId: string): string
  {
    "fix: applied fix for bug " + bugId
  }

  function NotDirectoryMessage(repoPath: string): string
  {
    "Error: " + repoPath + " is not a valid directory"
  }

  function TraversalMessage(filePath: string): string
  {
    "Error: Path traversal detected in " + filePath
  }

  function SuccessMessage(branch: string): string
  {
    "Success: Fix applied on branch " + branch
  }

  function FailureMessage(e: string): string
  {
    "Error applying fix: " + e
  }

  /** What `open(target, "w")` raises when the target is the directory itself. */
  function IsDirectoryError(target: PathName): string
  {
    "[Errno 21] Is a directory: '" + PathText(target) + "'"
  }

  /** How a caller tells the outcomes apart: an error result starts with "Error". */
  predicate IsErrorResult(s: string)
  {
    |s| >= 5 && s[..5] == "Error"
  }

  /** Every error message starts with "Error" and the success message does not,
      whatever the path, the bug id or the exception text. */
  lemma ErrorPrefixSeparatesOutcomes()
    ensures forall repoPath :: IsErrorResult(NotDirectoryMessage(repoPath))
    ensures forall filePath :: IsErrorResult(TraversalMessage(filePath))
    ensures forall e :: IsErrorResult(FailureMessage(e))
    ensures forall branch :: !IsErrorResult(SuccessMessage(branch))
  {
    forall repoPath: string ensures IsErrorResult(NotDirectoryMessage(repoPath)) {
      assert NotDirectoryMessage(repoPath)[..5] == "Error";
    }
    forall filePath: string ensures IsErrorResult(TraversalMessage(filePath)) {
      assert TraversalMessage(filePath)[..5] == "Error";
    }
    forall e: string ensures IsErrorResult(FailureMessage(e)) {
      assert FailureMessage(e)[..5] == "Error";
    }
    forall branch: string ensures !IsErrorResult(SuccessMessage(branch)) {
      assert SuccessMessage(branch)[0] == 'S';
    }
  }

  datatype Commit = Commit(message: string, parent: nat, paths: set<PathName>)

  /** The exceptions the GitPython and file-system calls raise, by step. */
  datatype Faults = Faults(
    openError: Option<string>,      // git.Repo(repo_path)
    branchError: Option<string>,    // create_head
    checkoutError: Option<string>,  // checkout
    writeError: Option<string>,     // makedirs / open / write
    addError: Option<string>,       // index.add
    commitError: Option<string>)    // index.commit

  class Repository {
    var heads: map<string, nat>        // branch name -> index of its head commit
    var active: string                 // the checked-out branch
    var files: map<PathName, string>   // working tree, by absolute path
    var staged: set<PathName>          // paths added to the index
    var commits: seq<Commit>

    ghost predicate Valid()
      reads this
    {
      && active in heads
      && (forall b :: b in heads ==> heads[b] < |commits|)
    }

    constructor(initial: string, message: string)
      ensures Valid()
      ensures heads == map[initial := 0] && active == initial
      ensures files == map[] && staged == {} && commits == [Commit(message, 0, {})]
    {
      heads := map[initial := 0];
      active := initial;
      files := map[];
      staged := {};
      commits := [Commit(message, 0, {})];
    }

    /** `apply_fix_to_repo(repo_path, bug_id, file_path, fixed_code)` run from
        directory `cwd`. */
    method ApplyFixToRepo(cwd: PathName, repoPath: string, bugId: string, filePath: string,
                          fixedCode: string, repoIsDirectory: bool, faults: Faults)
      returns (result: string)
      requires Valid()
      modifies this
      ensures Valid()
      ensures var repoDir := Resolve(cwd, repoPath);
        var target := Resolve(repoDir, filePath);
        var branch := BranchName(bugId);
        var headAfter := if branch in old(heads) then old(heads) else old(heads)[branch := old(heads[active])];
        // the steps that were reached, in order
        var checks := repoIsDirectory && Inside(repoDir, target) && faults.openError.None?;
        var created := checks && (branch in old(heads) || faults.branchError.None?);
        var checkedOut := created && faults.checkoutError.None?;
        var written := checkedOut && faults.writeError.None? && target != repoDir;
        var added := written && faults.addError.None?;
        var committed := added && faults.commitError.None?;
        && (!repoIsDirectory ==> result == NotDirectoryMessage(repoPath))
        && (repoIsDirectory && !Inside(repoDir, target) ==> result == TraversalMessage(filePath))
        && (committed ==> result == SuccessMessage(branch))
        && (repoIsDirectory && Inside(repoDir, target) && !committed ==>
              exists e :: result == FailureMessage(e))
        && (IsErrorResult(result) <==> !committed)
        && (!IsErrorResult(result) ==> result == SuccessMessage(branch))
        && heads == (if !created then old(heads)
                     else if committed then headAfter[branch := |old(commits)|]
                     else headAfter)
        && active == (if checkedOut then branch else old(active))
        && files == (if written then old(files)[target := fixedCode] else old(files))
        && staged == (if added then old(staged) + {target} else old(staged))
        && commits == (if committed
                       then old(commits) + [Commit(CommitMessage(bugId), headAfter[branch], old(staged) + {target})]
                       else old(commits))
    {
      ErrorPrefixSeparatesOutcomes();
      var repoDir := Resolve(cwd, repoPath);
      if !repoIsDirectory {
        return NotDirectoryMessage(repoPath);
      }
      var targetFile := Resolve(repoDir, filePath);
      if !(repoDir in Parents(targetFile) || repoDir == targetFile) {
        return TraversalMessage(filePath);
      }
      if faults.openError.Some? {
        return FailureMessage(faults.openError.value);
      }
      var branchName := BranchName(bugId);
      if branchName !in heads {
        if faults.branchError.Some? {
          return FailureMessage(faults.branchError.value);
        }
        heads := heads[branchName := heads[active]];
      }
      if faults.checkoutError.Some? {
        return FailureMessage(faults.checkoutError.value);
      }
      active := branchName;
      if targetFile == repoDir {
        return FailureMessage(if faults.writeError.Some? then faults.writeError.value else IsDirectoryError(targetFile));
      }
      if faults.writeError.Some? {
        return FailureMessage(faults.writeError.value);
      }
      files := files[targetFile := fixedCode];
      if faults.addError.Some? {
        return FailureMessage(faults.addError.value);
      }
      staged := staged + {targetFile};
      if faults.commitError.Some? {
        return FailureMessage(faults.commitError.value);
      }
      commits := commits + [Commit(CommitMessage(bugId), heads[active], staged)];
      heads := heads[active := |commits| - 1];
      return SuccessMessage(branchName);
    }
  }
}
