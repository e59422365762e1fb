/**
 * The backend maintenance script (scripts/ai_worker.py): the choice of backend files, the
 * fallback of `improve_code`, and the top-level loop that rewrites files and sets
 * `changes_made`, followed by the publishing commands.
 */
module BackendWorker {
  import opened Results
  import opened Text
  import opened Lists
  import opened Workspace

  const BackendPrefix := "backend/"
  const PythonSuffix := ".py"

  /** The filter of `get_repo_files`. */
  predicate IsBackendSource(f: string) {
    StartsWith(f, BackendPrefix) && EndsWith(f, PythonSuffix)
  }

  /** The backend files among the tracked paths, in the order `git ls-files` lists them. */
  function BackendFiles(tracked: seq<string>): (files: seq<string>)
    ensures |files| <= |tracked|
    ensures forall f :: f in files <==> f in tracked && IsBackendSource(f)
  {
    Filter(tracked, IsBackendSource)
  }

  /** The selection keeps the listing's order. */
  lemma BackendFilesInOrder(a: seq<string>, b: seq<string>)
    ensures BackendFiles(a + b) == BackendFiles(a) + BackendFiles(b)
  {
    FilterAppend(a, b, IsBackendSource);
  }

  /** `improve_code(code)`: the model's reply (None when the client raised), or the code itself on failure. */
  function ImproveCode(code: string, ai: string -> Option<string>): (r: string)
    ensures ai(code).None? ==> r == code
    ensures ai(code).Some? ==> r == ai(code).value
  {
    match ai(code)
    case Some(reply) => reply
    case None => code
  }

  /** `improve_code` as the loop sees it. */
  function Improver(ai: string -> Option<string>): string -> string {
    code => ImproveCode(code, ai)
  }

  /** The test of the loop: the texts differ once stripped. */
  predicate Rewrites(original: string, improved: string) {
    Strip(improved) != Strip(original)
  }

  /** A failed model call never leads to a rewrite. */
  lemma FailedCallRewritesNothing(code: string, ai: string -> Option<string>)
    requires ai(code).None?
    ensures !Rewrites(code, ImproveCode(code, ai))
  {
  }

  /** Whitespace added or removed around the code never counts as a change. */
  lemma PaddingIsNoChange(code: string, a: string, b: string)
    requires AllSpace(a) && AllSpace(b)
    ensures !Rewrites(code, a + code + b)
    ensures !Rewrites(a + code + b, code)
  {
    StripPadded(a, code, b);
  }

  /** The text a file is left with: the reply when it differs from the original beyond whitespace. */
  function Revision(original: string, improve: string -> string): (r: string)
    ensures r != original ==> r == improve(original) && Strip(r) != Strip(original)
    ensures Rewrites(original, improve(original)) ==> r != original
  {
    var improved := improve(original);
    if Rewrites(original, improved) then improved else original
  }

  /** The state of the loop between files: the working tree, the writes so far, and `changes_made`. */
  datatype Progress = Progress(fs: FileSystem, log: seq<Effect>, changesMade: bool)

  /**
   * One pass of the `try` block for `file`. A file that cannot be read raises inside the
   * `try`; the `except` prints and the loop goes on, so the pass changes nothing.
   */
  function Step(p: Progress, file: string, improve: string -> string): (q: Progress)
    ensures file !in p.fs ==> q == p
    ensures q.fs.Keys == p.fs.Keys
    ensures file in p.fs ==> q.fs == p.fs[file := Revision(p.fs[file], improve)]
    ensures q.log != p.log <==> file in p.fs && Rewrites(p.fs[file], improve(p.fs[file]))
    ensures q.log != p.log ==> q.log == p.log + [Write(file, q.fs[file])]
    ensures q.changesMade <==> p.changesMade || q.log != p.log
  {
    if file !in p.fs then p
    else
      var original := p.fs[file];
      var improved := improve(original);
      if Rewrites(original, improved) then
        Progress(p.fs[file := improved], p.log + [Write(file, improved)], true)
      else
        assert p.fs[file := original] == p.fs;
        p
  }

  /** The loop over `files`, as the fold of `Step` (peeling the last file). */
  function StepAll(p: Progress, files: seq<string>, improve: string -> string): (q: Progress)
    ensures q.fs.Keys == p.fs.Keys
    ensures forall f :: f in p.fs && f !in files ==> q.fs[f] == p.fs[f]
    decreases |files|
  {
    if files == [] then p
    else Step(StepAll(p, files[..|files| - 1], improve), files[|files| - 1], improve)
  }

  /**
   * The loop only appends writes of its own files, and `changes_made` ends true exactly when it
   * was true already or something was written: it is never reset.
   */
  lemma {:induction false} StepAllLog(p: Progress, files: seq<string>, improve: string -> string)
    ensures var q := StepAll(p, files, improve);
      && p.log <= q.log
      && (forall k :: |p.log| <= k < |q.log| ==> q.log[k].Write? && q.log[k].path in files)
      && (q.changesMade <==> p.changesMade || |q.log| > |p.log|)
    decreases |files|
  {
    if files != [] {
      var init, last := files[..|files| - 1], files[|files| - 1];
      var q' := StepAll(p, init, improve);
      StepAllLog(p, init, improve);
      assert StepAll(p, files, improve) == Step(q', last, improve);
      assert forall f :: f in init ==> f in files;
    }
  }

  /** Processing `a` and then `b` is processing `a + b`. */
  lemma {:induction false} StepAllAppend(p: Progress, a: seq<string>, b: seq<string>, improve: string -> string)
    ensures StepAll(p, a + b, improve) == StepAll(StepAll(p, a, improve), b, improve)
    decreases |b|
  {
    if b == [] {
      assert a + b == a;
    } else {
      var b' := b[..|b| - 1];
      assert (a + b)[..|a + b| - 1] == a + b';
      assert (a + b)[|a + b| - 1] == b[|b| - 1];
      StepAllAppend(p, a, b', improve);
    }
  }

  /** A file that cannot be read is skipped, and the files after it are still processed. */
  lemma UnreadableFileIsSkipped(p: Progress, a: seq<string>, f: string, b: seq<string>, improve: string -> string)
    requires f !in p.fs
    ensures StepAll(p, a + [f] + b, improve) == StepAll(p, a + b, improve)
  {
    StepAllAppend(p, a + [f], b, improve);
    StepAllAppend(p, a, [f], improve);
    StepAllAppend(p, a, b, improve);
    var q := StepAll(p, a, improve);
    assert f !in q.fs;
    assert StepAll(q, [f], improve) == Step(StepAll(q, [], improve), f, improve);
  }

  /** A readable file of a listing without repeats ends up as its `Revision` of the text it started with. */
  lemma {:induction false} StepAllRevises(p: Progress, files: seq<string>, f: string, improve: string -> string)
    requires NoDup(files) && f in files && f in p.fs
    ensures StepAll(p, files, improve).fs[f] == Revision(p.fs[f], improve)
    decreases |files|
  {
    var init, last := files[..|files| - 1], files[|files| - 1];
    var q' := StepAll(p, init, improve);
    var q := Step(q', last, improve);
    assert StepAll(p, files, improve) == q;
    NoDupSnoc(files);
    if f != last {
      SnocMember(files, f);
      StepAllRevises(p, init, f, improve);
      assert q.fs[f] == q'.fs[f];
    } else {
      assert q'.fs[last] == p.fs[last];
    }
  }

  /** A loop that wrote nothing left every file as it was. */
  lemma {:induction false} StepAllKeepsWithoutWrites(p: Progress, files: seq<string>, improve: string -> string, f: string)
    requires f in p.fs && StepAll(p, files, improve).log == p.log
    ensures StepAll(p, files, improve).fs[f] == p.fs[f]
    decreases |files|
  {
    if files != [] {
      var init, last := files[..|files| - 1], files[|files| - 1];
      var q' := StepAll(p, init, improve);
      StepAllLog(p, init, improve);
      assert StepAll(p, files, improve) == Step(q', last, improve);
      assert q'.log == p.log;
      StepAllKeepsWithoutWrites(p, init, improve, f);
    }
  }

  /** Processing one more file is one more `Step`. */
  lemma StepAllSnoc(p: Progress, files: seq<string>, i: nat, improve: string -> string)
    requires i < |files|
    ensures StepAll(p, files[..i + 1], improve) == Step(StepAll(p, files[..i], improve), files[i], improve)
  {
    assert files[..i + 1][..i] == files[..i];
  }

  /** The commands run when `changes_made` is true, in order. */
  const PublishCommands: seq<Effect> := [
    Shell("git config user.name 'AI Dev'"),
    Shell("git config user.email 'ai@repo.com'"),
    Shell("git checkout -b ai-improvements || true"),
    Shell("git add backend/"),
    Shell("git commit -m 'AI backend improvements'"),
    Shell("git push origin ai-improvements")
  ]

  /** What the loop over the backend files leaves a tree in. */
  function BackendLoop(tracked: seq<string>, fs: FileSystem, ai: string -> Option<string>): Progress {
    StepAll(Progress(fs, [], false), BackendFiles(tracked), Improver(ai))
  }

  /** The loop logs nothing but writes of backend files, and `changes_made` says whether it logged anything. */
  lemma BackendLoopLog(tracked: seq<string>, fs: FileSystem, ai: string -> Option<string>)
    ensures var q := BackendLoop(tracked, fs, ai);
      && (forall e :: e in q.log ==> e.Write? && IsBackendSource(e.path))
      && (q.changesMade <==> q.log != [])
  {
    var files := BackendFiles(tracked);
    var q := BackendLoop(tracked, fs, ai);
    StepAllLog(Progress(fs, [], false), files, Improver(ai));
    forall e | e in q.log ensures e.Write? && IsBackendSource(e.path) {
      var k :| 0 <= k < |q.log| && q.log[k] == e;
      assert q.log[k].path in files;
    }
  }

  /** A loop that wrote nothing left the tree as it was. */
  lemma BackendLoopKeeps(tracked: seq<string>, fs: FileSystem, ai: string -> Option<string>)
    requires BackendLoop(tracked, fs, ai).log == []
    ensures BackendLoop(tracked, fs, ai).fs == fs
  {
    var q := BackendLoop(tracked, fs, ai);
    forall f | f in fs ensures q.fs[f] == fs[f] {
      StepAllKeepsWithoutWrites(Progress(fs, [], false), BackendFiles(tracked), Improver(ai), f);
    }
  }

  /** The whole script: the loop over the backend files, then publishing only if something was written. */
  function BackendRun(tracked: seq<string>, fs: FileSystem, ai: string -> Option<string>): (out: Progress)
    ensures out.fs.Keys == fs.Keys
    ensures forall f :: f in fs && !IsBackendSource(f) ==> out.fs[f] == fs[f]
    ensures forall e :: e in out.log && e.Write? ==> IsBackendSource(e.path)
    ensures out.changesMade <==> exists k :: 0 <= k < |out.log| && out.log[k].Write?
    ensures out.changesMade ==> |out.log| > 6 && out.log[|out.log| - 6..] == PublishCommands
    ensures out.changesMade ==> forall k :: 0 <= k < |out.log| - 6 ==> out.log[k].Write?
    ensures !out.changesMade ==> out.log == [] && out.fs == fs
  {
    var q := BackendLoop(tracked, fs, ai);
    BackendLoopLog(tracked, fs, ai);
    if q.changesMade then
      var out := Progress(q.fs, q.log + PublishCommands, true);
      assert out.log[0] == q.log[0];
      assert out.log[|out.log| - 6..] == PublishCommands;
      assert forall e :: e in out.log && e.Write? ==> e in q.log;
      assert forall k :: 0 <= k < |out.log| - 6 ==> out.log[k] == q.log[k] && q.log[k] in q.log;
      out
    else
      BackendLoopKeeps(tracked, fs, ai);
      q
  }

  /** With a listing without repeats, each readable backend file ends as its `Revision`. */
  lemma BackendRunContents(tracked: seq<string>, fs: FileSystem, ai: string -> Option<string>)
    requires NoDup(tracked)
    ensures var out := BackendRun(tracked, fs, ai);
      forall f :: f in tracked && IsBackendSource(f) && f in fs ==> out.fs[f] == Revision(fs[f], Improver(ai))
  {
    var files := BackendFiles(tracked);
    var p := Progress(fs, [], false);
    FilterNoDup(tracked, IsBackendSource);
    StepAllLog(p, files, Improver(ai));
    forall f | f in tracked && IsBackendSource(f) && f in fs
      ensures StepAll(p, files, Improver(ai)).fs[f] == Revision(fs[f], Improver(ai))
    {
      StepAllRevises(p, files, f, Improver(ai));
    }
  }

  /** The script as it runs: a `for` loop whose `try`/`except` keeps going past a failing file. */
  method RunBackendWorker(tracked: seq<string>, fs0: FileSystem, ai: string -> Option<string>)
    returns (fs: FileSystem, log: seq<Effect>, changesMade: bool)
    ensures Progress(fs, log, changesMade) == BackendRun(tracked, fs0, ai)
  {
    var files := BackendFiles(tracked);
    fs, log, changesMade := fs0, [], false;
    var i := 0;
    while i < |files|
      invariant 0 <= i <= |files|
      invariant Progress(fs, log, changesMade) == StepAll(Progress(fs0, [], false), files[..i], Improver(ai))
    {
      var file := files[i];
      StepAllSnoc(Progress(fs0, [], false), files, i, Improver(ai));
      ghost var before := Progress(fs, log, changesMade);
      if file in fs {
        var originalCode := fs[file];
        var improvedCode := ImproveCode(originalCode, ai);
        if Strip(improvedCode) != Strip(originalCode) {
          fs := fs[file := improvedCode];
          log := log + [Write(file, improvedCode)];
          changesMade := true;
        }
      }
      assert Progress(fs, log, changesMade) == Step(before, file, Improver(ai));
      i := i + 1;
    }
    assert files[..i] == files;
    assert Progress(fs, log, changesMade) == BackendLoop(tracked, fs0, ai);
    if changesMade {
      log := log + PublishCommands;
    }
  }
}
