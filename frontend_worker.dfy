/**
 * The frontend maintenance script (scripts/frontend_ai_worker.py): the code-fence cleaner
 * applied to the model's reply, the choice of frontend files, and the loop of `main` that
 * decides, file by file, whether the reply is written and staged.
 */
module FrontendWorker {
  import opened Results
  import opened Text
  import opened Lists
  import opened Workspace

  const Fence := "```"
  const FrontendPath := "app/src"
  const BranchPrefix := "ai-frontend-improvement-"
  const CommitMessage := "\U{1F3A8} AI frontend UX improvements"

  lemma FenceIsNotBlank()
    ensures |Fence| == 3 && forall k :: 0 <= k < |Fence| ==> Fence[k] == '`'
    ensures forall k :: 0 <= k < |Fence| ==> !IsSpace(Fence[k]) && !IsLineBreak(Fence[k])
  {
  }

  // ---------------------------------------------------------------- clean_code_output

  /**
   * The line handling of `clean_code_output`: drop the first line when it is a fence, then
   * `lines[-1]` (which raises on an empty list), dropped when it is a fence too; rejoin with `\n`.
   */
  function DropFences(lines: seq<string>): (r: Result<string, Exception>)
    requires lines != []
    ensures r.Err? <==> |lines| == 1 && StartsWith(lines[0], Fence)
    ensures r.Err? ==> r.error == IndexError
  {
    var lines1 := if StartsWith(lines[0], Fence) then lines[1..] else lines;
    if |lines1| == 0 then Err(IndexError)
    else
      var lines2 := if StartsWith(lines1[|lines1| - 1], Fence) then lines1[..|lines1| - 1] else lines1;
      Ok(Join(lines2, "\n"))
  }

  /** `clean_code_output(text)`: fenced text is stripped and cut into lines, and loses its fences. */
  function CleanCodeOutput(text: string): (r: Result<string, Exception>)
    ensures !StartsWith(text, Fence) ==> r == Ok(text)
    ensures r.Err? ==> r.error == IndexError
  {
    if StartsWith(text, Fence) then
      FenceIsNotBlank();
      StripKeepsPrefix(text, Fence);
      DropFences(SplitLines(Strip(text)))
    else
      Ok(text)
  }

  /** Fenced text keeps its fence through `strip`, and the first of its lines is that fence's line. */
  lemma FirstLineIsFence(text: string)
    requires StartsWith(text, Fence)
    ensures Strip(text) != [] && StartsWith(Strip(text), Fence)
    ensures StartsWith(SplitLines(Strip(text))[0], Fence)
  {
    FenceIsNotBlank();
    StripKeepsPrefix(text, Fence);
    assert NoLineBreak(Fence);
    FirstLineHasPrefix(Strip(text), Fence);
  }

  /**
   * Whitespace before the fence hides it: such text is returned as it is, since the test is on
   * the raw text, before any `strip`.
   */
  lemma IndentedFenceIsKept(pad: string, rest: string)
    requires pad != [] && AllSpace(pad)
    ensures CleanCodeOutput(pad + Fence + rest) == Ok(pad + Fence + rest)
  {
    var text := pad + Fence + rest;
    assert text[0] == pad[0];
    FenceIsNotBlank();
  }

  /** The first line of fenced text is always dropped; the last remaining one only when it is a fence. */
  lemma CleanDropsFirstLine(text: string)
    requires StartsWith(text, Fence)
    ensures var rest := SplitLines(Strip(text))[1..];
      CleanCodeOutput(text) ==
        if rest == [] then Err(IndexError)
        else if StartsWith(rest[|rest| - 1], Fence) then Ok(Join(rest[..|rest| - 1], "\n"))
        else Ok(Join(rest, "\n"))
  {
    FirstLineIsFence(text);
  }

  /** Fenced text fails exactly when it is a single line once stripped -- a lone fence, for one. */
  lemma CleanFailsIff(text: string)
    requires StartsWith(text, Fence)
    ensures CleanCodeOutput(text).Err? <==> NoLineBreak(Strip(text))
  {
    FirstLineIsFence(text);
    var t := Strip(text);
    SingleLineIff(t);
    assert CleanCodeOutput(text) == DropFences(SplitLines(t));
  }

  /** Fenced text on a single line -- a lone fence, say -- has no line after the first, so `lines[-1]` raises. */
  lemma OneLineFails(text: string)
    requires StartsWith(text, Fence) && NoLineBreak(text)
    ensures CleanCodeOutput(text) == Err(IndexError)
  {
    var a, b := StripSplits(text);
    var t := Strip(text);
    assert NoLineBreak(t) by {
      forall k | 0 <= k < |t| ensures !IsLineBreak(t[k]) { assert t[k] == text[|a| + k]; }
    }
    CleanFailsIff(text);
  }

  /** Trailing whitespace after fenced text makes no difference: it is stripped first. */
  lemma CleanIgnoresTrailingSpace(text: string, pad: string)
    requires StartsWith(text, Fence) && AllSpace(pad)
    ensures CleanCodeOutput(text + pad) == CleanCodeOutput(text)
  {
    StartsWithAppend(text, pad, Fence);
    StripTrailing(text, pad);
  }

  /** Text whose first and last characters are not blank is its own `strip`. */
  lemma StripUnpadded(s: string)
    requires s != [] && !IsSpace(s[0]) && !IsSpace(s[|s| - 1])
    ensures Strip(s) == s
  {
  }

  /** The lines of text free of line breaks: just the text. */
  lemma SplitLinesOfOneLine(s: string)
    requires s != [] && NoLineBreak(s)
    ensures SplitLines(s) == [s]
  {
    NoLineBreakLineEnd(s);
  }

  /** The lines of a fenced reply: the opening fence with its language, the body's lines, the closing fence. */
  lemma FencedLines(lang: string, body: string)
    requires NoLineBreak(lang) && OnlyNewlineBreaks(body)
    ensures SplitLines(Fence + lang + "\n" + body + "\n" + Fence) == [Fence + lang] + Split(body, '\n') + [Fence]
  {
    var head := Fence + lang;
    assert NoLineBreak(head) by {
      forall k | 0 <= k < |head| ensures !IsLineBreak(head[k]) {
        if k >= 3 { assert head[k] == lang[k - 3]; }
      }
    }
    assert Fence + lang + "\n" + body + "\n" + Fence == head + ['\n'] + (body + ['\n'] + Fence);
    SplitLinesCons(head, body + ['\n'] + Fence);
    SplitLinesAfter(body, Fence);
    SplitLinesOfOneLine(Fence);
    Assoc([head], Split(body, '\n'), [Fence]);
  }

  /** Stripped fenced text whose last line is a fence comes back as the lines in between. */
  lemma CleanBetweenFences(text: string, head: string, middle: seq<string>)
    requires StartsWith(text, Fence) && Strip(text) == text
    requires SplitLines(text) == [head] + middle + [Fence]
    ensures CleanCodeOutput(text) == Ok(Join(middle, "\n"))
  {
    FirstLineIsFence(text);
    var lines := SplitLines(text);
    assert CleanCodeOutput(text) == DropFences(lines);
    var rest := lines[1..];
    assert rest == middle + [Fence];
    assert rest[|rest| - 1] == Fence && rest[..|rest| - 1] == middle;
    assert StartsWith(Fence, Fence);
  }

  /**
   * The round trip the cleaner is for: a reply fenced as ```` ```lang ```` / body / ```` ``` ````
   * comes back as the body, when the body breaks its lines with `\n` only.
   */
  lemma CleanUnfences(lang: string, body: string)
    requires NoLineBreak(lang) && OnlyNewlineBreaks(body)
    ensures CleanCodeOutput(Fence + lang + "\n" + body + "\n" + Fence) == Ok(body)
  {
    var text := Fence + lang + "\n" + body + "\n" + Fence;
    assert text[0] == '`' && text[|text| - 1] == '`';
    assert text[..3] == Fence;
    StripUnpadded(text);
    FencedLines(lang, body);
    CleanBetweenFences(text, Fence + lang, Split(body, '\n'));
    JoinSplit(body, '\n');
  }

  // ---------------------------------------------------------------- improve_frontend

  /**
   * `improve_frontend(code)`: the reply of the model for `code` (None when the client raised),
   * stripped and cleaned. Both the API error and the cleaner's `IndexError` escape.
   */
  function ImproveFrontend(code: string, ai: string -> Option<string>): (r: Result<string, Exception>)
    ensures ai(code).None? ==> r == Err(ApiError)
    ensures ai(code).Some? ==> r == CleanCodeOutput(Strip(ai(code).value))
    ensures ai(code).Some? && !StartsWith(Strip(ai(code).value), Fence) ==> r == Ok(Strip(ai(code).value))
  {
    match ai(code)
    case None => Err(ApiError)
    case Some(reply) => CleanCodeOutput(Strip(reply))
  }

  /** The worker stops on a file exactly when the model call raised or its stripped reply is a single fenced line. */
  lemma ImproveFrontendFailsIff(code: string, ai: string -> Option<string>)
    ensures ImproveFrontend(code, ai).Err? <==>
      ai(code).None? || (StartsWith(Strip(ai(code).value), Fence) && NoLineBreak(Strip(ai(code).value)))
  {
    if ai(code).Some? {
      var t := Strip(ai(code).value);
      if StartsWith(t, Fence) {
        CleanFailsIff(t);
        StripStrip(ai(code).value);
      }
    }
  }

  // ---------------------------------------------------------------- get_frontend_files

  /** The filter of `get_frontend_files`: a textual prefix (no `/` after `app/src`) and an extension. */
  predicate IsFrontendSource(f: string) {
    StartsWith(f, FrontendPath) && (EndsWith(f, ".jsx") || EndsWith(f, ".js") || EndsWith(f, ".tsx"))
  }

  /** The frontend files among the tracked paths, in the order `git ls-files` lists them. */
  function FrontendFiles(tracked: seq<string>): (files: seq<string>)
    ensures |files| <= |tracked|
    ensures forall f :: f in files <==> f in tracked && IsFrontendSource(f)
  {
    Filter(tracked, IsFrontendSource)
  }

  /** The selection keeps the listing's order. */
  lemma FrontendFilesInOrder(a: seq<string>, b: seq<string>)
    ensures FrontendFiles(a + b) == FrontendFiles(a) + FrontendFiles(b)
  {
    FilterAppend(a, b, IsFrontendSource);
  }

  /** The prefix is not a directory: a sibling such as `app/srcX` is selected too; `.ts` is not an extension it takes. */
  lemma SiblingDirectorySelected()
    ensures IsFrontendSource("app/srcX/a.js")
    ensures !IsFrontendSource("app/src/a.ts")
  {
    var f := "app/srcX/a.js";
    assert f[..7] == FrontendPath;
    assert f[|f| - 3..] == ".js";
    var g := "app/src/a.ts";
    assert g[|g| - 3..] != ".js" && g[|g| - 4..] != ".jsx" && g[|g| - 4..] != ".tsx";
  }

  // ---------------------------------------------------------------- main

  /** The state of `main` between files: the working tree, the actions so far, and an escaped exception. */
  datatype Progress = Progress(fs: FileSystem, log: seq<Effect>, raised: Option<Exception>)

  /** `improve_frontend` as the loop sees it. */
  function Improver(ai: string -> Option<string>): string -> Result<string, Exception> {
    code => ImproveFrontend(code, ai)
  }

  /** The three `continue` guards of the loop: a reply is kept when non-empty, new, and judged safe. */
  predicate Accepts(original: string, improved: string, safe: (string, string) -> bool) {
    improved != "" && improved != original && safe(original, improved)
  }

  /** What the loop leaves in a file: the reply when it is accepted, the original otherwise. */
  function Revision(original: string, improve: string -> Result<string, Exception>, safe: (string, string) -> bool): (r: Result<string, Exception>)
    ensures r.Err? <==> improve(original).Err?
    ensures r.Ok? ==> (r.value != original <==> Accepts(original, improve(original).value, safe))
    ensures r.Ok? && r.value != original ==> r.value != "" && safe(original, r.value)
    ensures r.Ok? && r.value != original ==> r.value == improve(original).value
    ensures r.Err? ==> r.error == improve(original).error
  {
    match improve(original)
    case Err(e) => Err(e)
    case Ok(improved) => Ok(if Accepts(original, improved, safe) then improved else original)
  }

  function StageCommand(file: string): Effect {
    Run(["git", "add", file])
  }

  /** The actions the loop takes for the files of `files`: writing one and `git add` of one. */
  predicate IsLoopEffect(e: Effect, files: seq<string>) {
    match e
    case Write(path, _) => path in files
    case Run(argv) => |argv| == 3 && argv[0] == "git" && argv[1] == "add" && argv[2] in files
    case Shell(_) => false
  }

  /** One iteration of `for file in files`. Once an exception has escaped, nothing more happens. */
  function Step(p: Progress, file: string, improve: string -> Result<string, Exception>, safe: (string, string) -> bool): (q: Progress)
    ensures p.raised.Some? ==> q == p
    ensures q.raised.Some? ==> q.fs == p.fs && q.log == p.log
    ensures p.raised.None? && file !in p.fs ==> q.raised == Some(FileNotFound(file))
    ensures p.raised.None? && file in p.fs && Revision(p.fs[file], improve, safe).Err? ==>
      q.raised == Some(Revision(p.fs[file], improve, safe).error)
    ensures q.raised.Some? <==> p.raised.Some? || file !in p.fs || Revision(p.fs[file], improve, safe).Err?
    ensures q.fs.Keys == p.fs.Keys
    ensures forall f :: f in p.fs && f != file ==> q.fs[f] == p.fs[f]
    ensures q.raised.None? ==> q.fs[file] == Revision(p.fs[file], improve, safe).value
    ensures q.log == p.log || (file in p.fs && q.log == p.log + [Write(file, q.fs[file]), StageCommand(file)] && q.fs[file] != p.fs[file])
    ensures q.log != p.log <==> q.raised.None? && q.fs[file] != p.fs[file]
  {
    if p.raised.Some? then p
    else if file !in p.fs then Progress(p.fs, p.log, Some(FileNotFound(file)))
    else
      var original := p.fs[file];
      match improve(original)
      case Err(e) => Progress(p.fs, p.log, Some(e))
      case Ok(improved) =>
        if improved == "" || improved == original || !safe(original, improved) then p
        else Progress(p.fs[file := improved], p.log + [Write(file, improved), StageCommand(file)], None)
  }

  /** The loop over `files`, as the fold of `Step` (peeling the last file). */
  function ProcessAll(p: Progress, files: seq<string>, improve: string -> Result<string, Exception>, safe: (string, string) -> bool): (q: Progress)
    ensures p.raised.Some? ==> q == p
    ensures q.fs.Keys == p.fs.Keys
    ensures forall f :: f in p.fs && f !in files ==> q.fs[f] == p.fs[f]
    decreases |files|
  {
    if files == [] then p
    else Step(ProcessAll(p, files[..|files| - 1], improve, safe), files[|files| - 1], improve, safe)
  }

  /** The loop only appends to the actions, and what it appends are writes and `git add`s of listed files. */
  lemma {:induction false} ProcessAllLog(p: Progress, files: seq<string>, improve: string -> Result<string, Exception>, safe: (string, string) -> bool)
    ensures var q := ProcessAll(p, files, improve, safe);
      p.log <= q.log && forall k :: |p.log| <= k < |q.log| ==> IsLoopEffect(q.log[k], files)
    decreases |files|
  {
    if files != [] {
      var init, last := files[..|files| - 1], files[|files| - 1];
      var q' := ProcessAll(p, init, improve, safe);
      var q := ProcessAll(p, files, improve, safe);
      ProcessAllLog(p, init, improve, safe);
      assert q == Step(q', last, improve, safe);
      forall k | |p.log| <= k < |q.log| ensures IsLoopEffect(q.log[k], files) {
        if k < |q'.log| {
          LoopEffectWidens(q'.log[k], init, files);
        } else {
          assert IsLoopEffect(q.log[k], [last]);
          LoopEffectWidens(q.log[k], [last], files);
        }
      }
    }
  }

  /** An action for the files of a part of the listing is one for the whole listing. */
  lemma LoopEffectWidens(e: Effect, some: seq<string>, files: seq<string>)
    requires IsLoopEffect(e, some) && forall f :: f in some ==> f in files
    ensures IsLoopEffect(e, files)
  {
  }

  /** Processing `a` and then `b` is processing `a + b`. */
  lemma {:induction false} ProcessAllAppend(p: Progress, a: seq<string>, b: seq<string>, improve: string -> Result<string, Exception>, safe: (string, string) -> bool)
    ensures ProcessAll(p, a + b, improve, safe) == ProcessAll(ProcessAll(p, a, improve, safe), b, improve, safe)
    decreases |b|
  {
    if b == [] {
      assert a + b == a;
    } else {
      var b' := b[..|b| - 1];
      assert (a + b)[..|a + b| - 1] == a + b';
      assert (a + b)[|a + b| - 1] == b[|b| - 1];
      ProcessAllAppend(p, a, b', improve, safe);
    }
  }

  /** The last iteration keeps what the earlier ones made of `f`, or makes the `Revision` of the last file. */
  lemma StepRevises(p: Progress, q': Progress, last: string, f: string, improve: string -> Result<string, Exception>, safe: (string, string) -> bool)
    requires q'.fs.Keys == p.fs.Keys
    requires Step(q', last, improve, safe).raised.None?
    requires f == last ==> last in p.fs && q'.fs[last] == p.fs[last]
    requires f != last ==> f in p.fs && Revision(p.fs[f], improve, safe).Ok? && q'.fs[f] == Revision(p.fs[f], improve, safe).value
    ensures f in p.fs && Revision(p.fs[f], improve, safe).Ok?
    ensures Step(q', last, improve, safe).fs[f] == Revision(p.fs[f], improve, safe).value
  {
  }

  /** The loop over a non-empty listing ends with the `Step` of its last file; that `Step` raises if an earlier one did. */
  lemma ProcessAllLast(p: Progress, files: seq<string>, improve: string -> Result<string, Exception>, safe: (string, string) -> bool)
    requires files != []
    ensures var q' := ProcessAll(p, files[..|files| - 1], improve, safe);
      && ProcessAll(p, files, improve, safe) == Step(q', files[|files| - 1], improve, safe)
      && (ProcessAll(p, files, improve, safe).raised.None? ==> q'.raised.None? && files[|files| - 1] in q'.fs)
  {
  }

  /** A file of a listing without repeats ends up as its `Revision` of the text it started with. */
  lemma {:induction false} ProcessAllRevises(p: Progress, files: seq<string>, f: string, improve: string -> Result<string, Exception>, safe: (string, string) -> bool)
    requires NoDup(files) && f in files
    requires ProcessAll(p, files, improve, safe).raised.None?
    ensures f in p.fs && Revision(p.fs[f], improve, safe).Ok?
    ensures ProcessAll(p, files, improve, safe).fs[f] == Revision(p.fs[f], improve, safe).value
    decreases |files|
  {
    var init, last := files[..|files| - 1], files[|files| - 1];
    var q' := ProcessAll(p, init, improve, safe);
    ProcessAllLast(p, files, improve, safe);
    NoDupSnoc(files);
    if f != last {
      SnocMember(files, f);
      ProcessAllRevises(p, init, f, improve, safe);
    }
    StepRevises(p, q', last, f, improve, safe);
  }

  /** `f"ai-frontend-improvement-{int(time.time())}"` */
  function BranchName(now: nat): string {
    BranchPrefix + NatToString(now)
  }

  /** Runs started at different seconds work on different branches. */
  lemma BranchNameInjective(a: nat, b: nat)
    requires BranchName(a) == BranchName(b)
    ensures a == b
  {
    assert NatToString(a) == BranchName(a)[|BranchPrefix|..];
    assert NatToString(b) == BranchName(b)[|BranchPrefix|..];
    DecimalOfNatToString(a);
    DecimalOfNatToString(b);
  }

  function CheckoutCommand(branch: string): Effect {
    Run(["git", "checkout", "-b", branch])
  }

  function CommitCommand(): Effect {
    Run(["git", "commit", "-m", CommitMessage])
  }

  function PushCommand(branch: string): Effect {
    Run(["git", "push", "origin", branch])
  }

  /** What the loop of `main` leaves after the checkout of the run's branch. */
  function FrontendLoop(tracked: seq<string>, fs: FileSystem, now: nat, ai: string -> Option<string>, safe: (string, string) -> bool): (q: Progress)
    ensures q.fs.Keys == fs.Keys
    ensures forall f :: f in fs && !IsFrontendSource(f) ==> q.fs[f] == fs[f]
  {
    ProcessAll(Progress(fs, [CheckoutCommand(BranchName(now))], None), FrontendFiles(tracked), Improver(ai), safe)
  }

  /** After the checkout, the loop logs only its own actions: in particular no commit. */
  lemma FrontendLoopLog(tracked: seq<string>, fs: FileSystem, now: nat, ai: string -> Option<string>, safe: (string, string) -> bool)
    ensures var q := FrontendLoop(tracked, fs, now, ai, safe);
      && q.log != [] && q.log[0] == CheckoutCommand(BranchName(now)) && CommitCommand() !in q.log
      && forall k :: 1 <= k < |q.log| ==> IsLoopEffect(q.log[k], FrontendFiles(tracked))
  {
    var start := Progress(fs, [CheckoutCommand(BranchName(now))], None);
    var q := FrontendLoop(tracked, fs, now, ai, safe);
    ProcessAllLog(start, FrontendFiles(tracked), Improver(ai), safe);
    forall k | 0 <= k < |q.log| ensures q.log[k] != CommitCommand() {
      if k > 0 { assert IsLoopEffect(q.log[k], FrontendFiles(tracked)); }
    }
  }

  /** The commit and the push close a log that began with the checkout and held no commit. */
  lemma PublishLog(log: seq<Effect>, branch: string)
    requires log != [] && log[0] == CheckoutCommand(branch) && CommitCommand() !in log
    ensures var out := log + [CommitCommand(), PushCommand(branch)];
      out[0] == CheckoutCommand(branch) && CommitCommand() in out && out[|out| - 1] == PushCommand(branch)
  {
    var out := log + [CommitCommand(), PushCommand(branch)];
    assert out[|log|] == CommitCommand();
  }

  /**
   * `main()`: nothing at all without frontend files; otherwise a new branch, the loop, and --
   * unless an exception escaped it -- a commit and a push, made whether or not anything changed.
   */
  function FrontendRun(tracked: seq<string>, fs: FileSystem, now: nat, ai: string -> Option<string>, safe: (string, string) -> bool): (out: Progress)
    ensures out.log == [] <==> FrontendFiles(tracked) == []
    ensures out.log == [] ==> out == Progress(fs, [], None)
    ensures out.log != [] ==> out.log[0] == CheckoutCommand(BranchName(now))
    ensures out.fs.Keys == fs.Keys
    ensures forall f :: f in fs && !IsFrontendSource(f) ==> out.fs[f] == fs[f]
    ensures CommitCommand() in out.log <==> FrontendFiles(tracked) != [] && out.raised.None?
    ensures CommitCommand() in out.log ==> out.log[|out.log| - 1] == PushCommand(BranchName(now))
    ensures forall k :: 1 <= k < |out.log| - (if CommitCommand() in out.log then 2 else 0) ==>
      IsLoopEffect(out.log[k], FrontendFiles(tracked))
  {
    if FrontendFiles(tracked) == [] then Progress(fs, [], None)
    else
      var q := FrontendLoop(tracked, fs, now, ai, safe);
      FrontendLoopLog(tracked, fs, now, ai, safe);
      PublishLog(q.log, BranchName(now));
      Progress(q.fs, if q.raised.Some? then q.log else q.log + [CommitCommand(), PushCommand(BranchName(now))], q.raised)
  }

  /** With a listing without repeats, each selected file ends as its `Revision` when the run completes. */
  lemma FrontendRunContents(tracked: seq<string>, fs: FileSystem, now: nat, ai: string -> Option<string>, safe: (string, string) -> bool)
    requires NoDup(tracked)
    requires FrontendRun(tracked, fs, now, ai, safe).raised.None?
    ensures var out := FrontendRun(tracked, fs, now, ai, safe);
      forall f :: f in tracked && IsFrontendSource(f) ==>
        f in fs && Revision(fs[f], Improver(ai), safe).Ok? && out.fs[f] == Revision(fs[f], Improver(ai), safe).value
  {
    var files := FrontendFiles(tracked);
    FilterNoDup(tracked, IsFrontendSource);
    if files != [] {
      var start := Progress(fs, [CheckoutCommand(BranchName(now))], None);
      forall f | f in tracked && IsFrontendSource(f)
        ensures f in fs && Revision(fs[f], Improver(ai), safe).Ok?
        ensures ProcessAll(start, files, Improver(ai), safe).fs[f] == Revision(fs[f], Improver(ai), safe).value
      {
        ProcessAllRevises(start, files, f, Improver(ai), safe);
      }
    }
  }

  /** The loop invariant's step: one more file is one more `Step`. */
  lemma ProcessAllSnoc(p: Progress, files: seq<string>, i: nat, improve: string -> Result<string, Exception>, safe: (string, string) -> bool)
    requires i < |files|
    ensures ProcessAll(p, files[..i + 1], improve, safe) == Step(ProcessAll(p, files[..i], improve, safe), files[i], improve, safe)
  {
    assert files[..i + 1][..i] == files[..i];
  }

  /** Once `ProcessAll` over a prefix has raised, the rest of the files change nothing. */
  lemma AbortIsFinal(p: Progress, files: seq<string>, i: nat, improve: string -> Result<string, Exception>, safe: (string, string) -> bool)
    requires i <= |files| && ProcessAll(p, files[..i], improve, safe).raised.Some?
    ensures ProcessAll(p, files, improve, safe) == ProcessAll(p, files[..i], improve, safe)
  {
    assert files == files[..i] + files[i..];
    ProcessAllAppend(p, files[..i], files[i..], improve, safe);
  }

  /**
   * The `for` loop of `main()`, from the tree `fs0` and the actions `log0` already taken:
   * an exception leaves the loop at once, and a `continue` keeps the file as it was.
   */
  method ImproveFiles(files: seq<string>, fs0: FileSystem, log0: seq<Effect>, ai: string -> Option<string>, safe: (string, string) -> bool)
    returns (fs: FileSystem, log: seq<Effect>, raised: Option<Exception>)
    ensures Progress(fs, log, raised) == ProcessAll(Progress(fs0, log0, None), files, Improver(ai), safe)
  {
    ghost var start := Progress(fs0, log0, None);
    fs, log, raised := fs0, log0, None;
    var i := 0;
    while i < |files|
      invariant 0 <= i <= |files|
      invariant raised.None?
      invariant Progress(fs, log, raised) == ProcessAll(start, files[..i], Improver(ai), safe)
    {
      var file := files[i];
      ProcessAllSnoc(start, files, i, Improver(ai), safe);
      ghost var before := Progress(fs, log, None);
      if file !in fs {
        raised := Some(FileNotFound(file));
        assert Progress(fs, log, raised) == Step(before, file, Improver(ai), safe);
        AbortIsFinal(start, files, i + 1, Improver(ai), safe);
        return;
      }
      var originalCode := fs[file];
      var improvedCode := ImproveFrontend(originalCode, ai);
      if improvedCode.Err? {
        raised := Some(improvedCode.error);
        assert Progress(fs, log, raised) == Step(before, file, Improver(ai), safe);
        AbortIsFinal(start, files, i + 1, Improver(ai), safe);
        return;
      }
      var improved := improvedCode.value;
      if improved == "" || improved == originalCode || !safe(originalCode, improved) {
        assert Progress(fs, log, raised) == Step(before, file, Improver(ai), safe);
        i := i + 1;
        continue;
      }
      fs := fs[file := improved];
      log := log + [Write(file, improved), StageCommand(file)];
      assert Progress(fs, log, raised) == Step(before, file, Improver(ai), safe);
      i := i + 1;
    }
    assert files[..i] == files;
  }

  /** `main()` as the script runs it: an exception escaping the loop ends the script before the commit. */
  method RunFrontendWorker(tracked: seq<string>, fs0: FileSystem, now: nat, ai: string -> Option<string>, safe: (string, string) -> bool)
    returns (fs: FileSystem, log: seq<Effect>, raised: Option<Exception>)
    ensures Progress(fs, log, raised) == FrontendRun(tracked, fs0, now, ai, safe)
  {
    var files := FrontendFiles(tracked);
    if files == [] {
      fs, log, raised := fs0, [], None;
      return;
    }
    var branch := BranchName(now);
    fs, log, raised := ImproveFiles(files, fs0, [CheckoutCommand(branch)], ai, safe);
    assert Progress(fs, log, raised) == FrontendLoop(tracked, fs0, now, ai, safe);
    if raised.Some? {
      return;
    }
    log := log + [CommitCommand(), PushCommand(branch)];
  }
}
