/** The per-directory upload loop at the end of `main`. Running the upload
    tool is replaced by an oracle that gives the outcome of each
    invocation. */
module Dispatch {
  import opened Results
  import opened BlobRef

  /** The outcome of one run of the upload tool: what it wrote to standard
      output after exiting with status zero, or a failure (it could not be
      started or exited non-zero). */
  datatype RunOutcome = Exited(stdout: string) | Failed

  /** The outside world: the outcome of the `i`-th invocation, made with the
      given argument list. */
  type Oracle = (nat, seq<string>) -> RunOutcome

  /** The fixed sub-command every invocation starts with. */
  const CommonArgs: seq<string> := ["file"]

  /** The argument list for one directory: the sub-command, then the
      directory itself as one argument. */
  function Args(dir: string): (a: seq<string>)
    ensures |a| == 2 && a[0] == "file" && a[1] == dir
  {
    CommonArgs + [dir]
  }

  /** The line written to the blob-root log for one uploaded directory. */
  function Entry(dir: string, br: string): string {
    dir + ": " + br
  }

  /** The loop's state: the index of the next directory, the captured
      standard output, the commands issued so far, the log lines written so
      far, and the fatal error that stopped the loop, if any. */
  datatype Machine = Machine(
    next: nat,
    buffer: string,
    commands: seq<seq<string>>,
    log: seq<string>,
    halted: Option<Fatal>)

  const Start := Machine(0, "", [], [], None)

  /** One iteration of the loop body, for `dirs[m.next]`: run the tool with
      its standard output appended to the buffer, validate the buffer, log
      the ref and reset the buffer. */
  function Step(dirs: seq<string>, oracle: Oracle, m: Machine): (r: Machine)
    requires m.halted.None? && m.next < |dirs|
    ensures r.commands == m.commands + [Args(dirs[m.next])]
    ensures r.halted.None? ==> r.next == m.next + 1 && r.buffer == ""
    ensures r.halted.Some? ==> r.log == m.log
    ensures m.buffer == "" ==> (r.halted.None? <==> Good(dirs, oracle, m.next))
    ensures m.buffer == "" && r.halted.None? ==>
              r.log == m.log + [Entry(dirs[m.next], RefAt(dirs, oracle, m.next))]
    ensures m.buffer == "" && r.halted.Some? ==> r.halted.value == ErrorAt(dirs, oracle, m.next)
  {
    var dir := dirs[m.next];
    var args := Args(dir);
    var commands := m.commands + [args];
    var o := oracle(m.next, args);
    if o.Failed? then
      m.(commands := commands, halted := Some(UploadFailed(dir)))
    else
      var buffer := m.buffer + o.stdout;
      assert m.buffer == "" ==> buffer == o.stdout;
      var res := DirBlobRef(buffer);
      if res.Err? then
        m.(commands := commands, buffer := buffer, halted := Some(res.error))
      else
        Machine(m.next + 1, "", commands, m.log + [Entry(dir, res.value)], None)
  }

  /** Directory `i` uploads cleanly when its run exits normally and what it
      printed, on its own, is a blob ref. */
  predicate Good(dirs: seq<string>, oracle: Oracle, i: nat)
    requires i < |dirs|
  {
    var o := oracle(i, Args(dirs[i]));
    o.Exited? && DirBlobRef(o.stdout).Ok?
  }

  /** The blob ref directory `i` yields when it uploads cleanly. */
  function RefAt(dirs: seq<string>, oracle: Oracle, i: nat): string
    requires i < |dirs| && Good(dirs, oracle, i)
  {
    DirBlobRef(oracle(i, Args(dirs[i])).stdout).value
  }

  /** The fatal error directory `i` causes when it does not. */
  function ErrorAt(dirs: seq<string>, oracle: Oracle, i: nat): Fatal
    requires i < |dirs| && !Good(dirs, oracle, i)
  {
    var o := oracle(i, Args(dirs[i]));
    if o.Failed? then UploadFailed(dirs[i]) else DirBlobRef(o.stdout).error
  }

  /** Reference description of a finished loop: the directories are tried
      in order with arguments `["file", dir]`; the log holds one entry per
      directory before the first bad one, in order, and nothing else; the
      loop ends without error exactly when no directory is bad. */
  predicate Conforms(dirs: seq<string>, oracle: Oracle,
                     commands: seq<seq<string>>, log: seq<string>, err: Option<Fatal>)
  {
    && |log| <= |dirs|
    && (forall i :: 0 <= i < |log| ==>
          Good(dirs, oracle, i) && log[i] == Entry(dirs[i], RefAt(dirs, oracle, i)))
    && (err.None? ==> |log| == |dirs|)
    && (err.Some? ==> |log| < |dirs| && !Good(dirs, oracle, |log|)
                      && err.value == ErrorAt(dirs, oracle, |log|))
    && |commands| == (if err.None? then |dirs| else |log| + 1)
    && (forall i :: 0 <= i < |commands| ==> i < |dirs| && commands[i] == Args(dirs[i]))
  }

  /** The state at the head of the loop after `m.next` clean uploads: the
      buffer has been reset, and commands and log agree with the reference
      for every directory so far. */
  predicate Running(dirs: seq<string>, oracle: Oracle, m: Machine) {
    && m.halted.None?
    && m.next <= |dirs|
    && m.buffer == ""
    && |m.log| == m.next
    && |m.commands| == m.next
    && (forall i :: 0 <= i < m.next ==>
          Good(dirs, oracle, i) && m.log[i] == Entry(dirs[i], RefAt(dirs, oracle, i)))
    && (forall i :: 0 <= i < m.next ==> m.commands[i] == Args(dirs[i]))
  }

  /** One clean iteration keeps the head-of-loop invariant. */
  lemma StepKeepsRunning(dirs: seq<string>, oracle: Oracle, m: Machine)
    requires Running(dirs, oracle, m) && m.next < |dirs|
    requires Step(dirs, oracle, m).halted.None?
    ensures Running(dirs, oracle, Step(dirs, oracle, m))
  {
    var r := Step(dirs, oracle, m);
    assert Good(dirs, oracle, m.next);
    var e := Entry(dirs[m.next], RefAt(dirs, oracle, m.next));
    assert r == Machine(m.next + 1, "", m.commands + [Args(dirs[m.next])], m.log + [e], None);
    ExtendRunning(dirs, oracle, m);
  }

  /** Appending the next directory's command and log entry to a head-of-loop
      state, when that directory uploads cleanly, gives the next head-of-loop
      state. */
  lemma ExtendRunning(dirs: seq<string>, oracle: Oracle, m: Machine)
    requires Running(dirs, oracle, m) && m.next < |dirs| && Good(dirs, oracle, m.next)
    ensures Running(dirs, oracle,
              Machine(m.next + 1, "", m.commands + [Args(dirs[m.next])],
                      m.log + [Entry(dirs[m.next], RefAt(dirs, oracle, m.next))], None))
  {
    var log := m.log + [Entry(dirs[m.next], RefAt(dirs, oracle, m.next))];
    var commands := m.commands + [Args(dirs[m.next])];
    forall i | 0 <= i < m.next + 1
      ensures Good(dirs, oracle, i) && log[i] == Entry(dirs[i], RefAt(dirs, oracle, i))
      ensures commands[i] == Args(dirs[i])
    {
      if i < m.next {
        assert log[i] == m.log[i];
        assert commands[i] == m.commands[i];
      }
    }
  }

  /** A fatal iteration leaves a state that conforms to the reference. */
  lemma StepHaltConforms(dirs: seq<string>, oracle: Oracle, m: Machine)
    requires Running(dirs, oracle, m) && m.next < |dirs|
    requires Step(dirs, oracle, m).halted.Some?
    ensures var r := Step(dirs, oracle, m);
            Conforms(dirs, oracle, r.commands, r.log, r.halted)
  {
    var r := Step(dirs, oracle, m);
    assert r.commands == m.commands + [Args(dirs[m.next])];
    assert r.log == m.log;
  }

  /** The loop from a head-of-loop state to the end: it stops at the end of
      the list or at the first fatal error, and what it leaves behind
      conforms to the reference. */
  function RunFrom(dirs: seq<string>, oracle: Oracle, m: Machine): (r: Machine)
    requires Running(dirs, oracle, m)
    ensures Conforms(dirs, oracle, r.commands, r.log, r.halted)
    ensures r.halted.None? ==> r.buffer == ""
    decreases |dirs| - m.next
  {
    if m.next == |dirs| then m
    else
      var m' := Step(dirs, oracle, m);
      if m'.halted.Some? then
        StepHaltConforms(dirs, oracle, m);
        m'
      else
        StepKeepsRunning(dirs, oracle, m);
        RunFrom(dirs, oracle, m')
  }

  /** The whole loop over `dirs`. */
  function Upload(dirs: seq<string>, oracle: Oracle): (r: Machine)
    ensures Conforms(dirs, oracle, r.commands, r.log, r.halted)
  {
    RunFrom(dirs, oracle, Start)
  }

  /** The loop as the source writes it, with the captured output kept in
      one buffer that is reset after each directory. */
  method UploadLoop(dirs: seq<string>, oracle: Oracle)
    returns (commands: seq<seq<string>>, log: seq<string>, err: Option<Fatal>)
    ensures Conforms(dirs, oracle, commands, log, err)
  {
    commands, log, err := [], [], None;
    var output := "";
    var i := 0;
    while i < |dirs|
      invariant Running(dirs, oracle, Machine(i, output, commands, log, None))
    {
      ghost var m := Machine(i, output, commands, log, None);
      ghost var m' := Step(dirs, oracle, m);
      var dir := dirs[i];
      var args := CommonArgs + [dir];
      commands := commands + [args];
      var o := oracle(i, args);
      if o.Failed? {
        err := Some(UploadFailed(dir));
        StepHaltConforms(dirs, oracle, m);
        assert m'.commands == commands && m'.log == log && m'.halted == err;
        return;
      }
      output := output + o.stdout;
      var res := DirBlobRef(output);
      if res.Err? {
        err := Some(res.error);
        StepHaltConforms(dirs, oracle, m);
        assert m'.commands == commands && m'.log == log && m'.halted == err;
        return;
      }
      log := log + [Entry(dir, res.value)];
      output := "";
      i := i + 1;
      StepKeepsRunning(dirs, oracle, m);
      assert m' == Machine(i, output, commands, log, None);
    }
  }

  /** The reference pins the outcome down: two finished loops over the same
      directories and oracle that both conform are the same. */
  lemma ConformsUnique(dirs: seq<string>, oracle: Oracle,
                       c1: seq<seq<string>>, l1: seq<string>, e1: Option<Fatal>,
                       c2: seq<seq<string>>, l2: seq<string>, e2: Option<Fatal>)
    requires Conforms(dirs, oracle, c1, l1, e1)
    requires Conforms(dirs, oracle, c2, l2, e2)
    ensures c1 == c2 && l1 == l2 && e1 == e2
  {
    assert |l1| == |l2|;
    assert l1 == l2;
    assert c1 == c2;
  }

  // The lemmas below are stated for any outcome that conforms to the
  // reference, so they hold of both `Upload` and `UploadLoop`.

  /** When every run succeeds and prints the same ref `b` (with the tool's
      trailing newline), the log gains exactly one `dir: b` line per
      directory, in order, and no error is reported. */
  lemma AllSucceed(dirs: seq<string>, oracle: Oracle, b: string,
                   commands: seq<seq<string>>, log: seq<string>, err: Option<Fatal>)
    requires Shape(b)
    requires forall i :: 0 <= i < |dirs| ==> oracle(i, Args(dirs[i])) == Exited(b + "\n")
    requires Conforms(dirs, oracle, commands, log, err)
    ensures err.None?
    ensures log == seq(|dirs|, i requires 0 <= i < |dirs| => Entry(dirs[i], b))
  {
    EveryDirGood(dirs, oracle, b);
    if err.Some? {
      assert false;
    }
    assert |log| == |dirs|;
  }

  lemma EveryDirGood(dirs: seq<string>, oracle: Oracle, b: string)
    requires Shape(b)
    requires forall i :: 0 <= i < |dirs| ==> oracle(i, Args(dirs[i])) == Exited(b + "\n")
    ensures forall i :: 0 <= i < |dirs| ==> Good(dirs, oracle, i) && RefAt(dirs, oracle, i) == b
  {
    DirBlobRefAccepts(b);
  }

  /** If directory `k` is the first that does not upload cleanly, the log
      holds exactly the entries of the directories before it, the error is
      the one directory `k` caused, and no directory after it is tried. */
  lemma FirstFailureStops(dirs: seq<string>, oracle: Oracle, k: nat,
                          commands: seq<seq<string>>, log: seq<string>, err: Option<Fatal>)
    requires k < |dirs|
    requires forall i :: 0 <= i < k ==> Good(dirs, oracle, i)
    requires !Good(dirs, oracle, k)
    requires Conforms(dirs, oracle, commands, log, err)
    ensures |log| == k
    ensures err == Some(ErrorAt(dirs, oracle, k))
    ensures |commands| == k + 1
  {
    if err.None? {
      assert false;
    }
    if |log| < k {
      assert false;
    }
  }

  /** Three directories, the second of which fails to upload: exactly one
      log line, for the first, and the third is never tried. */
  lemma SecondOfThreeFails(dirs: seq<string>, oracle: Oracle, b: string,
                           commands: seq<seq<string>>, log: seq<string>, err: Option<Fatal>)
    requires |dirs| == 3 && Shape(b)
    requires oracle(0, Args(dirs[0])) == Exited(b + "\n")
    requires oracle(1, Args(dirs[1])) == Failed
    requires Conforms(dirs, oracle, commands, log, err)
    ensures log == [dirs[0] + ": " + b]
    ensures err == Some(UploadFailed(dirs[1]))
    ensures commands == [Args(dirs[0]), Args(dirs[1])]
  {
    PrintedRefIsGood(dirs, oracle, 0, b);
    FirstFailureStops(dirs, oracle, 1, commands, log, err);
    assert log == [log[0]];
    assert commands == [commands[0], commands[1]];
  }

  /** A run that prints a blob ref and a newline uploads cleanly, with that
      ref. */
  lemma PrintedRefIsGood(dirs: seq<string>, oracle: Oracle, i: nat, b: string)
    requires i < |dirs| && Shape(b)
    requires oracle(i, Args(dirs[i])) == Exited(b + "\n")
    ensures Good(dirs, oracle, i) && RefAt(dirs, oracle, i) == b
  {
    DirBlobRefAccepts(b);
  }
}
