// The command runner: how a child process's fate is reduced to one integer,
// the tool-availability test built on it, and the loop that drains the
// child's output when the caller does not want it.

module Process {

  /** What popen/pclose report about a child: it could not be started, it
      exited with the value it passed to exit(), or a signal ended it. */
  datatype ProcessStatus = SpawnFailed | Exited(code: int) | Signaled

  /** execute_command's normalisation: the exit status (the low 8 bits of the
      value passed to exit(), as WEXITSTATUS gives them), or -1 when the child
      could not be started or did not exit normally. */
  function ExitStatus(p: ProcessStatus): (s: int)
    ensures -1 <= s <= 255
    ensures s == -1 <==> !p.Exited?
    ensures p.Exited? ==> (s - p.code) % 256 == 0
  {
    match p
    case Exited(c) => c % 256
    case _ => -1
  }

  /** ssh-keygen answers its probes with 0 or 1; any other status, and -1
      above all, means the tool is not there. */
  predicate Available(status: int)
  {
    status == 0 || status == 1
  }

  lemma AvailableOnlyAfterExit(p: ProcessStatus)
    requires Available(ExitStatus(p))
    ensures p.Exited? && (p.code % 256 == 0 || p.code % 256 == 1)
  {
  }

  /** Capacity of the scratch buffer used to drain a child's output. */
  const DRAIN_BUFFER_SIZE: nat := 256

  /** Where one fgets call into a buffer of `room` + 1 bytes stops reading `s`
      from `from`: after the first newline, after `room` bytes, or at the end. */
  function LineEnd(s: seq<char>, from: nat, room: nat): (e: nat)
    requires from <= |s|
    ensures from <= e <= |s| && e - from <= room
    ensures from < |s| && room > 0 ==> from < e
    ensures forall i :: from <= i < e - 1 ==> s[i] != '\n'
    ensures e < |s| && e - from < room ==> from < e && s[e - 1] == '\n'
    decreases room
  {
    if room == 0 || from == |s| then from
    else if s[from] == '\n' then from + 1
    else LineEnd(s, from + 1, room - 1)
  }

  /** The read end of the pipe to a child, over everything the child writes. */
  class Pipe {
    const output: seq<char>
    var consumed: nat

    constructor (output: seq<char>)
      ensures this.output == output && consumed == 0
    {
      this.output := output;
      consumed := 0;
    }

    /** Reads and discards lines until end of stream, so that the child never
        blocks on a full pipe. */
    method Drain()
      requires consumed <= |output|
      modifies this
      ensures consumed == |output|
    {
      while consumed < |output|
        invariant consumed <= |output|
        decreases |output| - consumed
      {
        consumed := LineEnd(output, consumed, DRAIN_BUFFER_SIZE - 1);
      }
    }
  }
}
