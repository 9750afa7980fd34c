// The abstract filesystem and outside world the provisioning logic acts on,
// and the primitive effects it has on them: access, chmod, mkdir and
// running a command.

module FileSystem {
  import opened KrownTypes
  import opened Paths
  import opened Process

  // Permission bits, written in hexadecimal: 0x1C0 is 0700, 0x180 is 0600,
  // 0x1A4 is 0644 and 0x1FF is 0777.
  const SSH_DIR_MODE: bv12 := 0x1C0
  const PRIVATE_KEY_MODE: bv12 := 0x180
  const PUBLIC_KEY_MODE: bv12 := 0x1A4
  const PERMISSION_BITS: bv12 := 0x1FF

  datatype Kind = Directory | Regular

  /** One filesystem entry: its kind, its mode bits (permissions and the
      set-id and sticky bits), its bytes, and whether it can be opened for reading. */
  datatype Entry = Entry(kind: Kind, mode: bv12, content: seq<char>, readable: bool)

  /** The commands the module runs: the two probes of ssh-keygen, and key
      generation of a type into a private key path. */
  datatype Command = HelpProbe | VersionProbe | Keygen(keyType: KeyType, target: Path)

  /** The files a key generation leaves behind. */
  datatype KeyFiles = NoFiles | PrivateOnly(priv: Entry) | BothFiles(priv: Entry, pub: Entry)

  /** The fate of one spawned command: its status, what it writes to its
      standard output, and (for key generation) the files it writes. */
  datatype Outcome = Outcome(status: ProcessStatus, output: seq<char>, written: KeyFiles)

  /** The observable state: the entries that exist, and every command run so far. */
  datatype Disk = Disk(files: map<Path, Entry>, log: seq<Command>)

  /** The outside world as oracles: the environment, the process umask,
      whether mkdir and chmod are permitted on a path, and the outcome of
      the n-th command the process runs. */
  datatype World = World(
    env: Env,
    umask: bv12,
    mkdirOk: Path -> bool,
    chmodOk: Path -> bool,
    run: (Command, nat) -> Outcome)

  /** access(path, F_OK) == 0 */
  predicate FileExists(d: Disk, p: Path)
  {
    p in d.files
  }

  /** set_file_permissions / chmod: sets the whole mode of an existing entry
      the world lets us change; fails, changing nothing, otherwise. */
  function Chmod(w: World, d: Disk, p: Path, m: bv12): (r: (bool, Disk))
    ensures r.0 <==> p in d.files && w.chmodOk(p)
    ensures r.0 ==> r.1 == d.(files := d.files[p := d.files[p].(mode := m)])
    ensures !r.0 ==> r.1 == d
  {
    if p in d.files && w.chmodOk(p) then
      (true, d.(files := d.files[p := d.files[p].(mode := m)]))
    else
      (false, d)
  }

  /** mkdir(path, 0700): a new directory whose mode is 0700 less the umask bits. */
  function Mkdir(w: World, d: Disk, p: Path): (r: (bool, Disk))
    requires p !in d.files
    ensures r.0 <==> w.mkdirOk(p)
    ensures r.0 ==> p in r.1.files && r.1.files[p].kind == Directory &&
                    r.1.files[p].mode == SSH_DIR_MODE & !w.umask
    ensures r.1.log == d.log
    ensures forall q :: q != p ==> (q in r.1.files <==> q in d.files)
    ensures forall q :: q in d.files ==> r.1.files[q] == d.files[q]
    ensures !r.0 ==> r.1 == d
  {
    if w.mkdirOk(p) then
      (true, d.(files := d.files[p := Entry(Directory, SSH_DIR_MODE & !w.umask, [], true)]))
    else
      (false, d)
  }

  /** The files a finished command has written: only key generation writes,
      to its target and to the target plus ".pub"; a command that never
      started writes nothing. */
  function Written(c: Command, o: Outcome): (m: map<Path, Entry>)
    ensures !c.Keygen? || o.status.SpawnFailed? ==> m == map[]
    ensures c.Keygen? ==> m.Keys <= {c.target, c.target + ".pub"}
  {
    if o.status.SpawnFailed? then map[]
    else match c
      case Keygen(_, target) =>
        (match o.written
         case NoFiles => map[]
         case PrivateOnly(e) => map[target := e]
         case BothFiles(e, f) => map[target := e, target + ".pub" := f])
      case _ => map[]
  }

  /** execute_command: runs the next command, records it, applies what it
      writes, and returns its normalised exit status. */
  function RunCommand(w: World, d: Disk, c: Command): (r: (int, Disk))
    ensures r.1.log == d.log + [c]
    ensures r.0 == ExitStatus(w.run(c, |d.log|).status)
    ensures d.files.Keys <= r.1.files.Keys
    ensures forall p :: p in d.files && p !in Written(c, w.run(c, |d.log|)) ==> r.1.files[p] == d.files[p]
    ensures !c.Keygen? ==> r.1.files == d.files
    ensures r.1.files.Keys <= d.files.Keys + Written(c, w.run(c, |d.log|)).Keys
    ensures forall p :: p in Written(c, w.run(c, |d.log|)) ==>
      p in r.1.files && r.1.files[p] == Written(c, w.run(c, |d.log|))[p]
  {
    var o := w.run(c, |d.log|);
    (ExitStatus(o.status), Disk(d.files + Written(c, o), d.log + [c]))
  }

  /** krown_check_openssh_client: probe with --help, and with -V only when
      --help did not answer 0 or 1; the last answer decides. */
  function CheckOpensshClient(w: World, d: Disk): (r: (bool, Disk))
  {
    var (help, d1) := RunCommand(w, d, HelpProbe);
    if Available(help) then (true, d1)
    else
      var (version, d2) := RunCommand(w, d1, VersionProbe);
      (Available(version), d2)
  }

  /** The tool is reported available exactly when the last probe run answered
      0 or 1; the -V probe runs only after --help answered something else;
      probes never touch files. */
  lemma CheckOpensshClientSpec(w: World, d: Disk)
    ensures var (ok, d') := CheckOpensshClient(w, d);
      var help := ExitStatus(w.run(HelpProbe, |d.log|).status);
      var version := ExitStatus(w.run(VersionProbe, |d.log| + 1).status);
      d'.files == d.files &&
      (Available(help) ==> ok && d'.log == d.log + [HelpProbe]) &&
      (!Available(help) ==> d'.log == d.log + [HelpProbe, VersionProbe] && (ok <==> Available(version)))
  {
    var (_, d1) := RunCommand(w, d, HelpProbe);
    assert |d1.log| == |d.log| + 1;
  }

  /** A probe that cannot be spawned, or a child killed by a signal, never
      counts as the tool being present. */
  lemma CheckOpensshClientRefusesNonExit(w: World, d: Disk)
    requires !w.run(HelpProbe, |d.log|).status.Exited?
    requires !w.run(VersionProbe, |d.log| + 1).status.Exited?
    ensures !CheckOpensshClient(w, d).0
  {
    CheckOpensshClientSpec(w, d);
  }

  /** The number of key generations in a command log. */
  function Keygens(log: seq<Command>): (n: nat)
    ensures n <= |log|
  {
    if log == [] then 0
    else Keygens(log[..|log| - 1]) + (if log[|log| - 1].Keygen? then 1 else 0)
  }

  lemma {:induction false} KeygensAppend(a: seq<Command>, b: seq<Command>)
    ensures Keygens(a + b) == Keygens(a) + Keygens(b)
    decreases |b|
  {
    if b == [] {
      assert a + b == a;
    } else {
      var b' := b[..|b| - 1];
      assert (a + b)[..|a + b| - 1] == a + b';
      KeygensAppend(a, b');
    }
  }

  /** `d'` comes after `d`: no entry disappears and the log only grows. */
  predicate Extends(d: Disk, d': Disk)
  {
    d.files.Keys <= d'.files.Keys && d.log <= d'.log
  }

  /** The key generations run between `d` and a later `d'`. */
  function KeygensBetween(d: Disk, d': Disk): nat
    requires d.log <= d'.log
  {
    Keygens(d'.log[|d.log|..])
  }

  lemma KeygensBetweenTrans(d1: Disk, d2: Disk, d3: Disk)
    requires d1.log <= d2.log && d2.log <= d3.log
    ensures d1.log <= d3.log
    ensures KeygensBetween(d1, d3) == KeygensBetween(d1, d2) + KeygensBetween(d2, d3)
  {
    assert d3.log[|d1.log|..] == d2.log[|d1.log|..] + d3.log[|d2.log|..];
    KeygensAppend(d2.log[|d1.log|..], d3.log[|d2.log|..]);
  }

  /** Running a command adds one key generation exactly when it is one. */
  lemma RunCommandKeygens(w: World, d: Disk, c: Command)
    ensures d.log <= RunCommand(w, d, c).1.log
    ensures KeygensBetween(d, RunCommand(w, d, c).1) == if c.Keygen? then 1 else 0
  {
    var d' := RunCommand(w, d, c).1;
    assert d'.log[|d.log|..] == [c];
    assert [c][..0] == [];
  }

  lemma CheckOpensshClientKeygens(w: World, d: Disk)
    ensures d.log <= CheckOpensshClient(w, d).1.log
    ensures KeygensBetween(d, CheckOpensshClient(w, d).1) == 0
  {
    var (help, d1) := RunCommand(w, d, HelpProbe);
    RunCommandKeygens(w, d, HelpProbe);
    if !Available(help) {
      RunCommandKeygens(w, d1, VersionProbe);
      KeygensBetweenTrans(d, d1, RunCommand(w, d1, VersionProbe).1);
    }
  }

  /** `d'` differs from `d` at most in the modes of its entries. */
  predicate ModesOnly(d: Disk, d': Disk)
  {
    d'.files.Keys == d.files.Keys &&
    forall p :: p in d.files ==> d'.files[p] == d.files[p].(mode := d'.files[p].mode)
  }

  /** Every entry of `d` is still in `d'` with the same kind, content and
      readability; entries may have been added and modes changed. */
  predicate ContentsKept(d: Disk, d': Disk)
  {
    d.files.Keys <= d'.files.Keys &&
    forall p :: p in d.files ==> d'.files[p] == d.files[p].(mode := d'.files[p].mode)
  }

  lemma ContentsKeptTrans(d1: Disk, d2: Disk, d3: Disk)
    requires ContentsKept(d1, d2) && ContentsKept(d2, d3)
    ensures ContentsKept(d1, d3)
  {
    forall p | p in d1.files
      ensures d3.files[p] == d1.files[p].(mode := d3.files[p].mode)
    {
      assert d2.files[p] == d1.files[p].(mode := d2.files[p].mode);
    }
  }
}
