// The module as the C code runs it: one machine whose files and command log
// the functions change step by step, and the caller's buffers they write
// into. Each method is proved to leave the machine in the state, and to
// return the code, that the corresponding function of the model gives.

module Host {
  import opened KrownTypes
  import opened Paths
  import opened Process
  import opened FileSystem
  import KeyStore
  import Provision

  /** The number of bytes a caller says its buffer holds: none for a null buffer. */
  function Capacity(buffer: array?<char>): nat
  {
    if buffer == null then 0 else buffer.Length
  }

  /** A stage's result code and key type as a step of the model: going on
      with the key type on success, stopped with the code otherwise. */
  function StepOf(r: AuthResult, t: KeyType, d: Disk): Provision.Step
  {
    if r == Success then Provision.Continue(t, d) else Provision.Stop(r, d)
  }

  /** The machine the process runs on: what its filesystem holds, every
      command the process has run, and the outside world it cannot control. */
  class Machine {
    var files: map<Path, Entry>
    var log: seq<Command>
    const world: World

    constructor (world: World, files: map<Path, Entry>)
      ensures this.world == world && this.files == files && log == []
    {
      this.world := world;
      this.files := files;
      log := [];
    }

    /** The machine's state as the model sees it. */
    function Snapshot(): Disk
      reads this
    {
      Disk(files, log)
    }

    // -------------------------------------------------------------------
    // Primitives

    /** file_exists */
    method FileExists(p: Path) returns (b: bool)
      ensures b == FileSystem.FileExists(Snapshot(), p)
    {
      b := p in files;
    }

    /** set_file_permissions: true when chmod succeeded. */
    method SetFilePermissions(p: Path, m: bv12) returns (ok: bool)
      modifies this
      ensures (ok, Snapshot()) == Chmod(world, old(Snapshot()), p, m)
    {
      if p in files && world.chmodOk(p) {
        files := files[p := files[p].(mode := m)];
        ok := true;
      } else {
        ok := false;
      }
    }

    /** mkdir(path, 0700), on a path that does not exist yet. */
    method MakeDirectory(p: Path) returns (ok: bool)
      requires p !in files
      modifies this
      ensures (ok, Snapshot()) == Mkdir(world, old(Snapshot()), p)
    {
      if world.mkdirOk(p) {
        files := files[p := Entry(Directory, SSH_DIR_MODE & !world.umask, [], true)];
        ok := true;
      } else {
        ok := false;
      }
    }

    /** execute_command without an output buffer: spawn the command, drain
        its output line by line, and reduce how it ended to one integer. */
    method ExecuteCommand(c: Command) returns (status: int)
      modifies this
      ensures (status, Snapshot()) == RunCommand(world, old(Snapshot()), c)
    {
      var o := world.run(c, |log|);
      log := log + [c];
      if o.status.SpawnFailed? {
        assert files + Written(c, o) == files;
        return -1;
      }
      var pipe := new Pipe(o.output);
      pipe.Drain();
      files := files + Written(c, o);
      if o.status.Exited? {
        status := o.status.code % 256;
      } else {
        status := -1;
      }
    }

    /** snprintf of `s` into a buffer: at most Length - 1 bytes, then a NUL. */
    method StoreString(buffer: array<char>, s: string)
      requires buffer.Length > 0
      modifies buffer
      ensures var k := |Truncated(s, buffer.Length)|;
        buffer[..k] == Truncated(s, buffer.Length) && buffer[k] == NUL &&
        buffer[k + 1..] == old(buffer[k + 1..])
    {
      var t := Truncated(s, buffer.Length);
      forall i | 0 <= i < |t| {
        buffer[i] := t[i];
      }
      buffer[|t|] := NUL;
    }

    // -------------------------------------------------------------------
    // The public functions and the helpers they share

    /** krown_check_openssh_client */
    method CheckOpensshClient() returns (available: bool)
      modifies this
      ensures (available, Snapshot()) == FileSystem.CheckOpensshClient(world, old(Snapshot()))
    {
      var result := ExecuteCommand(HelpProbe);
      if result != 0 && result != 1 {
        result := ExecuteCommand(VersionProbe);
      }
      available := result == 0 || result == 1;
    }

    /** krown_ensure_ssh_directory */
    method EnsureSshDirectory() returns (r: AuthResult)
      modifies this
      ensures (r, Snapshot()) == KeyStore.EnsureSshDirectory(world, old(Snapshot()))
    {
      var dir := SshDirPath(world.env);
      if dir.None? {
        return ErrSshDir;
      }
      var present := FileExists(dir.value);
      if !present {
        r := CreateDirectory(dir.value);
      } else {
        r := RepairDirectoryMode(dir.value);
      }
    }

    /** The branch of krown_ensure_ssh_directory for a missing directory. */
    method CreateDirectory(dir: Path) returns (r: AuthResult)
      requires dir !in files
      modifies this
      ensures var (made, d') := Mkdir(world, old(Snapshot()), dir);
        r == (if made then Success else ErrSshDir) && Snapshot() == d'
    {
      var made := MakeDirectory(dir);
      r := if made then Success else ErrSshDir;
    }

    /** The branch of krown_ensure_ssh_directory for an existing directory:
        its permission bits are set back to 0700 when they differ. */
    method RepairDirectoryMode(dir: Path) returns (r: AuthResult)
      requires dir in files
      modifies this
      ensures old(files[dir].mode) & PERMISSION_BITS == SSH_DIR_MODE ==>
        r == Success && Snapshot() == old(Snapshot())
      ensures old(files[dir].mode) & PERMISSION_BITS != SSH_DIR_MODE ==>
        var (changed, d') := Chmod(world, old(Snapshot()), dir, SSH_DIR_MODE);
        r == (if changed then Success else ErrPermissions) && Snapshot() == d'
    {
      var currentMode := files[dir].mode & PERMISSION_BITS;
      if currentMode != SSH_DIR_MODE {
        var changed := SetFilePermissions(dir, SSH_DIR_MODE);
        r := if changed then Success else ErrPermissions;
      } else {
        r := Success;
      }
    }

    /** krown_keys_exist */
    method KeysExist(t: KeyType) returns (b: bool)
      ensures b == KeyStore.KeysExist(world.env, Snapshot(), t)
    {
      var priv := PrivateKeyPath(world.env, t);
      if priv.None? {
        return false;
      }
      var pub := PubPath(priv.value);
      if pub.None? {
        return false;
      }
      var privExists := FileExists(priv.value);
      if !privExists {
        return false;
      }
      b := FileExists(pub.value);
    }

    /** krown_generate_ssh_keys */
    method GenerateSshKeys(t: KeyType, force: bool) returns (r: AuthResult)
      modifies this
      ensures (r, Snapshot()) == KeyStore.GenerateSshKeys(world, old(Snapshot()), t, force)
    {
      var tool := CheckOpensshClient();
      if !tool {
        return ErrOpensshNotFound;
      }
      r := EnsureSshDirectory();
      if r != Success {
        return r;
      }
      var present := KeysExist(t);
      if present && !force {
        return Success;
      }
      ghost var before := Snapshot();
      var priv := PrivateKeyPath(world.env, t);
      if priv.None? {
        return ErrSshDir;
      }
      var exitCode := ExecuteCommand(Keygen(t, priv.value));
      if exitCode != 0 {
        return ErrKeyGen;
      }
      ghost var generated := Snapshot();
      var ok := SetFilePermissions(priv.value, PRIVATE_KEY_MODE);
      if !ok {
        return ErrPermissions;
      }
      var pub := PubPath(priv.value);
      if pub.None? {
        return ErrSshDir;
      }
      ok := SetFilePermissions(pub.value, PUBLIC_KEY_MODE);
      if !ok {
        return ErrPermissions;
      }
      assert (Success, Snapshot()) == KeyStore.ChmodPair(world, generated, priv.value);
      assert (Success, Snapshot()) == KeyStore.RunKeygen(world, before, t);
      return Success;
    }

    /** krown_get_public_key_path: the path, or as much of it as fits,
        is written into the caller's buffer. */
    method GetPublicKeyPath(t: KeyType, buffer: array?<char>) returns (r: AuthResult)
      modifies buffer
      ensures var p := Paths.GetPublicKeyPath(world.env, t, buffer != null, Capacity(buffer));
        r == StatusOf(p) &&
        (p.Ok? ==> buffer[..|p.value|] == p.value && buffer[|p.value|] == NUL)
    {
      if buffer == null || buffer.Length == 0 {
        return ErrMemory;
      }
      var home := HomeDirectory(world.env, MAX_PATH_LENGTH);
      if home.None? {
        return ErrSshDir;
      }
      var path := home.value + "/.ssh/" + PublicKeyName(t);
      StoreString(buffer, path);
      var ret := if |path| > INT_MAX then -1 else |path|;
      if ret < 0 || ret >= CInt(buffer.Length) {
        return ErrSshDir;
      }
      return Success;
    }

    /** krown_get_public_key: the key file's first Length - 1 bytes at most,
        less one trailing newline, are left in the caller's buffer before a NUL. */
    method GetPublicKey(t: KeyType, buffer: array?<char>) returns (r: AuthResult)
      modifies buffer
      ensures var k := KeyStore.GetPublicKey(world, Snapshot(), t, buffer != null, Capacity(buffer));
        r == StatusOf(k) &&
        (k.Ok? ==> buffer[..|k.value|] == k.value && buffer[|k.value|] == NUL)
    {
      if buffer == null || buffer.Length == 0 {
        return ErrMemory;
      }
      var pathBuffer := new char[MAX_PATH_LENGTH];
      r := GetPublicKeyPath(t, pathBuffer);
      if r != Success {
        return r;
      }
      var path := Paths.GetPublicKeyPath(world.env, t, true, MAX_PATH_LENGTH).value;
      var present := FileExists(path);
      if !present || !files[path].readable {
        return ErrReadKey;
      }
      ReadKeyFile(files[path].content, buffer);
      return Success;
    }

    /** The read of krown_get_public_key: fread of at most Length - 1 bytes,
        a NUL after them, and a trailing newline overwritten by NUL. */
    method ReadKeyFile(content: seq<char>, buffer: array<char>)
      requires buffer.Length > 0
      modifies buffer
      ensures var s := KeyStore.ReadBack(content, buffer.Length);
        buffer[..|s|] == s && buffer[|s|] == NUL
    {
      var read := KeyStore.Min(|content|, buffer.Length - 1);
      forall i | 0 <= i < read {
        buffer[i] := content[i];
      }
      buffer[read] := NUL;
      if read > 0 && buffer[read - 1] == '\n' {
        buffer[read - 1] := NUL;
      }
    }

    /** ensure_key_permissions */
    method EnsureKeyPermissions(t: KeyType) returns (r: AuthResult)
      modifies this
      ensures (r, Snapshot()) == KeyStore.EnsureKeyPermissions(world, old(Snapshot()), t)
    {
      var priv := PrivateKeyPath(world.env, t);
      if priv.None? {
        return ErrSshDir;
      }
      var pub := PubPath(priv.value);
      if pub.None? {
        return ErrSshDir;
      }
      var present := FileExists(priv.value);
      if present {
        var ok := SetFilePermissions(priv.value, PRIVATE_KEY_MODE);
        if !ok {
          return ErrPermissions;
        }
      }
      present := FileExists(pub.value);
      if present {
        var ok := SetFilePermissions(pub.value, PUBLIC_KEY_MODE);
        if !ok {
          return ErrPermissions;
        }
      }
      return Success;
    }

    /** Steps 3-4 of prepare_vm_for_krown: prefer Ed25519, generating it when
        absent, and fall back to RSA-4096. `r` is Success when the steps go on. */
    method ChooseKeyType() returns (r: AuthResult, keyType: KeyType)
      modifies this
      ensures StepOf(r, keyType, Snapshot()) == Provision.ChooseKeyType(world, old(Snapshot()))
    {
      keyType := Ed25519;
      var keysExist := KeysExist(keyType);
      if !keysExist {
        r := GenerateSshKeys(keyType, false);
        if r != Success {
          keyType := Rsa4096;
          keysExist := KeysExist(keyType);
          if !keysExist {
            r := GenerateSshKeys(keyType, false);
            if r != Success {
              return r, keyType;
            }
          }
        }
      }
      return Success, keyType;
    }

    /** Step 5: the chosen pair must really be there. */
    method RecheckKeys(t: KeyType) returns (r: AuthResult, keyType: KeyType)
      modifies this
      ensures StepOf(r, keyType, Snapshot()) == Provision.RecheckKeys(world, t, old(Snapshot()))
    {
      keyType := t;
      var keysExist := KeysExist(keyType);
      if !keysExist {
        if keyType == Ed25519 {
          keyType := Rsa4096;
          keysExist := KeysExist(keyType);
          if !keysExist {
            r := GenerateSshKeys(keyType, false);
            if r != Success {
              return r, keyType;
            }
          }
        } else {
          return ErrKeyGen, keyType;
        }
      }
      return Success, keyType;
    }

    /** Step 6: the public key must be readable into a 256-byte probe buffer;
        otherwise regenerate it, or adopt the other key type. */
    method CheckIntegrity(t: KeyType) returns (r: AuthResult, keyType: KeyType)
      modifies this
      ensures StepOf(r, keyType, Snapshot()) == Provision.CheckIntegrity(world, t, old(Snapshot()))
    {
      keyType := t;
      var probeBuffer := new char[Provision.PROBE_BUFFER_SIZE];
      r := GetPublicKey(keyType, probeBuffer);
      if r != Success {
        r := GenerateSshKeys(keyType, true);
        if r != Success {
          var fallback := if keyType == Ed25519 then Rsa4096 else Ed25519;
          var keysExist := KeysExist(fallback);
          if !keysExist {
            r := GenerateSshKeys(fallback, false);
            if r != Success {
              return r, keyType;
            }
            keyType := fallback;
          } else {
            keyType := fallback;
          }
        }
      }
      return Success, keyType;
    }

    /** prepare_vm_for_krown */
    method PrepareVmForKrown(publicKeyPath: array?<char>) returns (r: AuthResult)
      modifies this, publicKeyPath
      ensures var p := Provision.Prepare(world, old(Snapshot()), publicKeyPath != null, Capacity(publicKeyPath));
        r == p.code && Snapshot() == p.disk &&
        (r == Success ==>
           p.path.Some? &&
           publicKeyPath[..|p.path.value|] == p.path.value && publicKeyPath[|p.path.value|] == NUL)
    {
      if publicKeyPath == null || publicKeyPath.Length == 0 {
        return ErrMemory;
      }
      // 1-2. The tool, then <home>/.ssh.
      var tool := CheckOpensshClient();
      if !tool {
        return ErrOpensshNotFound;
      }
      r := EnsureSshDirectory();
      if r != Success {
        return r;
      }
      var keyType;
      r, keyType := ChooseKeyType();
      if r != Success {
        return r;
      }
      r, keyType := RecheckKeys(keyType);
      if r != Success {
        return r;
      }
      r, keyType := CheckIntegrity(keyType);
      if r != Success {
        return r;
      }
      // 7-8. Canonical modes, then the path for the caller.
      r := EnsureKeyPermissions(keyType);
      if r != Success {
        return r;
      }
      r := GetPublicKeyPath(keyType, publicKeyPath);
    }
  }
}
