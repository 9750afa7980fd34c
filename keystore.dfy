// The directory guardian and the key store, as functions from the state of
// the abstract filesystem to a result and the new state.

module KeyStore {
  import opened KrownTypes
  import opened Paths
  import opened Process
  import opened FileSystem

  /** The umask leaves the owner's bits alone, so mkdir(path, 0700) yields 0700. */
  predicate UmaskKeepsOwner(w: World)
  {
    w.umask & SSH_DIR_MODE == 0
  }

  /** <home>/.ssh exists and its permission bits are exactly 0700. */
  predicate DirOk(w: World, d: Disk)
  {
    SshDirPath(w.env).Some? &&
    SshDirPath(w.env).value in d.files &&
    d.files[SshDirPath(w.env).value].mode & PERMISSION_BITS == SSH_DIR_MODE
  }

  /** `d'` equals `d` at every path other than `p`. */
  predicate SameExcept(d: Disk, d': Disk, p: Path)
  {
    d'.log == d.log &&
    d'.files.Keys - {p} == d.files.Keys - {p} &&
    (forall q :: q != p && q in d.files ==> q in d'.files && d'.files[q] == d.files[q])
  }

  // ---------------------------------------------------------------------
  // krown_ensure_ssh_directory

  function EnsureSshDirectory(w: World, d: Disk): (AuthResult, Disk)
  {
    match SshDirPath(w.env)
    case None => (ErrSshDir, d)
    case Some(dir) =>
      if dir !in d.files then
        var (made, d1) := Mkdir(w, d, dir);
        if made then (Success, d1) else (ErrSshDir, d1)
      else if d.files[dir].mode & PERMISSION_BITS != SSH_DIR_MODE then
        var (changed, d1) := Chmod(w, d, dir, SSH_DIR_MODE);
        if changed then (Success, d1) else (ErrPermissions, d1)
      else
        (Success, d)
  }

  /** The failures of the directory guardian, and that a failure changes nothing. */
  lemma EnsureSshDirectoryFailures(w: World, d: Disk)
    ensures var (r, d') := EnsureSshDirectory(w, d);
      var dir := SshDirPath(w.env);
      (r == Success || r == ErrSshDir || r == ErrPermissions) &&
      (r == ErrSshDir <==> dir.None? || (dir.value !in d.files && !w.mkdirOk(dir.value))) &&
      (r == ErrPermissions <==>
         dir.Some? && dir.value in d.files &&
         d.files[dir.value].mode & PERMISSION_BITS != SSH_DIR_MODE && !w.chmodOk(dir.value)) &&
      (r != Success ==> d' == d)
  {
  }

  /** On success <home>/.ssh exists, with mode 0700 unless the umask removed
      owner bits from a directory it had to create, and nothing else changed. */
  lemma EnsureSshDirectorySuccess(w: World, d: Disk)
    requires EnsureSshDirectory(w, d).0 == Success
    ensures SshDirPath(w.env).Some?
    ensures var (_, d') := EnsureSshDirectory(w, d);
      var dir := SshDirPath(w.env).value;
      dir in d'.files &&
      SameExcept(d, d', dir) &&
      (dir in d.files ==> d'.files[dir].mode & PERMISSION_BITS == SSH_DIR_MODE) &&
      (dir !in d.files ==> d'.files[dir].kind == Directory && d'.files[dir].mode == SSH_DIR_MODE & !w.umask) &&
      (UmaskKeepsOwner(w) ==> DirOk(w, d'))
  {
    var dir := SshDirPath(w.env).value;
    var d' := EnsureSshDirectory(w, d).1;
    if dir !in d.files {
      assert d'.files[dir].mode == SSH_DIR_MODE & !w.umask;
    }
  }

  /** A directory already in order is left alone. */
  lemma EnsureSshDirectoryIdempotent(w: World, d: Disk)
    requires DirOk(w, d)
    ensures EnsureSshDirectory(w, d) == (Success, d)
  {
  }

  // ---------------------------------------------------------------------
  // krown_keys_exist

  /** Both key files of a type exist; false whenever a path cannot be built. */
  predicate KeysExist(env: Env, d: Disk, t: KeyType)
  {
    match PrivateKeyPath(env, t)
    case None => false
    case Some(priv) =>
      match PubPath(priv)
      case None => false
      case Some(pub) => priv in d.files && pub in d.files
  }

  /** krown_keys_exist as written: the `.pub` path is the truncating append. */
  predicate KeysExistAsWritten(env: Env, d: Disk, t: KeyType)
  {
    match PrivateKeyPath(env, t)
    case None => false
    case Some(priv) => priv in d.files && PubPathOf(priv) in d.files
  }

  /** The as-written and the corrected test agree wherever the `.pub` path
      fits. For a 511-byte private key path the as-written test asks only for
      the private key, so a lone private key passes as a pair. */
  lemma KeysExistAsWrittenDiffers(env: Env, d: Disk, t: KeyType)
    requires PrivateKeyPath(env, t).Some?
    ensures var priv := PrivateKeyPath(env, t).value;
      (PubPath(priv).Some? ==> (KeysExistAsWritten(env, d, t) <==> KeysExist(env, d, t))) &&
      (|priv| == MAX_PATH_LENGTH - 1 ==>
         (KeysExistAsWritten(env, d, t) <==> priv in d.files) && !KeysExist(env, d, t))
  {
    var priv := PrivateKeyPath(env, t).value;
    if |priv| == MAX_PATH_LENGTH - 1 {
      TruncatedPubPathIsPrivatePath(priv);
    }
  }

  /** The pair exists exactly when <home>/.ssh/<name> and <home>/.ssh/<name>.pub
      do, which needs both paths to fit. */
  lemma KeysExistIff(env: Env, d: Disk, t: KeyType)
    ensures KeysExist(env, d, t) <==>
      HomeDirectory(env, MAX_PATH_LENGTH).Some? &&
      var prefix := HomeDirectory(env, MAX_PATH_LENGTH).value + "/.ssh/" + KeyName(t);
      |prefix + ".pub"| < MAX_PATH_LENGTH && prefix in d.files && prefix + ".pub" in d.files
  {
  }

  /** Existence only depends on which paths are present. */
  lemma KeysExistSameKeys(env: Env, d: Disk, d': Disk, t: KeyType)
    requires d.files.Keys <= d'.files.Keys
    ensures KeysExist(env, d, t) ==> KeysExist(env, d', t)
  {
  }

  // ---------------------------------------------------------------------
  // krown_generate_ssh_keys

  /** Applies the canonical modes to a freshly generated pair: 0600 to the
      private key, then 0644 to the `.pub` companion, whose path must fit. */
  function ChmodPair(w: World, d: Disk, priv: Path): (AuthResult, Disk)
  {
    var (privOk, d1) := Chmod(w, d, priv, PRIVATE_KEY_MODE);
    if !privOk then (ErrPermissions, d1)
    else match PubPath(priv)
      case None => (ErrSshDir, d1)
      case Some(pub) =>
        var (pubOk, d2) := Chmod(w, d1, pub, PUBLIC_KEY_MODE);
        if pubOk then (Success, d2) else (ErrPermissions, d2)
  }

  /** After a successful ChmodPair both files exist, the private key with
      mode 0600 and the public key with mode 0644. */
  lemma ChmodPairSuccess(w: World, d: Disk, priv: Path)
    requires ChmodPair(w, d, priv).0 == Success
    ensures PubPath(priv).Some?
    ensures var d' := ChmodPair(w, d, priv).1;
      var pub := PubPath(priv).value;
      priv in d'.files && pub in d'.files &&
      d'.files[priv].mode == PRIVATE_KEY_MODE && d'.files[pub].mode == PUBLIC_KEY_MODE &&
      ModesOnly(d, d') && d'.log == d.log
  {
  }

  /** The same two steps with the source's truncating `.pub` append. */
  function ChmodPairAsWritten(w: World, d: Disk, priv: Path): (AuthResult, Disk)
  {
    var (privOk, d1) := Chmod(w, d, priv, PRIVATE_KEY_MODE);
    if !privOk then (ErrPermissions, d1)
    else
      var (pubOk, d2) := Chmod(w, d1, PubPathOf(priv), PUBLIC_KEY_MODE);
      if pubOk then (Success, d2) else (ErrPermissions, d2)
  }

  /** With a private key path of 511 bytes the truncated `.pub` path is the
      private key itself: the steps succeed and leave the private key 0644. */
  lemma ChmodPairAsWrittenExposesPrivateKey(w: World, d: Disk, priv: Path)
    requires |priv| == MAX_PATH_LENGTH - 1
    requires priv in d.files && w.chmodOk(priv)
    ensures ChmodPairAsWritten(w, d, priv).0 == Success
    ensures ChmodPairAsWritten(w, d, priv).1.files[priv].mode == PUBLIC_KEY_MODE
  {
    TruncatedPubPathIsPrivatePath(priv);
  }

  /** Wherever the `.pub` path fits, the as-written steps are the corrected ones. */
  /** ChmodPair touches no entry but the pair's own two files. */
  lemma ChmodPairKeepsOthers(w: World, d: Disk, priv: Path, p: Path)
    requires p in d.files && p != priv && (PubPath(priv).None? || p != PubPath(priv).value)
    ensures p in ChmodPair(w, d, priv).1.files && ChmodPair(w, d, priv).1.files[p] == d.files[p]
  {
  }

  lemma ChmodPairAsWrittenAgrees(w: World, d: Disk, priv: Path)
    requires PubPath(priv).Some?
    ensures ChmodPairAsWritten(w, d, priv) == ChmodPair(w, d, priv)
  {
  }

  /** krown_generate_ssh_keys past its checks: build the private key path, run ssh-keygen on it, and
      apply the canonical modes. */
  function RunKeygen(w: World, d: Disk, t: KeyType): (AuthResult, Disk)
  {
    match PrivateKeyPath(w.env, t)
    case None => (ErrSshDir, d)
    case Some(priv) =>
      var (status, d1) := RunCommand(w, d, Keygen(t, priv));
      if status != 0 then (ErrKeyGen, d1)
      else ChmodPair(w, d1, priv)
  }

  function GenerateSshKeys(w: World, d: Disk, t: KeyType, force: bool): (AuthResult, Disk)
  {
    var (tool, d1) := CheckOpensshClient(w, d);
    if !tool then (ErrOpensshNotFound, d1)
    else
      var (dirResult, d2) := EnsureSshDirectory(w, d1);
      if dirResult != Success then (dirResult, d2)
      else if KeysExist(w.env, d2, t) && !force then (Success, d2)
      else RunKeygen(w, d2, t)
  }

  lemma RunKeygenSpec(w: World, d: Disk, t: KeyType)
    ensures var (r, d') := RunKeygen(w, d, t);
      Extends(d, d') &&
      KeygensBetween(d, d') <= 1 &&
      (r == ErrKeyGen <==>
         (PrivateKeyPath(w.env, t).Some? &&
          ExitStatus(w.run(Keygen(t, PrivateKeyPath(w.env, t).value), |d.log|).status) != 0)) &&
      (r != ErrSshDir ==>
         (PrivateKeyPath(w.env, t).Some? &&
          d'.log[|d.log|] == Keygen(t, PrivateKeyPath(w.env, t).value) && KeygensBetween(d, d') == 1)) &&
      (r == Success ==>
         (KeysExist(w.env, d', t) &&
          d'.files[PrivateKeyPath(w.env, t).value].mode == PRIVATE_KEY_MODE &&
          d'.files[PubPath(PrivateKeyPath(w.env, t).value).value].mode == PUBLIC_KEY_MODE)) &&
      r != ErrOpensshNotFound && r != ErrReadKey && r != ErrMemory
    ensures PrivateKeyPath(w.env, t).None? ==> RunKeygen(w, d, t) == (ErrSshDir, d)
    ensures PrivateKeyPath(w.env, t).Some? ==>
      var priv := PrivateKeyPath(w.env, t).value;
      var (status, d1) := RunCommand(w, d, Keygen(t, priv));
      var r := RunKeygen(w, d, t).0;
      (r == ErrPermissions <==>
         status == 0 &&
         (!(priv in d1.files && w.chmodOk(priv)) ||
          (PubPath(priv).Some? && !(PubPath(priv).value in d1.files && w.chmodOk(PubPath(priv).value))))) &&
      (r == ErrSshDir <==> status == 0 && priv in d1.files && w.chmodOk(priv) && PubPath(priv).None?)
  {
    match PrivateKeyPath(w.env, t)
    case None =>
      assert d.log[|d.log|..] == [];
    case Some(priv) =>
      var (status, d1) := RunCommand(w, d, Keygen(t, priv));
      RunCommandKeygens(w, d, Keygen(t, priv));
      if status == 0 {
        var d' := RunKeygen(w, d, t).1;
        assert d'.log == d1.log;
        if RunKeygen(w, d, t).0 == Success {
          ChmodPairSuccess(w, d1, priv);
        }
      }
  }

  /** The checks run in the source's order: the tool first, then the
      directory; either failure is returned before any key generation. */
  lemma GenerateChecksInOrder(w: World, d: Disk, t: KeyType, force: bool)
    ensures var (r, d') := GenerateSshKeys(w, d, t, force);
      var (tool, d1) := CheckOpensshClient(w, d);
      (!tool ==> r == ErrOpensshNotFound && d'.files == d.files && KeygensBetween(d, d') == 0) &&
      (tool && EnsureSshDirectory(w, d1).0 != Success ==>
         r == EnsureSshDirectory(w, d1).0 && d'.files == d.files && KeygensBetween(d, d') == 0)
  {
    CheckOpensshClientSpec(w, d);
    CheckOpensshClientKeygens(w, d);
    var (tool, d1) := CheckOpensshClient(w, d);
    EnsureSshDirectoryFailures(w, d1);
  }

  /** An existing pair is kept as it is when generation is not forced:
      no key generation runs and nothing but <home>/.ssh changes. */
  lemma GenerateKeepsExistingPair(w: World, d: Disk, t: KeyType)
    requires KeysExist(w.env, d, t)
    ensures var (r, d') := GenerateSshKeys(w, d, t, false);
      d.log <= d'.log && KeygensBetween(d, d') == 0 && r != ErrKeyGen &&
      (SshDirPath(w.env).None? ==> d'.files == d.files) &&
      (SshDirPath(w.env).Some? ==> SameExcept(d.(log := d'.log), d', SshDirPath(w.env).value)) &&
      (DirOk(w, d) && r != ErrOpensshNotFound ==> r == Success && d'.files == d.files)
  {
    CheckOpensshClientSpec(w, d);
    CheckOpensshClientKeygens(w, d);
    var (tool, d1) := CheckOpensshClient(w, d);
    assert d1.files == d.files;
    if tool {
      EnsureSshDirectoryFailures(w, d1);
      var (dr, d2) := EnsureSshDirectory(w, d1);
      if dr == Success {
        EnsureSshDirectorySuccess(w, d1);
        KeysExistAtDir(w, d1, d2, t);
        assert KeysExist(w.env, d2, t);
        assert GenerateSshKeys(w, d, t, false) == (Success, d2);
        if DirOk(w, d) {
          EnsureSshDirectoryIdempotent(w, d1);
        }
      }
    }
  }

  /** What a successful generation guarantees: the pair exists; when ssh-keygen
      ran (once at most), the private key is 0600 and the public key 0644;
      when it did not, the pair was already there and generation was not forced. */
  lemma GenerateSuccess(w: World, d: Disk, t: KeyType, force: bool)
    ensures var (r, d') := GenerateSshKeys(w, d, t, force);
      Extends(d, d') && KeygensBetween(d, d') <= 1 &&
      r != ErrReadKey && r != ErrMemory &&
      (r == Success ==>
        KeysExist(w.env, d', t) &&
        (KeygensBetween(d, d') == 0 ==> !force && KeysExist(w.env, d, t)) &&
        (KeygensBetween(d, d') == 1 ==>
           d'.files[PrivateKeyPath(w.env, t).value].mode == PRIVATE_KEY_MODE &&
           d'.files[PubPath(PrivateKeyPath(w.env, t).value).value].mode == PUBLIC_KEY_MODE))
  {
    CheckOpensshClientSpec(w, d);
    CheckOpensshClientKeygens(w, d);
    var (tool, d1) := CheckOpensshClient(w, d);
    if tool {
      EnsureSshDirectoryFailures(w, d1);
      var (dr, d2) := EnsureSshDirectory(w, d1);
      if dr == Success {
        EnsureSshDirectorySuccess(w, d1);
        if KeysExist(w.env, d2, t) && !force {
          assert d2.log == d1.log;
          KeysExistAtDir(w, d1, d2, t);
        } else {
          RunKeygenSpec(w, d2, t);
          KeygensBetweenTrans(d, d2, RunKeygen(w, d2, t).1);
        }
      }
    }
  }

  /** The directory guardian runs no command and changes no entry but the
      mode of <home>/.ssh, which it may also create. */
  lemma EnsureSshDirectoryKeepsContents(w: World, d: Disk)
    ensures EnsureSshDirectory(w, d).1.log == d.log
    ensures ContentsKept(d, EnsureSshDirectory(w, d).1)
  {
  }

  /** Changing nothing but <home>/.ssh does not change what reading a public key gives. */
  lemma GetPublicKeyAtDir(w: World, d: Disk, d': Disk, t: KeyType, size: nat)
    requires SshDirPath(w.env).Some? && SameExcept(d, d', SshDirPath(w.env).value)
    ensures GetPublicKey(w, d, t, true, size) == GetPublicKey(w, d', t, true, size)
  {
    if GetPublicKeyPath(w.env, t, true, MAX_PATH_LENGTH).Ok? {
      PublicPathMatchesPrivate(w.env, t);
      KeyPathsAreNotSshDir(w.env, t);
      var dir := SshDirPath(w.env).value;
      var path := GetPublicKeyPath(w.env, t, true, MAX_PATH_LENGTH).value;
      assert path in d.files <==> path in d.files.Keys - {dir};
      assert path in d'.files <==> path in d'.files.Keys - {dir};
    }
  }

  /** Changing nothing but <home>/.ssh does not change which pairs exist. */
  lemma KeysExistAtDir(w: World, d: Disk, d': Disk, t: KeyType)
    requires SshDirPath(w.env).Some? && SameExcept(d, d', SshDirPath(w.env).value)
    ensures KeysExist(w.env, d, t) <==> KeysExist(w.env, d', t)
  {
    var dir := SshDirPath(w.env).value;
    if PrivateKeyPath(w.env, t).Some? {
      KeyPathsAreNotSshDir(w.env, t);
      var priv := PrivateKeyPath(w.env, t).value;
      assert priv in d.files <==> priv in d.files.Keys - {dir};
      assert priv in d'.files <==> priv in d'.files.Keys - {dir};
      if PubPath(priv).Some? {
        var pub := PubPath(priv).value;
        assert pub in d.files <==> pub in d.files.Keys - {dir};
        assert pub in d'.files <==> pub in d'.files.Keys - {dir};
      }
    }
  }

  /** A key generation never disturbs a directory in order. Because it runs
      the directory guardian again, an existing <home>/.ssh ends in order
      unless the call fails before changing any file; and under a umask that
      spares the owner bits every success leaves it in order. */
  lemma GenerateKeepsDirOk(w: World, d: Disk, t: KeyType, force: bool)
    ensures var (r, d') := GenerateSshKeys(w, d, t, force);
      (DirOk(w, d) ==> DirOk(w, d')) &&
      (UmaskKeepsOwner(w) && r == Success ==> DirOk(w, d')) &&
      (SshDirPath(w.env).Some? && SshDirPath(w.env).value in d.files ==>
         DirOk(w, d') || (r != Success && d'.files == d.files))
  {
    CheckOpensshClientSpec(w, d);
    var (tool, d1) := CheckOpensshClient(w, d);
    if tool {
      EnsureSshDirectoryFailures(w, d1);
      var (dr, d2) := EnsureSshDirectory(w, d1);
      if dr == Success {
        EnsureSshDirectorySuccess(w, d1);
        if DirOk(w, d2) {
          GenerateAfterGuardianKeepsDirOk(w, d2, t, force);
        }
      }
    }
  }

  /** Past the guardian, a generation keeps <home>/.ssh in order. */
  lemma GenerateAfterGuardianKeepsDirOk(w: World, d: Disk, t: KeyType, force: bool)
    requires DirOk(w, d)
    ensures DirOk(w, if KeysExist(w.env, d, t) && !force then d else RunKeygen(w, d, t).1)
  {
    if !(KeysExist(w.env, d, t) && !force) {
      RunKeygenKeepsDirOk(w, d, t);
    }
  }

  lemma RunKeygenKeepsDirOk(w: World, d: Disk, t: KeyType)
    requires DirOk(w, d)
    ensures DirOk(w, RunKeygen(w, d, t).1)
  {
    var dir := SshDirPath(w.env).value;
    match PrivateKeyPath(w.env, t)
    case None =>
    case Some(priv) =>
      KeyPathsAreNotSshDir(w.env, t);
      var c := Keygen(t, priv);
      assert dir !in Written(c, w.run(c, |d.log|));
      var (status, d1) := RunCommand(w, d, c);
      assert d1.files[dir] == d.files[dir];
      if status == 0 {
        ChmodPairKeepsOthers(w, d1, priv, dir);
      }
  }

  // ---------------------------------------------------------------------
  // krown_get_public_key

  function Min(a: int, b: int): int
  {
    if a < b then a else b
  }

  /** What a read of at most `size` - 1 bytes of `content` leaves in a
      buffer before its NUL, once one trailing newline is cut off. */
  function ReadBack(content: seq<char>, size: nat): seq<char>
    requires size > 0
  {
    var read := content[..Min(|content|, size - 1)];
    if |read| > 0 && read[|read| - 1] == '\n' then read[..|read| - 1] else read
  }

  /** The bytes left in the caller's buffer before the terminating NUL. */
  function GetPublicKey(w: World, d: Disk, t: KeyType, hasBuffer: bool, size: nat): Result<seq<char>>
  {
    if !hasBuffer || size == 0 then Err(ErrMemory)
    else match GetPublicKeyPath(w.env, t, true, MAX_PATH_LENGTH)
      case Err(e) => Err(e)
      case Ok(path) =>
        if path !in d.files || !d.files[path].readable then Err(ErrReadKey)
        else Ok(ReadBack(d.files[path].content, size))
  }

  /** The three ways reading the public key fails. */
  lemma GetPublicKeyErrors(w: World, d: Disk, t: KeyType, hasBuffer: bool, size: nat)
    ensures var r := GetPublicKey(w, d, t, hasBuffer, size);
      var path := GetPublicKeyPath(w.env, t, true, MAX_PATH_LENGTH);
      (r == Err(ErrMemory) <==> !hasBuffer || size == 0) &&
      (r == Err(ErrSshDir) <==> hasBuffer && size > 0 && path.Err?) &&
      (r == Err(ErrReadKey) <==>
         hasBuffer && size > 0 && path.Ok? && (path.value !in d.files || !d.files[path.value].readable)) &&
      (r.Err? ==> r.error == ErrMemory || r.error == ErrSshDir || r.error == ErrReadKey)
  {
  }

  /** What a successful read holds: the first size - 1 bytes of the file at
      most, less one trailing newline when there is one. */
  lemma GetPublicKeyContent(w: World, d: Disk, t: KeyType, hasBuffer: bool, size: nat)
    requires GetPublicKey(w, d, t, hasBuffer, size).Ok?
    ensures GetPublicKeyPath(w.env, t, true, MAX_PATH_LENGTH).Ok?
    ensures var path := GetPublicKeyPath(w.env, t, true, MAX_PATH_LENGTH).value;
      var s := GetPublicKey(w, d, t, hasBuffer, size).value;
      path in d.files && d.files[path].readable && size > 0 &&
      var read := d.files[path].content[..Min(|d.files[path].content|, size - 1)];
      |s| <= size - 1 &&
      ((s == read && (read == [] || read[|read| - 1] != '\n')) || s + ['\n'] == read)
  {
  }

  /** A one-line file that fits is read back as its line, without the newline. */
  lemma GetPublicKeyOneLine(w: World, d: Disk, t: KeyType, size: nat, line: seq<char>)
    requires GetPublicKeyPath(w.env, t, true, MAX_PATH_LENGTH).Ok?
    requires var path := GetPublicKeyPath(w.env, t, true, MAX_PATH_LENGTH).value;
      path in d.files && d.files[path].readable && d.files[path].content == line + ['\n']
    requires '\n' !in line && |line| + 1 < size
    ensures GetPublicKey(w, d, t, true, size) == Ok(line)
  {
    var path := GetPublicKeyPath(w.env, t, true, MAX_PATH_LENGTH).value;
    var content := d.files[path].content;
    assert content[..|content|] == content;
    assert (line + ['\n'])[..|line|] == line;
  }

  // ---------------------------------------------------------------------
  // ensure_key_permissions

  /** chmod `p` to `m` when it exists; an absent file is skipped, not an error. */
  function ChmodIfPresent(w: World, d: Disk, p: Path, m: bv12): (r: (bool, Disk))
    ensures r.0 <==> p !in d.files || w.chmodOk(p)
    ensures p !in d.files ==> r.1 == d
    ensures p in d.files ==> r == Chmod(w, d, p, m)
  {
    if p in d.files then Chmod(w, d, p, m) else (true, d)
  }

  function EnsureKeyPermissions(w: World, d: Disk, t: KeyType): (AuthResult, Disk)
  {
    match PrivateKeyPath(w.env, t)
    case None => (ErrSshDir, d)
    case Some(priv) =>
      match PubPath(priv)
      case None => (ErrSshDir, d)
      case Some(pub) =>
        var (privOk, d1) := ChmodIfPresent(w, d, priv, PRIVATE_KEY_MODE);
        if !privOk then (ErrPermissions, d1)
        else
          var (pubOk, d2) := ChmodIfPresent(w, d1, pub, PUBLIC_KEY_MODE);
          if !pubOk then (ErrPermissions, d2) else (Success, d2)
  }

  /** ensure_key_permissions as written: the `.pub` path is the truncating append. */
  function EnsureKeyPermissionsAsWritten(w: World, d: Disk, t: KeyType): (AuthResult, Disk)
  {
    match PrivateKeyPath(w.env, t)
    case None => (ErrSshDir, d)
    case Some(priv) =>
      var (privOk, d1) := ChmodIfPresent(w, d, priv, PRIVATE_KEY_MODE);
      if !privOk then (ErrPermissions, d1)
      else
        var (pubOk, d2) := ChmodIfPresent(w, d1, PubPathOf(priv), PUBLIC_KEY_MODE);
        if !pubOk then (ErrPermissions, d2) else (Success, d2)
  }

  /** Wherever the `.pub` path fits, the as-written function is the corrected one. */
  lemma EnsureKeyPermissionsAsWrittenAgrees(w: World, d: Disk, t: KeyType)
    requires PrivateKeyPath(w.env, t).Some? && PubPath(PrivateKeyPath(w.env, t).value).Some?
    ensures EnsureKeyPermissionsAsWritten(w, d, t) == EnsureKeyPermissions(w, d, t)
  {
  }

  /** With a 511-byte private key path, the as-written function reports success
      and leaves the private key with mode 0644; the corrected one refuses. */
  lemma EnsureKeyPermissionsAsWrittenExposesPrivateKey(w: World, d: Disk, t: KeyType)
    requires PrivateKeyPath(w.env, t).Some?
    requires |PrivateKeyPath(w.env, t).value| == MAX_PATH_LENGTH - 1
    requires PrivateKeyPath(w.env, t).value in d.files && w.chmodOk(PrivateKeyPath(w.env, t).value)
    ensures EnsureKeyPermissionsAsWritten(w, d, t).0 == Success
    ensures EnsureKeyPermissionsAsWritten(w, d, t).1.files[PrivateKeyPath(w.env, t).value].mode == PUBLIC_KEY_MODE
    ensures EnsureKeyPermissions(w, d, t) == (ErrSshDir, d)
  {
    TruncatedPubPathIsPrivatePath(PrivateKeyPath(w.env, t).value);
  }

  /** Only modes change; each key file that exists gets its canonical mode,
      and the call fails only when a path cannot be built or a chmod is refused. */
  lemma EnsureKeyPermissionsSpec(w: World, d: Disk, t: KeyType)
    ensures var (r, d') := EnsureKeyPermissions(w, d, t);
      ModesOnly(d, d') && d'.log == d.log &&
      (r == Success || r == ErrSshDir || r == ErrPermissions) &&
      (r == ErrSshDir <==> PrivateKeyPath(w.env, t).None? || PubPath(PrivateKeyPath(w.env, t).value).None?) &&
      (r == Success ==>
         var priv := PrivateKeyPath(w.env, t).value;
         var pub := PubPath(priv).value;
         (priv in d.files ==> w.chmodOk(priv) && d'.files[priv].mode == PRIVATE_KEY_MODE) &&
         (pub in d.files ==> w.chmodOk(pub) && d'.files[pub].mode == PUBLIC_KEY_MODE)) &&
      (r == ErrPermissions ==>
         var priv := PrivateKeyPath(w.env, t).value;
         var pub := PubPath(priv).value;
         (priv in d.files && !w.chmodOk(priv)) || (pub in d.files && !w.chmodOk(pub)))
  {
  }

  lemma EnsureKeyPermissionsKeepsDirOk(w: World, d: Disk, t: KeyType)
    requires DirOk(w, d)
    ensures DirOk(w, EnsureKeyPermissions(w, d, t).1)
  {
    if PrivateKeyPath(w.env, t).Some? {
      KeyPathsAreNotSshDir(w.env, t);
    }
  }
}
