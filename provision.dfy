// prepare_vm_for_krown: the provisioning state machine, stage by stage,
// and what it guarantees.

module Provision {
  import opened KrownTypes
  import opened Paths
  import opened Process
  import opened FileSystem
  import opened KeyStore

  /** Where a stage leaves the machine: going on with a key type, or stopped
      with a result code. */
  datatype Step = Continue(keyType: KeyType, disk: Disk) | Stop(code: AuthResult, disk: Disk)

  /** The outcome of one call: the result code, the new state, the key type
      the call settled on (once it got that far), and the path it reports. */
  datatype Prepared = Prepared(code: AuthResult, disk: Disk, keyType: Option<KeyType>, path: Option<Path>)

  /** Capacity of the buffer the integrity probe reads the public key into. */
  const PROBE_BUFFER_SIZE: nat := 256

  /** Steps 1-2: the tool must answer, then <home>/.ssh must be in order. */
  function CheckPrerequisites(w: World, d: Disk): (AuthResult, Disk)
  {
    var (tool, d1) := CheckOpensshClient(w, d);
    if !tool then (ErrOpensshNotFound, d1) else EnsureSshDirectory(w, d1)
  }

  /** Steps 3-4: prefer Ed25519, generating it when absent; when that fails,
      RSA-4096 is used, generated when absent, and its failure is final. */
  function ChooseKeyType(w: World, d: Disk): Step
  {
    if KeysExist(w.env, d, Ed25519) then Continue(Ed25519, d)
    else
      var (r, d1) := GenerateSshKeys(w, d, Ed25519, false);
      if r == Success then Continue(Ed25519, d1)
      else if KeysExist(w.env, d1, Rsa4096) then Continue(Rsa4096, d1)
      else
        var (r2, d2) := GenerateSshKeys(w, d1, Rsa4096, false);
        if r2 != Success then Stop(r2, d2) else Continue(Rsa4096, d2)
  }

  /** Step 5: the chosen pair must really be there; an absent Ed25519 pair
      gives way to RSA-4096 once, an absent RSA-4096 pair is a generation error. */
  function RecheckKeys(w: World, t: KeyType, d: Disk): Step
  {
    if KeysExist(w.env, d, t) then Continue(t, d)
    else if t == Ed25519 then
      if KeysExist(w.env, d, Rsa4096) then Continue(Rsa4096, d)
      else
        var (r, d1) := GenerateSshKeys(w, d, Rsa4096, false);
        if r != Success then Stop(r, d1) else Continue(Rsa4096, d1)
    else Stop(ErrKeyGen, d)
  }

  /** Step 6: the public key must be readable; if not, the pair is generated
      again by force, and if that fails the other type is adopted, generated
      first only when it is absent (an existing one is adopted unread). */
  function CheckIntegrity(w: World, t: KeyType, d: Disk): Step
  {
    if GetPublicKey(w, d, t, true, PROBE_BUFFER_SIZE).Ok? then Continue(t, d)
    else
      var (r, d1) := GenerateSshKeys(w, d, t, true);
      if r == Success then Continue(t, d1)
      else
        var fallback := Other(t);
        if !KeysExist(w.env, d1, fallback) then
          var (r2, d2) := GenerateSshKeys(w, d1, fallback, false);
          if r2 != Success then Stop(r2, d2) else Continue(fallback, d2)
        else Continue(fallback, d1)
  }

  /** Steps 7-8: canonical modes for the chosen pair, then its public key
      path written into the caller's buffer of `size` bytes. */
  function Finish(w: World, t: KeyType, d: Disk, size: nat): Prepared
  {
    var (r, d1) := EnsureKeyPermissions(w, d, t);
    if r != Success then Prepared(r, d1, Some(t), None)
    else match GetPublicKeyPath(w.env, t, true, size)
      case Err(e) => Prepared(e, d1, Some(t), None)
      case Ok(p) => Prepared(Success, d1, Some(t), Some(p))
  }

  /** Steps 3-8, once the tool and <home>/.ssh are in order. */
  function SelectAndFinish(w: World, d: Disk, size: nat): Prepared
  {
    match ChooseKeyType(w, d)
    case Stop(c, d2) => Prepared(c, d2, None, None)
    case Continue(t2, d2) =>
      match RecheckKeys(w, t2, d2)
      case Stop(c, d3) => Prepared(c, d3, None, None)
      case Continue(t3, d3) =>
        match CheckIntegrity(w, t3, d3)
        case Stop(c, d4) => Prepared(c, d4, None, None)
        case Continue(t4, d4) => Finish(w, t4, d4, size)
  }

  function Prepare(w: World, d: Disk, hasBuffer: bool, size: nat): Prepared
  {
    if !hasBuffer || size == 0 then Prepared(ErrMemory, d, None, None)
    else
      var (r, d1) := CheckPrerequisites(w, d);
      if r != Success then Prepared(r, d1, None, None)
      else SelectAndFinish(w, d1, size)
  }

  // ---------------------------------------------------------------------
  // The stages

  /** What a stage guarantees whatever it does: the state only grows, the
      reached pair exists, a stop carries a generation failure, and a
      <home>/.ssh already in order stays in order. */
  predicate StepOk(w: World, d: Disk, s: Step)
  {
    Extends(d, s.disk) &&
    (s.Continue? ==> KeysExist(w.env, s.disk, s.keyType)) &&
    (s.Stop? ==> s.code != Success && s.code != ErrReadKey && s.code != ErrMemory) &&
    (DirOk(w, d) ==> DirOk(w, s.disk))
  }

  lemma ExtendsTrans(d1: Disk, d2: Disk, d3: Disk)
    requires Extends(d1, d2) && Extends(d2, d3)
    ensures Extends(d1, d3)
  {
  }

  /** An existing Ed25519 pair is used as it is; RSA-4096 is reached only
      after generating Ed25519 failed; at most two key generations run. */
  lemma ChooseKeyTypeSpec(w: World, d: Disk)
    ensures var s := ChooseKeyType(w, d);
      StepOk(w, d, s) &&
      KeygensBetween(d, s.disk) <= (if s.Continue? && s.keyType == Ed25519 then 1 else 2) &&
      (KeysExist(w.env, d, Ed25519) ==> s == Continue(Ed25519, d)) &&
      (s.Stop? || s.keyType == Rsa4096 ==>
         !KeysExist(w.env, d, Ed25519) && GenerateSshKeys(w, d, Ed25519, false).0 != Success)
    ensures !KeysExist(w.env, d, Ed25519) ==>
      var (r, d1) := GenerateSshKeys(w, d, Ed25519, false);
      var s := ChooseKeyType(w, d);
      (r == Success ==> s == Continue(Ed25519, d1)) &&
      (r != Success ==>
         (s.Continue? ==> s.keyType == Rsa4096) &&
         (KeysExist(w.env, d1, Rsa4096) ==> s == Continue(Rsa4096, d1)) &&
         (s.Stop? ==>
            !KeysExist(w.env, d1, Rsa4096) &&
            (s.code, s.disk) == GenerateSshKeys(w, d1, Rsa4096, false)) &&
         (s.Continue? && !KeysExist(w.env, d1, Rsa4096) ==>
            s.disk == GenerateSshKeys(w, d1, Rsa4096, false).1 &&
            GenerateSshKeys(w, d1, Rsa4096, false).0 == Success))
  {
    if !KeysExist(w.env, d, Ed25519) {
      var (r, d1) := GenerateSshKeys(w, d, Ed25519, false);
      GenerateSuccess(w, d, Ed25519, false);
      if DirOk(w, d) {
        GenerateKeepsDirOk(w, d, Ed25519, false);
      }
      if r != Success && !KeysExist(w.env, d1, Rsa4096) {
        var d2 := GenerateSshKeys(w, d1, Rsa4096, false).1;
        GenerateSuccess(w, d1, Rsa4096, false);
        KeygensBetweenTrans(d, d1, d2);
        ExtendsTrans(d, d1, d2);
        if DirOk(w, d) {
          GenerateKeepsDirOk(w, d1, Rsa4096, false);
        }
      }
    } else {
      assert d.log[|d.log|..] == [];
    }
  }

  /** A present pair passes; otherwise only Ed25519 gives way, to RSA-4096,
      with at most one key generation, and only when Ed25519 was chosen. */
  lemma RecheckKeysSpec(w: World, t: KeyType, d: Disk)
    ensures var s := RecheckKeys(w, t, d);
      StepOk(w, d, s) &&
      KeygensBetween(d, s.disk) <= (if t == Ed25519 then 1 else 0) &&
      (KeysExist(w.env, d, t) ==> s == Continue(t, d)) &&
      (s.Continue? ==> s.keyType == t || (t == Ed25519 && s.keyType == Rsa4096))
    ensures var s := RecheckKeys(w, t, d);
      (t == Rsa4096 && !KeysExist(w.env, d, t) ==> s == Stop(ErrKeyGen, d)) &&
      (t == Ed25519 && !KeysExist(w.env, d, t) ==>
         (KeysExist(w.env, d, Rsa4096) ==> s == Continue(Rsa4096, d)) &&
         (!KeysExist(w.env, d, Rsa4096) ==>
            var (r, d1) := GenerateSshKeys(w, d, Rsa4096, false);
            s.disk == d1 &&
            (s.Continue? ==> s.keyType == Rsa4096 && r == Success) &&
            (s.Stop? ==> s.code == r)))
  {
    if !KeysExist(w.env, d, t) && t == Ed25519 && !KeysExist(w.env, d, Rsa4096) {
      GenerateSuccess(w, d, Rsa4096, false);
      if DirOk(w, d) {
        GenerateKeepsDirOk(w, d, Rsa4096, false);
      }
    } else {
      assert d.log[|d.log|..] == [];
    }
  }

  /** A readable public key passes untouched; otherwise the type is kept
      only if forced generation succeeds, and is switched to the other type
      at most once, which is then present; at most two key generations run. */
  lemma CheckIntegritySpec(w: World, t: KeyType, d: Disk)
    requires KeysExist(w.env, d, t)
    ensures var s := CheckIntegrity(w, t, d);
      StepOk(w, d, s) &&
      KeygensBetween(d, s.disk) <= 2 &&
      (GetPublicKey(w, d, t, true, PROBE_BUFFER_SIZE).Ok? ==> s == Continue(t, d)) &&
      (s.Continue? ==> s.keyType == t || s.keyType == Other(t)) &&
      (s.Stop? || s.keyType != t ==>
         GetPublicKey(w, d, t, true, PROBE_BUFFER_SIZE).Err? && GenerateSshKeys(w, d, t, true).0 != Success)
    ensures GetPublicKey(w, d, t, true, PROBE_BUFFER_SIZE).Err? ==>
      var (r, d1) := GenerateSshKeys(w, d, t, true);
      var s := CheckIntegrity(w, t, d);
      (r == Success ==> s == Continue(t, d1)) &&
      (r != Success && KeysExist(w.env, d1, Other(t)) ==> s == Continue(Other(t), d1)) &&
      (r != Success && !KeysExist(w.env, d1, Other(t)) ==>
         var (r2, d2) := GenerateSshKeys(w, d1, Other(t), false);
         s.disk == d2 &&
         (s.Continue? ==> s.keyType == Other(t) && r2 == Success) &&
         (s.Stop? ==> s.code == r2))
  {
    if GetPublicKey(w, d, t, true, PROBE_BUFFER_SIZE).Err? {
      var (r, d1) := GenerateSshKeys(w, d, t, true);
      GenerateSuccess(w, d, t, true);
      if DirOk(w, d) {
        GenerateKeepsDirOk(w, d, t, true);
      }
      if r != Success && !KeysExist(w.env, d1, Other(t)) {
        var d2 := GenerateSshKeys(w, d1, Other(t), false).1;
        GenerateSuccess(w, d1, Other(t), false);
        KeygensBetweenTrans(d, d1, d2);
        ExtendsTrans(d, d1, d2);
        if DirOk(w, d) {
          GenerateKeepsDirOk(w, d1, Other(t), false);
        }
      }
    } else {
      assert d.log[|d.log|..] == [];
    }
  }

  /** The final stage only changes modes; on success both files of the pair
      have their canonical modes and the reported path is the pair's `.pub`. */
  lemma FinishSpec(w: World, t: KeyType, d: Disk, size: nat)
    requires KeysExist(w.env, d, t) && size > 0
    ensures var p := Finish(w, t, d, size);
      ModesOnly(d, p.disk) && p.disk.log == d.log && p.keyType == Some(t) &&
      p.code != ErrReadKey && p.code != ErrMemory &&
      (p.code == Success <==> p.path.Some?) &&
      (DirOk(w, d) ==> DirOk(w, p.disk)) &&
      (p.code == Success ==>
         var priv := PrivateKeyPath(w.env, t).value;
         var pub := PubPath(priv).value;
         KeysExist(w.env, p.disk, t) &&
         p.disk.files[priv].mode == PRIVATE_KEY_MODE && p.disk.files[pub].mode == PUBLIC_KEY_MODE &&
         p.path == Some(GetPublicKeyPath(w.env, t, true, size).value))
  {
    EnsureKeyPermissionsSpec(w, d, t);
    if DirOk(w, d) {
      EnsureKeyPermissionsKeepsDirOk(w, d, t);
    }
  }

  // ---------------------------------------------------------------------
  // The whole call

  /** A missing or empty buffer is refused before anything is run or touched. */
  lemma PrepareRejectsMissingBuffer(w: World, d: Disk, hasBuffer: bool, size: nat)
    requires !hasBuffer || size == 0
    ensures Prepare(w, d, hasBuffer, size) == Prepared(ErrMemory, d, None, None)
  {
  }

  /** Without ssh-keygen the call fails with the tooling error and creates
      no file. */
  lemma PrepareWithoutTool(w: World, d: Disk, size: nat)
    requires size > 0
    requires !Available(ExitStatus(w.run(HelpProbe, |d.log|).status))
    requires !Available(ExitStatus(w.run(VersionProbe, |d.log| + 1).status))
    ensures Prepare(w, d, true, size).code == ErrOpensshNotFound
    ensures Prepare(w, d, true, size).disk.files == d.files
  {
    CheckOpensshClientSpec(w, d);
  }

  /** Steps 3-8 only add to the state, run at most four key generations,
      report READ_KEY and MEMORY never, and report a path exactly on success. */
  lemma SelectAndFinishOutcome(w: World, d: Disk, size: nat)
    requires size > 0
    ensures var p := SelectAndFinish(w, d, size);
      Extends(d, p.disk) && KeygensBetween(d, p.disk) <= 4 &&
      p.code != ErrReadKey && p.code != ErrMemory &&
      (p.code == Success <==> p.path.Some?)
  {
    ChooseKeyTypeSpec(w, d);
    var s2 := ChooseKeyType(w, d);
    if s2.Continue? {
      RecheckKeysSpec(w, s2.keyType, s2.disk);
      var s3 := RecheckKeys(w, s2.keyType, s2.disk);
      KeygensBetweenTrans(d, s2.disk, s3.disk);
      ExtendsTrans(d, s2.disk, s3.disk);
      if s3.Continue? {
        CheckIntegritySpec(w, s3.keyType, s3.disk);
        var s4 := CheckIntegrity(w, s3.keyType, s3.disk);
        KeygensBetweenTrans(d, s3.disk, s4.disk);
        ExtendsTrans(d, s3.disk, s4.disk);
        if s4.Continue? {
          FinishSpec(w, s4.keyType, s4.disk, size);
          var p := Finish(w, s4.keyType, s4.disk, size);
          KeygensBetweenTrans(d, s4.disk, p.disk);
        }
      }
    }
  }

  /** What any call guarantees: it only adds to the state, runs at most four
      key generations, reports READ_KEY never and MEMORY only for a missing
      buffer, and reports a path exactly when it succeeds. */
  lemma PrepareOutcome(w: World, d: Disk, hasBuffer: bool, size: nat)
    ensures var p := Prepare(w, d, hasBuffer, size);
      Extends(d, p.disk) && KeygensBetween(d, p.disk) <= 4 &&
      p.code != ErrReadKey &&
      (p.code == ErrMemory <==> !hasBuffer || size == 0) &&
      (p.code == Success <==> p.path.Some?)
  {
    if hasBuffer && size > 0 {
      var (r, d1) := CheckPrerequisites(w, d);
      CheckOpensshClientSpec(w, d);
      CheckOpensshClientKeygens(w, d);
      var (tool, d0) := CheckOpensshClient(w, d);
      if tool {
        EnsureSshDirectoryFailures(w, d0);
        assert d1.log == d0.log;
        if r == Success {
          EnsureSshDirectorySuccess(w, d0);
        }
      }
      assert Extends(d, d1);
      if r == Success {
        SelectAndFinishOutcome(w, d1, size);
        KeygensBetweenTrans(d, d1, SelectAndFinish(w, d1, size).disk);
      }
    }
  }

  /** On success the reported path is <home>/.ssh/<name>.pub of the settled
      key type, both files of that pair exist with modes 0600 and 0644, and
      <home>/.ssh exists, with mode 0700 when the umask spares the owner. */
  lemma PrepareSuccess(w: World, d: Disk, hasBuffer: bool, size: nat)
    requires Prepare(w, d, hasBuffer, size).code == Success
    ensures var p := Prepare(w, d, hasBuffer, size);
      p.keyType.Some? && p.path.Some? && SshDirPath(w.env).Some? &&
      var t := p.keyType.value;
      var priv := PrivateKeyPath(w.env, t).value;
      var pub := PubPath(priv).value;
      KeysExist(w.env, p.disk, t) &&
      p.disk.files[priv].mode == PRIVATE_KEY_MODE && p.disk.files[pub].mode == PUBLIC_KEY_MODE &&
      p.path.value == pub &&
      p.path.value == HomeDirectory(w.env, MAX_PATH_LENGTH).value + "/.ssh/" + KeyName(t) + ".pub" &&
      SshDirPath(w.env).value in p.disk.files &&
      (UmaskKeepsOwner(w) ==> DirOk(w, p.disk))
    ensures UmaskKeepsOwner(w) || SshDirPath(w.env).value in d.files ||
            (!KeysExist(w.env, d, Ed25519) && !KeysExist(w.env, d, Rsa4096)) ==>
              DirOk(w, Prepare(w, d, hasBuffer, size).disk)
  {
    PrepareSuccessDirOk(w, d, hasBuffer, size);
    var (r, d1) := CheckPrerequisites(w, d);
    var (tool, d0) := CheckOpensshClient(w, d);
    EnsureSshDirectorySuccess(w, d0);
    var dir := SshDirPath(w.env).value;
    assert dir in d1.files;
    ChooseKeyTypeSpec(w, d1);
    var s2 := ChooseKeyType(w, d1);
    RecheckKeysSpec(w, s2.keyType, s2.disk);
    var s3 := RecheckKeys(w, s2.keyType, s2.disk);
    CheckIntegritySpec(w, s3.keyType, s3.disk);
    var s4 := CheckIntegrity(w, s3.keyType, s3.disk);
    FinishSpec(w, s4.keyType, s4.disk, size);
    var t := s4.keyType;
    PublicPathMatchesPrivate(w.env, t);
  }

  /** Both files of a type can be given their canonical modes. */
  predicate ChmodAllowed(w: World, t: KeyType)
  {
    PrivateKeyPath(w.env, t).Some? && PubPath(PrivateKeyPath(w.env, t).value).Some? &&
    w.chmodOk(PrivateKeyPath(w.env, t).value) && w.chmodOk(PubPath(PrivateKeyPath(w.env, t).value).value)
  }

  /** On `d`, Ed25519 is absent and cannot be generated, RSA-4096 is absent
      and is then generated with a readable public key, and both of its files
      can be given their modes. */
  predicate RsaFallbackWorks(w: World, d: Disk)
  {
    !KeysExist(w.env, d, Ed25519) &&
    var (r1, d1) := GenerateSshKeys(w, d, Ed25519, false);
    r1 != Success && !KeysExist(w.env, d1, Rsa4096) &&
    var (r2, d2) := GenerateSshKeys(w, d1, Rsa4096, false);
    r2 == Success && GetPublicKey(w, d2, Rsa4096, true, PROBE_BUFFER_SIZE).Ok? &&
    ChmodAllowed(w, Rsa4096)
  }

  /** When Ed25519 cannot be generated, a working RSA-4096 fallback is
      carried through to the end: the call succeeds with the RSA-4096 public
      key path, provided the caller's buffer holds it. */
  lemma PrepareFallsBackToRsa(w: World, d: Disk, size: nat)
    requires size > 0 && GetPublicKeyPath(w.env, Rsa4096, true, size).Ok?
    requires CheckPrerequisites(w, d).0 == Success && RsaFallbackWorks(w, CheckPrerequisites(w, d).1)
    ensures var p := Prepare(w, d, true, size);
      p.code == Success && p.keyType == Some(Rsa4096) &&
      p.path == Some(GetPublicKeyPath(w.env, Rsa4096, true, size).value)
  {
    var d1 := CheckPrerequisites(w, d).1;
    ChooseKeyTypeSpec(w, d1);
    var d2 := GenerateSshKeys(w, GenerateSshKeys(w, d1, Ed25519, false).1, Rsa4096, false).1;
    assert ChooseKeyType(w, d1) == Continue(Rsa4096, d2);
    RecheckKeysSpec(w, Rsa4096, d2);
    CheckIntegritySpec(w, Rsa4096, d2);
    EnsureKeyPermissionsSpec(w, d2, Rsa4096);
  }

  /** With <home>/.ssh present but neither pair complete, steps 3-4 go on
      only after a key generation got past the directory guardian, which
      sets <home>/.ssh to 0700 whatever the umask. */
  lemma ChooseKeyTypeSetsDirOk(w: World, d: Disk)
    requires SshDirPath(w.env).Some? && SshDirPath(w.env).value in d.files
    requires !KeysExist(w.env, d, Ed25519) && !KeysExist(w.env, d, Rsa4096)
    ensures ChooseKeyType(w, d).Continue? ==> DirOk(w, ChooseKeyType(w, d).disk)
  {
    var (r1, d1) := GenerateSshKeys(w, d, Ed25519, false);
    GenerateKeepsDirOk(w, d, Ed25519, false);
    if r1 != Success {
      if !DirOk(w, d1) {
        KeysExistSameKeys(w.env, d1, d, Rsa4096);
      }
      if !KeysExist(w.env, d1, Rsa4096) {
        GenerateKeepsDirOk(w, d1, Rsa4096, false);
      }
    }
  }

  /** Steps 3-8 keep <home>/.ssh in order, and put it in order when no pair
      was complete, once steps 3-4 go on. */
  lemma SelectAndFinishDirOk(w: World, d: Disk, size: nat)
    requires SshDirPath(w.env).Some? && SshDirPath(w.env).value in d.files
    requires DirOk(w, d) || (!KeysExist(w.env, d, Ed25519) && !KeysExist(w.env, d, Rsa4096))
    ensures ChooseKeyType(w, d).Continue? ==> DirOk(w, SelectAndFinish(w, d, size).disk)
  {
    ChooseKeyTypeSpec(w, d);
    var s2 := ChooseKeyType(w, d);
    if s2.Continue? {
      if !DirOk(w, d) {
        ChooseKeyTypeSetsDirOk(w, d);
      }
      RecheckKeysSpec(w, s2.keyType, s2.disk);
      var s3 := RecheckKeys(w, s2.keyType, s2.disk);
      if s3.Continue? {
        CheckIntegritySpec(w, s3.keyType, s3.disk);
        var s4 := CheckIntegrity(w, s3.keyType, s3.disk);
        if s4.Continue? {
          EnsureKeyPermissionsKeepsDirOk(w, s4.disk, s4.keyType);
        }
      }
    }
  }

  /** After a successful call <home>/.ssh is at 0700 whenever it existed
      before, or no key pair was complete, or the umask spares the owner. */
  lemma PrepareSuccessDirOk(w: World, d: Disk, hasBuffer: bool, size: nat)
    requires Prepare(w, d, hasBuffer, size).code == Success
    ensures SshDirPath(w.env).Some?
    ensures UmaskKeepsOwner(w) || SshDirPath(w.env).value in d.files ||
            (!KeysExist(w.env, d, Ed25519) && !KeysExist(w.env, d, Rsa4096)) ==>
              DirOk(w, Prepare(w, d, hasBuffer, size).disk)
  {
    var (r, d1) := CheckPrerequisites(w, d);
    var (tool, d0) := CheckOpensshClient(w, d);
    CheckOpensshClientSpec(w, d);
    EnsureSshDirectorySuccess(w, d0);
    var dir := SshDirPath(w.env).value;
    assert dir in d1.files;
    KeysExistSameKeys(w.env, d0, d, Ed25519);
    KeysExistSameKeys(w.env, d0, d, Rsa4096);
    KeysExistAtDir(w, d0, d1, Ed25519);
    KeysExistAtDir(w, d0, d1, Rsa4096);
    if UmaskKeepsOwner(w) || dir in d.files ||
       (!KeysExist(w.env, d, Ed25519) && !KeysExist(w.env, d, Rsa4096)) {
      assert DirOk(w, d1) || (!KeysExist(w.env, d1, Ed25519) && !KeysExist(w.env, d1, Rsa4096));
      ChooseKeyTypeSpec(w, d1);
      assert Prepare(w, d, hasBuffer, size) == SelectAndFinish(w, d1, size);
      SelectAndFinishDirOk(w, d1, size);
    }
  }

  /** Steps 7-8 under two buffer sizes: the same modes, the same key type,
      and results that differ only between success and a directory error. */
  lemma FinishSizes(w: World, t: KeyType, d: Disk, size1: nat, size2: nat)
    requires size1 > 0 && size2 > 0
    ensures var p1 := Finish(w, t, d, size1);
      var p2 := Finish(w, t, d, size2);
      p1.disk == p2.disk && p1.keyType == p2.keyType &&
      (p1.code != p2.code ==>
         (p1.code == Success && p2.code == ErrSshDir) || (p1.code == ErrSshDir && p2.code == Success))
  {
  }

  /** The size of the caller's buffer matters only at the very end: any two
      non-zero sizes do the same filesystem work and settle on the same key
      type, and a size that is too small turns success into a directory
      error, never into a memory error. */
  lemma PrepareBufferSizeMattersLast(w: World, d: Disk, size1: nat, size2: nat)
    requires size1 > 0 && size2 > 0
    ensures var p1 := Prepare(w, d, true, size1);
      var p2 := Prepare(w, d, true, size2);
      p1.disk == p2.disk && p1.keyType == p2.keyType &&
      (p1.code != p2.code ==>
         (p1.code == Success && p2.code == ErrSshDir) || (p1.code == ErrSshDir && p2.code == Success))
  {
    var (r, d1) := CheckPrerequisites(w, d);
    if r == Success {
      var s2 := ChooseKeyType(w, d1);
      if s2.Continue? {
        var s3 := RecheckKeys(w, s2.keyType, s2.disk);
        if s3.Continue? {
          var s4 := CheckIntegrity(w, s3.keyType, s3.disk);
          if s4.Continue? {
            FinishSizes(w, s4.keyType, s4.disk, size1, size2);
          }
        }
      }
    }
  }

  // ---------------------------------------------------------------------
  // Idempotence

  /** ssh-keygen answers the --help probe run as the n-th command. */
  predicate ToolAnswers(w: World, n: nat)
  {
    Available(ExitStatus(w.run(HelpProbe, n).status))
  }

  /** The state a successful Ed25519 provisioning leaves and a second call
      finds: <home>/.ssh in order, the Ed25519 pair present with a readable
      public key, and both key files open to chmod. */
  predicate Ed25519InPlace(w: World, d: Disk)
  {
    DirOk(w, d) &&
    KeysExist(w.env, d, Ed25519) &&
    GetPublicKey(w, d, Ed25519, true, PROBE_BUFFER_SIZE).Ok? &&
    w.chmodOk(PrivateKeyPath(w.env, Ed25519).value) &&
    w.chmodOk(PubPath(PrivateKeyPath(w.env, Ed25519).value).value)
  }

  lemma GetPublicKeyModesOnly(w: World, d: Disk, d': Disk, t: KeyType, size: nat)
    requires ModesOnly(d, d')
    ensures GetPublicKey(w, d, t, true, size) == GetPublicKey(w, d', t, true, size)
  {
    match GetPublicKeyPath(w.env, t, true, MAX_PATH_LENGTH)
    case Err(_) =>
    case Ok(path) =>
      if path in d.files {
        assert d'.files[path].content == d.files[path].content;
        assert d'.files[path].readable == d.files[path].readable;
      }
  }

  /** With the Ed25519 pair in place, a call runs one probe and no key
      generation, reports the Ed25519 public key path, changes nothing but
      modes, and leaves the pair in place. */
  lemma PrepareIdempotent(w: World, d: Disk, size: nat)
    requires Ed25519InPlace(w, d) && ToolAnswers(w, |d.log|)
    requires GetPublicKeyPath(w.env, Ed25519, true, size).Ok?
    ensures var p := Prepare(w, d, true, size);
      p.code == Success && p.keyType == Some(Ed25519) &&
      p.path == Some(GetPublicKeyPath(w.env, Ed25519, true, size).value) &&
      p.disk.log == d.log + [HelpProbe] &&
      ModesOnly(d, p.disk) &&
      Ed25519InPlace(w, p.disk)
  {
    CheckOpensshClientSpec(w, d);
    var (tool, d0) := CheckOpensshClient(w, d);
    EnsureSshDirectoryIdempotent(w, d0);
    assert CheckPrerequisites(w, d) == (Success, d0);
    ChooseKeyTypeSpec(w, d0);
    RecheckKeysSpec(w, Ed25519, d0);
    GetPublicKeyModesOnly(w, d, d0, Ed25519, PROBE_BUFFER_SIZE);
    CheckIntegritySpec(w, Ed25519, d0);
    FinishSpec(w, Ed25519, d0, size);
    var p := Finish(w, Ed25519, d0, size);
    EnsureKeyPermissionsSpec(w, d0, Ed25519);
    GetPublicKeyModesOnly(w, d0, p.disk, Ed25519, PROBE_BUFFER_SIZE);
    KeysExistSameKeys(w.env, d0, p.disk, Ed25519);
  }

  /** A readable Ed25519 pair is never replaced, whatever the tool, the
      directory and the modes: a call runs no key generation, keeps the
      content of every entry, and settles on Ed25519 whenever it succeeds. */
  lemma PrepareKeepsReadableEd25519(w: World, d: Disk, size: nat)
    requires KeysExist(w.env, d, Ed25519) && GetPublicKey(w, d, Ed25519, true, PROBE_BUFFER_SIZE).Ok?
    ensures var p := Prepare(w, d, true, size);
      d.log <= p.disk.log && KeygensBetween(d, p.disk) == 0 && ContentsKept(d, p.disk) &&
      (p.code == Success ==> p.keyType == Some(Ed25519))
  {
    var p := Prepare(w, d, true, size);
    var (tool, d0) := CheckOpensshClient(w, d);
    CheckOpensshClientSpec(w, d);
    CheckOpensshClientKeygens(w, d);
    var (r, d1) := CheckPrerequisites(w, d);
    EnsureSshDirectoryKeepsContents(w, d0);
    if size == 0 {
      assert d.log[|d.log|..] == [];
    } else if r != Success {
      KeygensBetweenTrans(d, d0, d1);
      assert d1.log[|d0.log|..] == [];
      ContentsKeptTrans(d, d0, d1);
    } else {
      EnsureSshDirectorySuccess(w, d0);
      KeysExistAtDir(w, d0, d1, Ed25519);
      GetPublicKeyAtDir(w, d0, d1, Ed25519, PROBE_BUFFER_SIZE);
      GetPublicKeyModesOnly(w, d, d0, Ed25519, PROBE_BUFFER_SIZE);
      assert SelectAndFinish(w, d1, size) == Finish(w, Ed25519, d1, size);
      FinishSpec(w, Ed25519, d1, size);
      KeygensBetweenTrans(d, d0, d1);
      assert d1.log[|d0.log|..] == [];
      KeygensBetweenTrans(d, d1, p.disk);
      assert p.disk.log[|d1.log|..] == [];
      ContentsKeptTrans(d, d0, d1);
      ContentsKeptTrans(d, d1, p.disk);
    }
  }

  /** Two calls in a row, the tool answering both times, report the same
      path, and the second runs no key generation. */
  lemma PrepareTwiceSamePath(w: World, d: Disk, size: nat)
    requires Ed25519InPlace(w, d) && ToolAnswers(w, |d.log|) && ToolAnswers(w, |d.log| + 1)
    requires GetPublicKeyPath(w.env, Ed25519, true, size).Ok?
    ensures var first := Prepare(w, d, true, size);
      var second := Prepare(w, first.disk, true, size);
      first.code == Success && second.code == Success && second.path == first.path &&
      first.disk.log <= second.disk.log && KeygensBetween(first.disk, second.disk) == 0
  {
    PrepareIdempotent(w, d, size);
    var first := Prepare(w, d, true, size);
    PrepareIdempotent(w, first.disk, size);
    var second := Prepare(w, first.disk, true, size);
    assert second.disk.log[|first.disk.log|..] == [HelpProbe];
    assert [HelpProbe][..0] == [];
  }
}
