# krown_auth key provisioning, modelled in Dafny

`krown_auth` prepares a host for a remote service. It makes sure that an
unprotected SSH key pair exists under `<home>/.ssh`, with the canonical modes
(0700 on the directory, 0600 on the private key, 0644 on the public key). It
then reports the path of that pair's public key. Ed25519 is preferred and
RSA-4096 is the fallback. The public key of the pair chosen first is read
once. If that read fails, the pair is generated again, and if regeneration
fails the other key type is adopted. A regenerated or adopted pair is not
read again.

The model works over an abstract filesystem. `FileSystem.Disk` holds the
entries that exist (kind, mode bits, bytes, readability) and the log of every
command the process has run. `FileSystem.World` gathers what the process
cannot control as oracles:

- the HOME variable and the passwd entry;
- the umask;
- whether mkdir and chmod are permitted on a path;
- the outcome of the n-th command run: its status, its output, and the key
  files ssh-keygen writes.

The model has two layers:

- **Functions** (modules `Paths`, `Process`, `FileSystem`, `KeyStore`,
  `Provision`). Each C function is a function from the state to a result and
  a new state. The lemmas state what the source promises about them. These
  cover the path bounds, the availability test, the directory guardian, the
  key store, each stage of `prepare_vm_for_krown`, the whole call, and its
  idempotence.
- **The `.pub` path.** The source builds the public key path by appending
  ".pub" with a truncating `snprintf`, and does not look at the result
  (src/krown_auth.c:234, 303, 372). The main functions use a corrected path,
  `Paths.PubPath`, which is refused when it does not fit, as every other path
  is. The functions as written stand beside them:
  - `KeyStore.KeysExistAsWritten`;
  - `KeyStore.ChmodPairAsWritten`;
  - `KeyStore.EnsureKeyPermissionsAsWritten`.

  Lemmas show that each agrees with its corrected twin whenever the `.pub`
  path fits, that is for private key paths up to 507 bytes, and show what
  goes wrong for a 511-byte one (see "## Findings").
- **The machine** (module `Host`, class `Machine`). It keeps the files and
  the command log as fields. Its methods follow the C code statement by
  statement, except that they build the `.pub` path with the corrected
  `Paths.PubPath`, like the functions they are proved against:
  - the drain loop of `execute_command`;
  - chmod and mkdir;
  - the fill of the caller's buffers;
  - the locals `key_type` and `result` that `prepare_vm_for_krown`
    reassigns from stage to stage.

  Each method is proved to return the code, and leave the state, that the
  matching function gives. The properties proved of the functions therefore
  hold of the machine.

Modules: `KrownTypes` (result codes, key types, messages), `Paths`,
`Process`, `FileSystem`, `KeyStore`, `Provision` and `Host`.

Four facts about the code shape the contracts:

- A successful call guarantees only the pair it settled on. A partial pair
  of the other type may remain. `Provision.PrepareSuccess` states the
  guarantee the code gives.
- The directory is created with `mkdir(path, 0700)`, which the umask
  reduces, and the creating call does not check that mode. Every key
  generation runs the directory check again (src/krown_auth.c:246), and
  that check sets an existing directory back to 0700
  (src/krown_auth.c:209-214). The model applies the umask. A successful
  call states mode 0700 whenever `.ssh` existed before the call, or no
  complete key pair existed, or the umask spares the owner bits.
- `prepare_vm_for_krown` reports only the public key's path, never its
  content.
- A successful call does not promise a readable public key, and the key
  type can switch twice in one call. Choosing the type can move from
  Ed25519 to RSA-4096 (src/krown_auth.c:413-427). The integrity check can
  then move back to Ed25519 when regenerating RSA-4096 fails
  (src/krown_auth.c:453-465). A pair adopted at that point is not read
  again. `Provision.CheckIntegritySpec` states the switch and the adoption
  as they happen.

## Model

| member | source | states |
|---|---|---|
| KrownTypes.Code | krown_auth.h:20-28 | each result has its enumeration value in -6..0, and 0 means success |
| KrownTypes.FromCode | krown_auth.h:20-28 | an integer reads back as a result exactly when it lies in -6..0, and as the result with that value |
| KrownTypes.CodeRoundTrip | krown_auth.h:20-28 | reading back a result's value gives the result |
| KrownTypes.KeyTypeCode | krown_auth.h:33-36 | Ed25519 is 0 and RSA-4096 is 1 |
| KrownTypes.Other | src/krown_auth.c:453-455 | the fallback key type always differs from the one that failed |
| KrownTypes.ErrorMessage | src/krown_auth.c:501-520 | the message lookup is total: each result's own message for its value, and the unknown message exactly for values outside the enumeration |
| Paths.HomeSource | src/krown_auth.c:34-58 | HOME when it is set, even to the empty string, else the passwd entry; stated by `Paths.HomePrefersEnvironment` and `Paths.HomeDirectory` |
| Paths.HomeDirectory | src/krown_auth.c:33-72 | the home directory comes whole from HOME, else from the passwd entry, and is refused, never truncated, when it needs `size` bytes or more |
| Paths.HomePrefersEnvironment | src/krown_auth.c:34-59 | when HOME is set the passwd entry is never consulted |
| Paths.CInt | src/krown_auth.c:85 | the `(int)size` cast keeps the low 32 bits as a signed value, and is the identity up to INT_MAX |
| Paths.BuildSshPath | src/krown_auth.c:77-88 | a built path is exactly home + "/.ssh/" + filename and fits the buffer; for sizes up to INT_MAX the build succeeds exactly when the home resolves and the path fits |
| Paths.BuildSshPathRejectsWrappedSize | src/krown_auth.c:83-85 | every buffer size that the int cast turns negative is refused |
| Paths.KeyName | src/krown_auth.c:227 | each key type's file name is a non-empty name without a slash |
| Paths.LongestPrivateKeyPath | src/krown_auth.c:77-88 | a HOME of 495 bytes for Ed25519, or 499 for RSA-4096, gives a 511-byte private key path, the longest that builds |
| Paths.SshDirPath | src/krown_auth.c:184-198 | the path exists exactly when the home resolves, is not empty, and `<home>/.ssh` fits in 512 bytes, that is when the home has at most 506 bytes; it is then `<home>/.ssh` |
| Paths.Truncated | src/krown_auth.c:83 | what snprintf stores in a buffer of `size` bytes: a prefix of the string, shorter than the buffer, and the whole string when it fits |
| Paths.PrivateKeyPath | src/krown_auth.c:229 | the private key path exists exactly when the home resolves and `<home>/.ssh/<name>` fits in 512 bytes, and is then that path |
| Paths.PubPathOf | src/krown_auth.c:234 | the source's `.pub` append: the private path plus ".pub" when that fits, and otherwise its first 511 bytes, as snprintf truncates into a 512-byte buffer |
| Paths.TruncatedPubPathIsPrivatePath | src/krown_auth.c:302-303 | for a 511-byte private key path, the source's `.pub` path is the private key path itself |
| Paths.PubPath | src/krown_auth.c:234 | the corrected `.pub` path exists exactly when the private path plus ".pub" fits in 512 bytes; it then differs from the private path and agrees with the source's append |
| Paths.GetPublicKeyPath | src/krown_auth.c:312-326 | MEMORY exactly for a null or empty buffer; otherwise SSH_DIR or the path home + "/.ssh/" + name + ".pub" that fits the buffer; a buffer of at most INT_MAX bytes that holds that path always succeeds |
| Paths.PublicPathMatchesPrivate | src/krown_auth.c:312-326 | whenever the public key path builds, it is the private key path plus ".pub" |
| Paths.KeyPathsAreNotSshDir | src/krown_auth.c:223-237 | key paths and their `.pub` companions are never the `.ssh` directory itself |
| Process.ExitStatus | src/krown_auth.c:117-160 | the normalised status lies in -1..255; it is -1 exactly when the child did not exit, and otherwise the low 8 bits of its exit value |
| Process.Available | src/krown_auth.c:179-180 | the tool answers when its status is 0 or 1; stated by `Process.AvailableOnlyAfterExit` and `FileSystem.CheckOpensshClientSpec` |
| Process.AvailableOnlyAfterExit | src/krown_auth.c:179-180 | the tool counts as available only after an exit with status 0 or 1 |
| Process.LineEnd | src/krown_auth.c:139 | one fgets call consumes at least one byte when bytes remain, at most the room it has, and stops after the first newline |
| Process.Pipe.Drain | src/krown_auth.c:136-142 | the drain loop reads the child's output to its end |
| FileSystem.Chmod | src/krown_auth.c:100-112 | chmod succeeds exactly on an existing, permitted path, and then sets that entry's mode and nothing else; a failure changes nothing |
| FileSystem.Mkdir | src/krown_auth.c:201-205 | mkdir succeeds exactly when permitted, creating a directory with mode 0700 less the umask and changing no other entry; a refused mkdir changes nothing |
| FileSystem.Written | src/krown_auth.c:291-292 | only key generation writes files, at its target and the target plus ".pub"; a command that never started writes nothing |
| FileSystem.RunCommand | src/krown_auth.c:117-160 | running a command appends it to the log, yields its normalised status, removes no entry, adds no entry the command does not write, leaves every unwritten entry as it was, and stores exactly what the command writes |
| FileSystem.CheckOpensshClient | src/krown_auth.c:162-181 | the two probes of ssh-keygen; what they promise is stated by `FileSystem.CheckOpensshClientSpec` |
| FileSystem.CheckOpensshClientSpec | src/krown_auth.c:162-181 | the tool is available exactly when the last probe answered 0 or 1; -V runs only after --help answered something else; probes touch no file |
| FileSystem.CheckOpensshClientRefusesNonExit | src/krown_auth.c:171-180 | probes that could not be spawned or were killed by a signal never report the tool |
| FileSystem.RunCommandKeygens | src/krown_auth.c:291 | a command adds one key generation to the log exactly when it is one |
| FileSystem.CheckOpensshClientKeygens | src/krown_auth.c:162-181 | the availability check runs no key generation |
| KeyStore.EnsureSshDirectory | src/krown_auth.c:183-221 | the directory guardian; its contract is stated by `KeyStore.EnsureSshDirectoryFailures`, `KeyStore.EnsureSshDirectorySuccess` and `KeyStore.EnsureSshDirectoryIdempotent` |
| KeyStore.EnsureSshDirectoryFailures | src/krown_auth.c:183-221 | the result is SUCCESS, SSH_DIR or PERMISSIONS. SSH_DIR exactly when the `.ssh` path does not build (the home is unresolvable, empty, or 507 bytes or longer), or mkdir of a missing directory is refused. PERMISSIONS exactly when an existing directory with the wrong mode cannot be chmod'ed. A failure changes nothing |
| KeyStore.EnsureSshDirectorySuccess | src/krown_auth.c:201-220 | on success the directory exists and nothing else changed; an existing one now has mode 0700, a new one 0700 less the umask, so 0700 under a umask that spares the owner |
| KeyStore.EnsureSshDirectoryIdempotent | src/krown_auth.c:207-217 | a directory already at 0700 is left untouched |
| KeyStore.EnsureSshDirectoryKeepsContents | src/krown_auth.c:183-221 | the guardian runs no command and changes no entry's kind, content or readability; it may only create `.ssh` or change modes |
| KeyStore.KeysExist | src/krown_auth.c:223-237 | krown_keys_exist with the corrected `.pub` path; stated by `KeyStore.KeysExistIff` |
| KeyStore.KeysExistIff | src/krown_auth.c:223-237 | the pair exists exactly when `<home>/.ssh/<name>` and `<name>.pub` both exist and fit; a failed path build means false, never an error |
| KeyStore.KeysExistSameKeys | src/krown_auth.c:223-237 | existence depends only on which paths are present |
| KeyStore.KeysExistAtDir | src/krown_auth.c:223-237 | changing only the `.ssh` directory entry does not change which pairs exist |
| KeyStore.KeysExistAsWritten | src/krown_auth.c:223-237 | krown_keys_exist as written, with the truncating `.pub` append; related to the corrected test by `KeyStore.KeysExistAsWrittenDiffers` |
| KeyStore.KeysExistAsWrittenDiffers | src/krown_auth.c:234-236 | as written and corrected, the existence test gives the same answer whenever the `.pub` path fits. For a 511-byte private key path, the as-written test answers whether the private key alone exists, and the corrected one answers false |
| KeyStore.GenerateSshKeys | src/krown_auth.c:239-310 | krown_generate_ssh_keys; stated by `KeyStore.GenerateChecksInOrder`, `KeyStore.GenerateKeepsExistingPair` and `KeyStore.GenerateSuccess` |
| KeyStore.RunKeygen | src/krown_auth.c:256-309 | the generation past its checks; stated by `KeyStore.RunKeygenSpec` |
| KeyStore.ChmodPair | src/krown_auth.c:297-307 | the two chmods after generation, with the corrected `.pub` path; stated by `KeyStore.ChmodPairSuccess` |
| KeyStore.ChmodPairAsWritten | src/krown_auth.c:297-307 | the two chmods as written; stated by `KeyStore.ChmodPairAsWrittenExposesPrivateKey` and `KeyStore.ChmodPairAsWrittenAgrees` |
| KeyStore.ChmodPairSuccess | src/krown_auth.c:297-307 | after the corrected chmod steps succeed, the private key has mode 0600, the public key 0644, and only modes changed |
| KeyStore.ChmodPairAsWrittenExposesPrivateKey | src/krown_auth.c:297-307 | as written, for a 511-byte private key path both chmods succeed and leave the private key with mode 0644 |
| KeyStore.ChmodPairAsWrittenAgrees | src/krown_auth.c:302-307 | when the `.pub` path fits, the as-written chmods are the corrected ones |
| KeyStore.RunKeygenSpec | src/krown_auth.c:256-309 | ssh-keygen runs once on the private key path when it builds; an unbuildable path is SSH_DIR with nothing run. KEY_GEN exactly when it exits non-zero. PERMISSIONS exactly when it exits 0 and then the private key, or a `.pub` that fits, is missing or refuses chmod. SSH_DIR after a zero exit exactly when the private chmod worked and the `.pub` path does not fit. On success the pair exists with modes 0600/0644. Never OPENSSH_NOT_FOUND, READ_KEY or MEMORY |
| KeyStore.GenerateChecksInOrder | src/krown_auth.c:239-249 | the tool is checked first, then the directory; either failure is returned before any key generation and leaves the files alone |
| KeyStore.GenerateKeepsExistingPair | src/krown_auth.c:250-253 | an existing pair without force runs no key generation and changes nothing but the `.ssh` directory entry; with that directory in order the call succeeds and changes no file |
| KeyStore.GenerateSuccess | src/krown_auth.c:239-310 | at most one key generation runs and nothing is removed. On success the pair exists: either it already existed and generation was not forced, or it was generated and has modes 0600/0644 |
| KeyStore.GenerateKeepsDirOk | src/krown_auth.c:239-310 | generation keeps a `.ssh` directory at 0700. Because it runs the directory check again, an existing `.ssh` ends at 0700 unless the call fails without changing any file. Under a umask that spares the owner, every success leaves `.ssh` at 0700 |
| KeyStore.GenerateAfterGuardianKeepsDirOk | src/krown_auth.c:251-310 | past the directory check, keeping an existing pair or running the key generation leaves a `.ssh` at 0700 in place |
| KeyStore.RunKeygenKeepsDirOk | src/krown_auth.c:256-309 | key generation and its chmods never touch the `.ssh` directory entry |
| KeyStore.ReadBack | src/krown_auth.c:348-354 | the bytes left in the buffer by fread and the newline strip; stated by `KeyStore.GetPublicKeyContent` and `KeyStore.GetPublicKeyOneLine` |
| KeyStore.GetPublicKey | src/krown_auth.c:328-358 | krown_get_public_key; stated by `KeyStore.GetPublicKeyErrors`, `KeyStore.GetPublicKeyContent` and `KeyStore.GetPublicKeyOneLine` |
| KeyStore.GetPublicKeyAtDir | src/krown_auth.c:328-358 | changing only the `.ssh` directory entry does not change what reading a public key gives |
| KeyStore.GetPublicKeyErrors | src/krown_auth.c:328-345 | MEMORY exactly for a null or empty buffer; SSH_DIR exactly when the path does not build; READ_KEY exactly when the file is missing or cannot be opened; no other error |
| KeyStore.GetPublicKeyContent | src/krown_auth.c:348-354 | a successful read is the file's first size - 1 bytes at most, less one trailing newline when there is one |
| KeyStore.GetPublicKeyOneLine | src/krown_auth.c:348-354 | a one-line key file that fits is read back as its line, without the newline |
| KeyStore.ChmodIfPresent | src/krown_auth.c:375-386 | an absent file is skipped with success and nothing changed; an existing one is chmod'ed, and the step fails exactly when chmod is refused |
| KeyStore.EnsureKeyPermissions | src/krown_auth.c:363-389 | ensure_key_permissions with the corrected `.pub` path; stated by `KeyStore.EnsureKeyPermissionsSpec` |
| KeyStore.EnsureKeyPermissionsAsWritten | src/krown_auth.c:363-389 | ensure_key_permissions as written, with the truncating `.pub` append |
| KeyStore.EnsureKeyPermissionsAsWrittenAgrees | src/krown_auth.c:372-386 | when the `.pub` path fits, the as-written function gives the corrected one's code and state |
| KeyStore.EnsureKeyPermissionsAsWrittenExposesPrivateKey | src/krown_auth.c:372-386 | as written, for a 511-byte private key path that exists and may be chmod'ed, the call gives SUCCESS and leaves the private key with mode 0644; the corrected one gives SSH_DIR and changes nothing |
| KeyStore.EnsureKeyPermissionsSpec | src/krown_auth.c:363-389 | only modes change; each key file that exists ends with its canonical mode, absent ones are skipped; SSH_DIR exactly when a path does not build; PERMISSIONS only when a chmod is refused on an existing file |
| KeyStore.EnsureKeyPermissionsKeepsDirOk | src/krown_auth.c:363-389 | fixing key modes never disturbs the `.ssh` directory |
| Provision.CheckPrerequisites | src/krown_auth.c:396-405 | steps 1-2, the tool check and then the directory guardian; stated by `Provision.PrepareWithoutTool`, `FileSystem.CheckOpensshClientSpec` and `KeyStore.EnsureSshDirectoryFailures` |
| Provision.SelectAndFinish | src/krown_auth.c:407-477 | steps 3-8 chained; stated by `Provision.SelectAndFinishOutcome` |
| Provision.ChooseKeyType | src/krown_auth.c:407-427 | steps 3-4; stated by `Provision.ChooseKeyTypeSpec` |
| Provision.RecheckKeys | src/krown_auth.c:429-444 | step 5; stated by `Provision.RecheckKeysSpec` |
| Provision.CheckIntegrity | src/krown_auth.c:446-467 | step 6; stated by `Provision.CheckIntegritySpec` |
| Provision.Finish | src/krown_auth.c:469-477 | steps 7-8; stated by `Provision.FinishSpec` |
| Provision.Prepare | src/krown_auth.c:391-478 | prepare_vm_for_krown; stated by `Provision.PrepareOutcome`, `Provision.PrepareSuccess` and the lemmas below |
| Provision.ChooseKeyTypeSpec | src/krown_auth.c:407-427 | an existing Ed25519 pair is used as is, and a successful Ed25519 generation is adopted; RSA-4096 is reached exactly when generating Ed25519 failed, and is then used as is when present; a stop happens only when RSA-4096 was absent and carries the code and state of its generation, and a generated RSA-4096 pair is continued with the state its successful generation left; the chosen pair exists; at most two key generations |
| Provision.RecheckKeysSpec | src/krown_auth.c:429-444 | a present pair passes. A missing RSA-4096 pair stops with KEY_GEN and changes nothing. A missing Ed25519 pair gives way to RSA-4096: a present RSA pair is adopted, an absent one is generated, and a stop carries the code of that generation. At most one generation |
| Provision.CheckIntegritySpec | src/krown_auth.c:446-467 | a readable key passes untouched. Otherwise a forced regeneration runs: its success keeps the type; on its failure a present fallback type is adopted as it is, and an absent one is generated, with a stop carrying the code of that generation. Within this step the type switches at most once, and an adopted or regenerated pair is not read again. At most two key generations |
| Provision.FinishSpec | src/krown_auth.c:469-477 | the last steps change only modes. On success both key files have their canonical modes, and the reported path is the pair's `.pub` path |
| Provision.PrepareRejectsMissingBuffer | src/krown_auth.c:392-394 | a null or empty buffer gives MEMORY with no command run and no file touched |
| Provision.PrepareWithoutTool | src/krown_auth.c:396-399 | without ssh-keygen the call gives OPENSSH_NOT_FOUND and creates no file |
| Provision.SelectAndFinishOutcome | src/krown_auth.c:407-477 | steps 3-8 only add to the state and run at most four key generations. They never report READ_KEY or MEMORY, and report a path exactly on success |
| Provision.PrepareOutcome | src/krown_auth.c:391-478 | the call only adds to the state and runs at most four key generations. It never reports READ_KEY, reports MEMORY only for a missing buffer, and reports a path exactly when it succeeds |
| Provision.PrepareSuccess | src/krown_auth.c:391-478 | on success the reported path is `<home>/.ssh/<name>.pub` of the settled type. Both files of that pair exist with modes 0600 and 0644. `.ssh` exists. It has mode 0700 when it existed before the call, or no complete key pair existed, or the umask spares the owner |
| Provision.PrepareSuccessDirOk | src/krown_auth.c:396-478 | the same statement about `.ssh` after a successful call. A `.ssh` present before the call passes the mode check at 209-214. Otherwise a key generation runs that check again |
| Provision.PrepareFallsBackToRsa | src/krown_auth.c:413-427 | when Ed25519 is absent and cannot be generated, and RSA-4096 is absent and then generated with a readable public key whose files accept chmod, a call whose buffer holds the path succeeds with RSA-4096 and reports its `.pub` path |
| Provision.ChooseKeyTypeSetsDirOk | src/krown_auth.c:413-427 | with `.ssh` present and no complete pair of either type, a key type choice that continues leaves `.ssh` at 0700, because the generation it runs sets that mode |
| Provision.SelectAndFinishDirOk | src/krown_auth.c:407-477 | with `.ssh` present and either at 0700 or without a complete pair of either type, steps 3-8 that get past the type choice leave `.ssh` at 0700 |
| Provision.FinishSizes | src/krown_auth.c:469-477 | under two non-zero buffer sizes the last steps change the same modes, and their results differ only between SUCCESS and SSH_DIR |
| Provision.PrepareBufferSizeMattersLast | src/krown_auth.c:475-477 | any two non-zero buffer sizes do the same filesystem work and settle on the same type; a buffer too small turns success into SSH_DIR, never MEMORY |
| Provision.GetPublicKeyModesOnly | src/krown_auth.c:328-358 | reading the public key does not depend on modes |
| Provision.PrepareIdempotent | src/krown_auth.c:408-412 | with the Ed25519 pair in place and readable, a call runs one probe and no key generation, reports the Ed25519 `.pub` path, changes only modes, and leaves the pair in place |
| Provision.PrepareKeepsReadableEd25519 | src/krown_auth.c:408-467 | with an Ed25519 pair present and readable, whatever the tool, directory or modes: no key generation runs, every entry keeps its kind, content and readability, and a successful call settles on Ed25519 |
| Provision.PrepareTwiceSamePath | src/krown_auth.c:391-478 | `Provision.PrepareIdempotent` applied twice. It starts from a readable Ed25519 pair in place, with `.ssh` at 0700 and chmod allowed on both key files. The tool answers both `--help` probes, and the buffer holds the path. Then two calls in a row both succeed and report the same path, and the second runs no key generation |
| Host.Machine.FileExists | src/krown_auth.c:93-95 | file_exists reports whether the machine holds the path |
| Host.Machine.SetFilePermissions | src/krown_auth.c:100-112 | set_file_permissions changes the machine exactly as `FileSystem.Chmod` |
| Host.Machine.MakeDirectory | src/krown_auth.c:202 | mkdir changes the machine exactly as `FileSystem.Mkdir` |
| Host.Machine.ExecuteCommand | src/krown_auth.c:117-160 | spawning, draining and normalising give the status and new state of `FileSystem.RunCommand` |
| Host.Machine.StoreString | src/krown_auth.c:83 | snprintf leaves the string, truncated to the buffer, followed by NUL, and the rest of the buffer untouched |
| Host.Machine.CheckOpensshClient | src/krown_auth.c:162-181 | the two probes give the answer and state of `FileSystem.CheckOpensshClient` |
| Host.Machine.EnsureSshDirectory | src/krown_auth.c:183-221 | the guardian returns the code and leaves the state of `KeyStore.EnsureSshDirectory` |
| Host.Machine.CreateDirectory | src/krown_auth.c:201-205 | a missing directory is created as `FileSystem.Mkdir` does; a refused mkdir gives SSH_DIR |
| Host.Machine.RepairDirectoryMode | src/krown_auth.c:207-217 | an existing directory at 0700 is left alone; otherwise it is chmod'ed to 0700 as `FileSystem.Chmod` does, and a refusal gives PERMISSIONS |
| Host.Machine.KeysExist | src/krown_auth.c:223-237 | krown_keys_exist answers `KeyStore.KeysExist` on the machine's state |
| Host.Machine.GenerateSshKeys | src/krown_auth.c:239-310 | generation returns the code and leaves the state of `KeyStore.GenerateSshKeys` |
| Host.Machine.GetPublicKeyPath | src/krown_auth.c:312-326 | returns the code of `Paths.GetPublicKeyPath`; on success the caller's buffer holds that path followed by NUL |
| Host.Machine.GetPublicKey | src/krown_auth.c:328-358 | returns the code of `KeyStore.GetPublicKey`; on success the caller's buffer holds the key it reads followed by NUL |
| Host.Machine.ReadKeyFile | src/krown_auth.c:348-354 | the buffer holds what `KeyStore.ReadBack` gives, at most Length - 1 bytes without one trailing newline, followed by NUL |
| Host.Machine.EnsureKeyPermissions | src/krown_auth.c:363-389 | returns the code and leaves the state of `KeyStore.EnsureKeyPermissions` |
| Host.Machine.ChooseKeyType | src/krown_auth.c:407-427 | steps 3-4 go on with, or stop as, `Provision.ChooseKeyType` |
| Host.Machine.RecheckKeys | src/krown_auth.c:429-444 | step 5 goes on with, or stops as, `Provision.RecheckKeys` |
| Host.Machine.CheckIntegrity | src/krown_auth.c:446-467 | step 6, with its 256-byte probe buffer, goes on with, or stops as, `Provision.CheckIntegrity` |
| Host.Machine.PrepareVmForKrown | src/krown_auth.c:391-478 | the whole call returns the code and leaves the state of `Provision.Prepare`; on success the caller's buffer holds the reported path followed by NUL |

## Left out

- The `_WIN32` branches are not modelled; the model is POSIX only. On Windows, `set_file_permissions` always reports success, and the directory mode check is skipped.
- The `stat` call at src/krown_auth.c:209 is taken to succeed on an existing entry. When it fails, the source silently skips the mode check, and the model does not cover that path.
- The output-capturing branch of `execute_command` (src/krown_auth.c:125-135) is not modelled, because no function of the module uses it. Only the drain loop is modelled.
- The shell command strings and their quoting (src/krown_auth.c:265-289) are not modelled. The log records the key type and private key path each key generation is run with. A path containing a single quote, which would break the command line, is not modelled.
- ssh-keygen, the shell and the cryptography are foreign. Their effect is an oracle per command position: its status, its output, and which of the two key files it writes.
- The mkdir and chmod oracles are fixed per path for the whole run: a path that refuses chmod once refuses it every time.
- Whether a file can be opened for reading is an attribute of the entry, independent of its mode bits and of the process's identity.
- `fread` is taken to read everything available up to the requested count. Short reads and read errors are not modelled.
- Host.Machine.StoreString: when a path exceeds INT_MAX bytes, snprintf's buffer contents are unspecified; the model still stores the truncated string.
- Host.Machine.GetPublicKeyPath: the contract does not state what a failed call leaves in the caller's buffer.
- Host.Machine.GetPublicKey: the contract does not state that a failed call leaves the caller's buffer untouched.
- Host.Machine.GetPublicKey: computes the key path again rather than reading it back from its path buffer up to the NUL. By the contract of `Host.Machine.GetPublicKeyPath` the buffer holds that same path. A home containing a NUL character, which a C string cannot hold, is not excluded.
- Host.Machine.PrepareVmForKrown: the contract does not state the caller's buffer after a failed call.
- KeyStore.KeysExist: models the corrected `.pub` path. For private key paths of 508 to 511 bytes, it answers false where the source tests a truncated path. `KeyStore.KeysExistAsWritten` models the source's answer.
- KeyStore.KeysExistIff: states the corrected test. For a 511-byte private key path the source answers whether the private key exists; `KeyStore.KeysExistAsWrittenDiffers` states that.
- KeyStore.RunKeygen: models the corrected `.pub` path. Where the `.pub` path does not fit it gives SSH_DIR, while the source chmods the truncated path. `KeyStore.ChmodPairAsWritten` models those chmods.
- KeyStore.RunKeygenSpec: states the corrected generation. SSH_DIR after a zero exit does not happen in the source, which instead chmods the truncated path.
- KeyStore.GenerateSshKeys: built on the corrected `KeyStore.KeysExist` and `KeyStore.RunKeygen`, so it describes the corrected program for private key paths of 508 to 511 bytes.
- KeyStore.EnsureKeyPermissions: models the corrected `.pub` path. Where it does not fit the model gives SSH_DIR, while the source chmods the truncated path and can return SUCCESS. `KeyStore.EnsureKeyPermissionsAsWritten` models the source.
- KeyStore.EnsureKeyPermissionsSpec: states the corrected function. SSH_DIR for an overlong `.pub` path does not happen in the source; `KeyStore.EnsureKeyPermissionsAsWrittenExposesPrivateKey` states what does.
- Provision.PrepareSuccess: does not state mode 0700 for a `.ssh` created by the call under a umask that strips owner bits, when a complete key pair already existed. On a real filesystem the key files cannot exist without their directory, but the model's flat map of paths allows it.
- Provision.PrepareTwiceSamePath: covers only a first call that finds a readable Ed25519 pair in place. After a first call that settled on RSA-4096, a second call tries Ed25519 again (`Provision.ChooseKeyTypeSpec`), and may settle on another type.
- Provision.Prepare: built on the corrected key store functions. For a HOME that gives a private key path of 508 to 511 bytes, it and the lemmas about it (`Provision.PrepareSuccess` among them) describe the corrected program. The source can then return SUCCESS with the Ed25519 private key at mode 0644.
- Host.Machine.KeysExist: uses the corrected `.pub` path, like `KeyStore.KeysExist`.
- Host.Machine.GenerateSshKeys: uses the corrected `.pub` path, like `KeyStore.RunKeygen`. Where it does not fit, the machine returns SSH_DIR where the source chmods the truncated path.
- Host.Machine.EnsureKeyPermissions: uses the corrected `.pub` path, like `KeyStore.EnsureKeyPermissions`.
- The French texts of `krown_auth_get_error_message` are not modelled; each text is one constructor of `KrownTypes.Message`.
- `krown_auth_cleanup` is not modelled: it only frees memory.
- krown_auth_main.c, the command-line front end, is not part of this model.
- Concurrent calls, and races between the checks and the changes on the real filesystem, are not modelled. The module is single-threaded.
- The Windows environment variables USERPROFILE, HOMEDRIVE and HOMEPATH are not modelled; only HOME and the passwd entry are.

## Findings

| source | as written | input that shows it | evidently intended | confidence | as-written member | corrected member |
|---|---|---|---|---|---|---|
| src/krown_auth.c:302-307 | the `.pub` path is built with `snprintf(buf, 512, "%s.pub", priv)`, whose result is neither checked nor refused when truncated | a HOME of 495 characters with Ed25519 (or 499 with RSA) gives a 511-byte private key path. The `.pub` path is then truncated back to the private key path, and the second chmod sets the private key to 0644 | a `.pub` path that does not fit is refused like every other path; the private key keeps mode 0600 | not executed | KeyStore.ChmodPairAsWrittenExposesPrivateKey | KeyStore.ChmodPairSuccess |
| src/krown_auth.c:234-236 | keys_exist builds the `.pub` path with the same unchecked `snprintf` | the same 511-byte private key path, with only the private key on disk: the `.pub` path is the private key path, and the pair is reported present | the pair is present only when a `.pub` file exists beside the private key | not executed | KeyStore.KeysExistAsWrittenDiffers | KeyStore.KeysExistIff |
| src/krown_auth.c:372-386 | ensure_key_permissions builds the `.pub` path with the same unchecked `snprintf` | the same 511-byte private key path, present and open to chmod: the private key is set to 0600, then to 0644, and the call returns SUCCESS | the call refuses an overlong `.pub` path; the private key keeps mode 0600 | not executed | KeyStore.EnsureKeyPermissionsAsWrittenExposesPrivateKey | KeyStore.EnsureKeyPermissionsSpec |
