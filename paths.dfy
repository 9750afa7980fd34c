// Path resolution: the home directory, paths under <home>/.ssh, and the
// fixed-size buffers they are written into. A path that does not fit is
// refused rather than truncated; the source's truncating `.pub` append is
// kept beside the refusing one, to show where the two differ.

module Paths {
  import opened KrownTypes

  type Path = string

  /** Capacity of every path buffer the module allocates itself. */
  const MAX_PATH_LENGTH: nat := 512
  const INT_MAX: int := 0x7FFF_FFFF
  const NUL: char := '\0'

  /** The parts of the environment consulted for the home directory:
      the HOME variable and the passwd entry of the current user. */
  datatype Env = Env(homeVar: Option<string>, passwdDir: Option<string>)

  /** HOME wins whenever it is set, even to the empty string. */
  function HomeSource(env: Env): Option<string>
  {
    if env.homeVar.Some? then env.homeVar else env.passwdDir
  }

  /** get_home_directory with a buffer of `size` bytes: the home directory, whole,
      or nothing when none is known or it needs `size` bytes or more. */
  function HomeDirectory(env: Env, size: nat): (r: Option<string>)
    ensures r.Some? ==> |r.value| < size
    ensures r.Some? ==> HomeSource(env) == r
    ensures r.None? <==> HomeSource(env).None? || |HomeSource(env).value| >= size
  {
    match HomeSource(env)
    case None => None
    case Some(home) => if |home| >= size then None else Some(home)
  }

  /** HOME, when set, decides alone: the passwd entry is then never looked at. */
  lemma HomePrefersEnvironment(env: Env, other: Option<string>, size: nat)
    requires env.homeVar.Some?
    ensures HomeDirectory(env, size) == HomeDirectory(env.(passwdDir := other), size)
  {
  }

  /** Conversion of a size_t to a 32-bit int: the low 32 bits, read as two's complement. */
  function CInt(size: nat): (r: int)
    ensures -0x8000_0000 <= r <= INT_MAX
    ensures size <= INT_MAX ==> r == size
    ensures (r - size) % 0x1_0000_0000 == 0
  {
    var low := size % 0x1_0000_0000;
    if low > INT_MAX then low - 0x1_0000_0000 else low
  }

  /** build_ssh_path: <home>/.ssh/<filename> written into a buffer of `size` bytes.
      The home directory is first resolved into a buffer of MAX_PATH_LENGTH bytes;
      snprintf's return value is compared with the size cast to int. */
  function BuildSshPath(env: Env, filename: string, size: nat): (r: Option<Path>)
    ensures r.Some? ==>
      HomeDirectory(env, MAX_PATH_LENGTH).Some? &&
      r.value == HomeDirectory(env, MAX_PATH_LENGTH).value + "/.ssh/" + filename &&
      |r.value| < size
    ensures size <= INT_MAX ==>
      (r.Some? <==> HomeDirectory(env, MAX_PATH_LENGTH).Some? &&
                    |HomeDirectory(env, MAX_PATH_LENGTH).value + "/.ssh/" + filename| < size)
  {
    match HomeDirectory(env, MAX_PATH_LENGTH)
    case None => None
    case Some(home) =>
      var p := home + "/.ssh/" + filename;
      // snprintf reports the untruncated length, or a negative value past INT_MAX
      var ret := if |p| > INT_MAX then -1 else |p|;
      if ret < 0 || ret >= CInt(size) then None else Some(p)
  }

  /** The cast of the buffer size to int makes every size whose low 32 bits
      exceed INT_MAX look negative, so such a buffer is always refused. */
  lemma BuildSshPathRejectsWrappedSize(env: Env, filename: string, size: nat)
    requires size % 0x1_0000_0000 > INT_MAX
    ensures BuildSshPath(env, filename, size).None?
  {
  }

  /** The base name of each key type's private key file. */
  function KeyName(t: KeyType): (name: string)
    ensures |name| > 0 && '/' !in name
  {
    if t == Ed25519 then "id_ed25519" else "id_rsa"
  }

  /** The file name of each key type's public key. */
  function PublicKeyName(t: KeyType): string
  {
    KeyName(t) + ".pub"
  }

  /** The bytes snprintf stores into a buffer of `size` bytes, before its terminating NUL. */
  function Truncated(s: string, size: nat): (r: string)
    requires size > 0
    ensures |r| < size && r <= s
    ensures |s| < size ==> r == s
  {
    if |s| < size then s else s[..size - 1]
  }

  /** The private key path of a key type, built into a MAX_PATH_LENGTH buffer. */
  function PrivateKeyPath(env: Env, t: KeyType): (r: Option<Path>)
    ensures r.Some? <==>
      HomeDirectory(env, MAX_PATH_LENGTH).Some? &&
      |HomeDirectory(env, MAX_PATH_LENGTH).value + "/.ssh/" + KeyName(t)| < MAX_PATH_LENGTH
    ensures r.Some? ==> r.value == HomeDirectory(env, MAX_PATH_LENGTH).value + "/.ssh/" + KeyName(t)
  {
    BuildSshPath(env, KeyName(t), MAX_PATH_LENGTH)
  }

  /** The `.pub` companion of a private key path as the source builds it:
      appended with snprintf into MAX_PATH_LENGTH bytes, which truncates. */
  function PubPathOf(priv: Path): (pub: Path)
    ensures |priv| + 4 < MAX_PATH_LENGTH ==> pub == priv + ".pub"
    ensures |pub| < MAX_PATH_LENGTH && pub <= priv + ".pub"
    ensures |priv| + 4 >= MAX_PATH_LENGTH ==> |pub| == MAX_PATH_LENGTH - 1
  {
    Truncated(priv + ".pub", MAX_PATH_LENGTH)
  }

  /** A private key path of the longest length that fits: the truncating
      append then yields the private key path itself. */
  lemma TruncatedPubPathIsPrivatePath(priv: Path)
    requires |priv| == MAX_PATH_LENGTH - 1
    ensures PubPathOf(priv) == priv
  {
  }

  /** A HOME 16 bytes short of the limit for Ed25519 (495 bytes), or 12
      bytes short for RSA-4096 (499 bytes), gives a private key path of
      511 bytes, the longest that fits. */
  lemma LongestPrivateKeyPath(env: Env, t: KeyType)
    requires env.homeVar.Some?
    requires |env.homeVar.value| + |"/.ssh/"| + |KeyName(t)| == MAX_PATH_LENGTH - 1
    ensures PrivateKeyPath(env, t).Some?
    ensures |PrivateKeyPath(env, t).value| == MAX_PATH_LENGTH - 1
  {
  }

  /** The `.pub` companion of a private key path built the way every other
      path of the module is: refused when it does not fit in MAX_PATH_LENGTH bytes. */
  function PubPath(priv: Path): (pub: Option<Path>)
    ensures pub.Some? <==> |priv| + 4 < MAX_PATH_LENGTH
    ensures pub.Some? ==> pub.value == priv + ".pub" && pub.value != priv
    ensures pub.Some? ==> pub == Some(PubPathOf(priv))
  {
    var p := priv + ".pub";
    if |p| >= MAX_PATH_LENGTH then None else Some(p)
  }

  /** The directory that holds the keys: <home>/.ssh, when a non-empty home
      resolves and the path fits in MAX_PATH_LENGTH bytes. */
  function SshDirPath(env: Env): (r: Option<Path>)
    ensures r.Some? <==>
      HomeDirectory(env, MAX_PATH_LENGTH).Some? && HomeDirectory(env, MAX_PATH_LENGTH).value != [] &&
      |HomeDirectory(env, MAX_PATH_LENGTH).value| + 5 < MAX_PATH_LENGTH
    ensures r.Some? ==> r.value == HomeDirectory(env, MAX_PATH_LENGTH).value + "/.ssh"
  {
    match HomeDirectory(env, MAX_PATH_LENGTH)
    case None => None
    case Some(home) =>
      if home == [] || |home + "/.ssh"| >= MAX_PATH_LENGTH then None else Some(home + "/.ssh")
  }

  /** krown_get_public_key_path: a missing or empty buffer is a memory error,
      a path that does not fit is a directory error. */
  function GetPublicKeyPath(env: Env, t: KeyType, hasBuffer: bool, size: nat): (r: Result<Path>)
    ensures r == Err(ErrMemory) <==> !hasBuffer || size == 0
    ensures r.Err? ==> r.error == ErrMemory || r.error == ErrSshDir
    ensures r.Ok? ==>
      HomeDirectory(env, MAX_PATH_LENGTH).Some? &&
      r.value == HomeDirectory(env, MAX_PATH_LENGTH).value + "/.ssh/" + KeyName(t) + ".pub" &&
      |r.value| < size
    ensures (hasBuffer && 0 < size <= INT_MAX && HomeDirectory(env, MAX_PATH_LENGTH).Some? &&
             |HomeDirectory(env, MAX_PATH_LENGTH).value + "/.ssh/" + KeyName(t) + ".pub"| < size) ==> r.Ok?
  {
    if !hasBuffer || size == 0 then Err(ErrMemory)
    else match BuildSshPath(env, PublicKeyName(t), size)
      case None => Err(ErrSshDir)
      case Some(p) => Ok(p)
  }

  /** Whenever the public key path fits, it is the private key path plus ".pub",
      and then the truncating append of the source yields the same path. */
  lemma PublicPathMatchesPrivate(env: Env, t: KeyType)
    requires GetPublicKeyPath(env, t, true, MAX_PATH_LENGTH).Ok?
    ensures PrivateKeyPath(env, t).Some?
    ensures GetPublicKeyPath(env, t, true, MAX_PATH_LENGTH).value == PrivateKeyPath(env, t).value + ".pub"
    ensures PubPath(PrivateKeyPath(env, t).value) == Some(PrivateKeyPath(env, t).value + ".pub")
  {
    var home := HomeDirectory(env, MAX_PATH_LENGTH).value;
    assert home + "/.ssh/" + KeyName(t) + ".pub" == home + "/.ssh/" + PublicKeyName(t);
  }

  /** Key files and the key directory are distinct paths: a key path is
      strictly longer than the directory path, and so is its `.pub` companion. */
  lemma KeyPathsAreNotSshDir(env: Env, t: KeyType)
    requires SshDirPath(env).Some? && PrivateKeyPath(env, t).Some?
    ensures PrivateKeyPath(env, t).value != SshDirPath(env).value
    ensures PubPath(PrivateKeyPath(env, t).value).Some? ==>
              PubPath(PrivateKeyPath(env, t).value).value != SshDirPath(env).value
    ensures PrivateKeyPath(env, t).value + ".pub" != SshDirPath(env).value
  {
    var home := HomeDirectory(env, MAX_PATH_LENGTH).value;
    var priv := PrivateKeyPath(env, t).value;
    assert |priv| == |home| + 6 + |KeyName(t)|;
    assert |SshDirPath(env).value| == |home| + 5;
  }
}
