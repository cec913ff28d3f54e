/** Model of `PasswordManager` (pmcrypt/manager.py): iterated, salted and
    peppered hashing of a password, and verification against a stored hash.

    The class has no fields, so its operations live in this module. What the
    Python code reads from outside the program is passed in:
      - `digest` stands for `sha256(s.encode()).hexdigest()`;
      - `env` stands for `os.environ`;
      - `randomBytes` are the bytes `secrets.token_hex` would draw. */
module PasswordManager {
  import opened Secrets

  datatype Option<T> = None | Some(value: T)

  /** `_ITERATIONS`: the default number of rounds. */
  const DefaultIterations: nat := 100_000

  /** The default `length` of `generate_salt`, in bytes. */
  const DefaultSaltBytes: nat := 16

  /** The environment variable the pepper is read from by default. */
  const DefaultPepperVar: string := "PEPPER"

  predicate IsHexDigest(s: string) {
    |s| == 64 && IsLowerHex(s)
  }

  /** `sha256(s.encode()).hexdigest()`, left abstract: any function from
      strings to strings. */
  type Digest = string -> string

  /** What SHA-256 with `hexdigest()` guarantees of its output: 64 lower-case
      hex characters, whatever the input. */
  ghost predicate IsHexDigestFunction(digest: Digest) {
    forall s :: IsHexDigest(digest(s))
  }

  // ---------------------------------------------------------------------------
  // generate_salt and get_pepper

  /** `generate_salt(length)`: `2 * length` lower-case hex characters
      rendered from `length` random bytes. */
  function GenerateSalt(length: nat, randomBytes: seq<byte>): (salt: string)
    requires |randomBytes| == length
    ensures |salt| == 2 * length
    ensures IsLowerHex(salt)
    ensures FromHex(salt) == randomBytes
  {
    FromHexTokenHex(randomBytes);
    TokenHex(randomBytes)
  }

  /** `env_name or "PEPPER"`: an absent or empty name falls back to "PEPPER". */
  function EnvName(envName: Option<string>): (name: string)
    ensures name != ""
    ensures envName.Some? && envName.value != "" ==> name == envName.value
    ensures envName == None || envName == Some("") ==> name == DefaultPepperVar
  {
    if envName.Some? && envName.value != "" then envName.value else DefaultPepperVar
  }

  /** `get_pepper(env_name)`: the value of the named variable, or None when unset. */
  function GetPepper(envName: Option<string>, env: map<string, string>): (pepper: Option<string>)
    ensures pepper.Some? <==> EnvName(envName) in env
    ensures pepper.Some? ==> pepper.value == env[EnvName(envName)]
  {
    var name := EnvName(envName);
    if name in env then Some(env[name]) else None
  }

  // ---------------------------------------------------------------------------
  // hash

  /** The salt `hash` uses: the given one unless it is absent or empty. */
  function ResolveSalt(salt: Option<string>, randomBytes: seq<byte>): (s: string)
    requires |randomBytes| == DefaultSaltBytes
    ensures salt.Some? && salt.value != "" ==> s == salt.value
    ensures salt == None || salt == Some("") ==> s == GenerateSalt(DefaultSaltBytes, randomBytes)
    ensures salt == None || salt == Some("") ==> |s| == 32 && IsLowerHex(s)
  {
    if salt.None? || salt.value == "" then GenerateSalt(DefaultSaltBytes, randomBytes) else salt.value
  }

  /** How many rounds `hash` runs, that is the length of `range(hash_times)`:
      the default when `iterations` is None, otherwise exactly `iterations`,
      and none at all when it is 0 or negative. */
  function Rounds(iterations: Option<int>): (n: nat)
    ensures iterations == None ==> n == DefaultIterations
    ensures iterations.Some? && iterations.value >= 0 ==> n == iterations.value
    ensures iterations.Some? && iterations.value <= 0 ==> n == 0
  {
    match iterations
    case None => DefaultIterations
    case Some(k) => if k < 0 then 0 else k
  }

  /** What the pepper adds to each round: its text when truthy, nothing otherwise. */
  function PepperText(pepper: Option<string>): (t: string)
    ensures pepper.Some? && pepper.value != "" ==> t == pepper.value
    ensures t == ""  <==> pepper == None || pepper == Some("")
  {
    if pepper.Some? && pepper.value != "" then pepper.value else ""
  }

  /** One round: append the salt, append the pepper if truthy, digest. */
  function Round(working: string, salt: string, pepper: Option<string>, digest: Digest): (r: string)
    ensures IsHexDigestFunction(digest) ==> IsHexDigest(r)
  {
    digest(working + salt + PepperText(pepper))
  }

  /** The value after `n` rounds starting from the password: the salt (and the
      pepper) is appended again in every round, not once. */
  function Iter(n: nat, password: string, salt: string, pepper: Option<string>, digest: Digest): (r: string)
    ensures n == 0 ==> r == password
    ensures n >= 1 && IsHexDigestFunction(digest) ==> IsHexDigest(r)
  {
    if n == 0 then password
    else Round(Iter(n - 1, password, salt, pepper, digest), salt, pepper, digest)
  }

  /** `hash(password, salt, iterations)` as a value: the hashed string and the salt.
      With no rounds the password comes back unchanged; with at least one
      (the default included) the hashed string is a digest. The salt is the
      caller's when non-empty, otherwise 32 hex characters rendered from the
      random bytes. */
  function HashResult(password: string, salt: Option<string>, iterations: Option<int>,
                      env: map<string, string>, randomBytes: seq<byte>, digest: Digest): (r: (string, string))
    requires |randomBytes| == DefaultSaltBytes
    ensures Rounds(iterations) == 0 ==> r.0 == password
    ensures Rounds(iterations) >= 1 && IsHexDigestFunction(digest) ==> IsHexDigest(r.0)
    ensures salt.Some? && salt.value != "" ==> r.1 == salt.value
    ensures salt == None || salt == Some("") ==> |r.1| == 32 && IsLowerHex(r.1) && FromHex(r.1) == randomBytes
  {
    var s := ResolveSalt(salt, randomBytes);
    (Iter(Rounds(iterations), password, s, GetPepper(None, env), digest), s)
  }

  /** `PasswordManager.hash`, step by step as the Python method runs it. */
  method Hash(password: string, salt: Option<string>, iterations: Option<int>,
              env: map<string, string>, randomBytes: seq<byte>, digest: Digest)
    returns (hashed: string, usedSalt: string)
    requires |randomBytes| == DefaultSaltBytes
    ensures (hashed, usedSalt) == HashResult(password, salt, iterations, env, randomBytes, digest)
  {
    if salt.None? || salt.value == "" {
      usedSalt := GenerateSalt(DefaultSaltBytes, randomBytes);
    } else {
      usedSalt := salt.value;
    }

    var pepper := GetPepper(None, env);

    hashed := password;
    var hashTimes: int := DefaultIterations;
    if iterations.Some? {
      hashTimes := iterations.value;
    }
    var i: nat := 0;
    while i < hashTimes
      invariant i <= Rounds(iterations)
      invariant hashed == Iter(i, password, usedSalt, pepper, digest)
    {
      // The loop body is one Round on the previous working string.
      ghost var previous := hashed;
      assert Iter(i + 1, password, usedSalt, pepper, digest) == Round(previous, usedSalt, pepper, digest);
      hashed := hashed + usedSalt;
      if pepper.Some? && pepper.value != "" {
        hashed := hashed + pepper.value;
      }
      assert hashed == previous + usedSalt + PepperText(pepper);
      hashed := digest(hashed);
      i := i + 1;
    }
    assert i == Rounds(iterations);
  }

  // ---------------------------------------------------------------------------
  // check

  /** `iterations or _ITERATIONS`: None and 0 both mean the default. */
  function CheckIterations(iterations: Option<int>): (k: int)
    ensures iterations == None || iterations == Some(0) ==> k == DefaultIterations
    ensures iterations.Some? && iterations.value != 0 ==> k == iterations.value
  {
    if iterations == None || iterations == Some(0) then DefaultIterations else iterations.value
  }

  /** `PasswordManager.check`: rehash with the given salt and compare. For a
      non-empty salt and a count other than 0 it accepts exactly what `hash`
      with the same salt and count returns; a count of 0 means the default. */
  function Check(password: string, hashedPassword: string, salt: string, iterations: Option<int>,
                 env: map<string, string>, randomBytes: seq<byte>, digest: Digest): (ok: bool)
    requires |randomBytes| == DefaultSaltBytes
    ensures salt != "" && iterations != Some(0) ==>
              (ok <==> hashedPassword == HashResult(password, Some(salt), iterations, env, randomBytes, digest).0)
    ensures salt != "" && iterations == Some(0) ==>
              (ok <==> hashedPassword == HashResult(password, Some(salt), None, env, randomBytes, digest).0)
  {
    var (otherPass, _) := HashResult(password, Some(salt), Some(CheckIterations(iterations)), env, randomBytes, digest);
    otherPass == hashedPassword
  }
}
