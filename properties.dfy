/** What `PasswordManager.hash` and `PasswordManager.check` promise, stated
    over the model in manager.dfy. */
module ManagerProperties {
  import opened Secrets
  import opened PasswordManager

  // ---------------------------------------------------------------------------
  // The round structure

  /** Rounds compose: `m` rounds on top of `n` rounds are `m + n` rounds. */
  lemma {:induction false} IterCompose(m: nat, n: nat, password: string, salt: string,
                                       pepper: Option<string>, digest: Digest)
    ensures Iter(m + n, password, salt, pepper, digest)
         == Iter(m, Iter(n, password, salt, pepper, digest), salt, pepper, digest)
  {
    if m > 0 {
      IterCompose(m - 1, n, password, salt, pepper, digest);
    }
  }

  /** The first round appends the salt to the password itself; every later
      round appends it again to the previous digest. */
  lemma FirstRoundThenRest(n: nat, password: string, salt: string,
                           pepper: Option<string>, digest: Digest)
    ensures Iter(n + 1, password, salt, pepper, digest)
         == Iter(n, digest(password + salt + PepperText(pepper)), salt, pepper, digest)
  {
    IterCompose(n, 1, password, salt, pepper, digest);
  }

  /** An absent pepper and an empty pepper contribute the same: nothing. */
  lemma {:induction false} IterNonePepperIsEmptyPepper(n: nat, password: string, salt: string, digest: Digest)
    ensures Iter(n, password, salt, None, digest) == Iter(n, password, salt, Some(""), digest)
  {
    if n > 0 {
      IterNonePepperIsEmptyPepper(n - 1, password, salt, digest);
    }
  }

  // ---------------------------------------------------------------------------
  // hash

  /** Two hashes with generated salts drawn from different random bytes carry
      different salts. */
  lemma GeneratedSaltsDiffer(password: string, iterations: Option<int>, env: map<string, string>,
                             randomBytes1: seq<byte>, randomBytes2: seq<byte>, digest: Digest)
    requires |randomBytes1| == DefaultSaltBytes && |randomBytes2| == DefaultSaltBytes
    requires randomBytes1 != randomBytes2
    ensures HashResult(password, None, iterations, env, randomBytes1, digest).1
         != HashResult(password, None, iterations, env, randomBytes2, digest).1
  {
    TokenHexInjective(randomBytes1, randomBytes2);
  }

  /** With an explicit non-empty salt the random source is not consulted, so
      equal arguments give equal (hash, salt) pairs. */
  lemma ExplicitSaltIsDeterministic(password: string, salt: string, iterations: Option<int>,
                                    env: map<string, string>, randomBytes1: seq<byte>,
                                    randomBytes2: seq<byte>, digest: Digest)
    requires |randomBytes1| == DefaultSaltBytes && |randomBytes2| == DefaultSaltBytes
    requires salt != ""
    ensures HashResult(password, Some(salt), iterations, env, randomBytes1, digest)
         == HashResult(password, Some(salt), iterations, env, randomBytes2, digest)
  {
  }

  /** Calling `hash` twice with the same non-empty salt and the same pepper
      gives the same pair, whatever the random source yields. */
  method RepeatedSaltedHash(password: string, salt: string, iterations: Option<int>,
                            env: map<string, string>, randomBytes1: seq<byte>,
                            randomBytes2: seq<byte>, digest: Digest)
    returns (same: bool)
    requires |randomBytes1| == DefaultSaltBytes && |randomBytes2| == DefaultSaltBytes
    requires salt != ""
    ensures same
  {
    var hashed1, salt1 := Hash(password, Some(salt), iterations, env, randomBytes1, digest);
    var hashed2, salt2 := Hash(password, Some(salt), iterations, env, randomBytes2, digest);
    same := hashed1 == hashed2 && salt1 == salt2;
  }

  /** An unset PEPPER variable and an empty one give the same hash. */
  lemma UnsetPepperIsEmptyPepper(password: string, salt: Option<string>, iterations: Option<int>,
                                 env: map<string, string>, randomBytes: seq<byte>, digest: Digest)
    requires |randomBytes| == DefaultSaltBytes
    requires DefaultPepperVar !in env
    ensures HashResult(password, salt, iterations, env, randomBytes, digest)
         == HashResult(password, salt, iterations, env[DefaultPepperVar := ""], randomBytes, digest)
  {
    IterNonePepperIsEmptyPepper(Rounds(iterations), password, ResolveSalt(salt, randomBytes), digest);
  }

  /** Hashing a stored hash again with the same salt adds rounds: `m` more
      rounds on an `n`-round hash equal an `n + m`-round hash. */
  lemma RehashAddsRounds(password: string, salt: string, n: nat, m: nat,
                         env: map<string, string>, randomBytes: seq<byte>, digest: Digest)
    requires |randomBytes| == DefaultSaltBytes
    requires salt != ""
    ensures HashResult(HashResult(password, Some(salt), Some(n), env, randomBytes, digest).0,
                       Some(salt), Some(m), env, randomBytes, digest).0
         == HashResult(password, Some(salt), Some(n + m), env, randomBytes, digest).0
  {
    IterCompose(m, n, password, salt, GetPepper(None, env), digest);
  }

  /** One round, no pepper: the digest of the password followed by the salt. */
  lemma OneRoundWithoutPepper(env: map<string, string>, randomBytes: seq<byte>, digest: Digest)
    requires |randomBytes| == DefaultSaltBytes
    requires DefaultPepperVar !in env
    ensures HashResult("password", Some("test"), Some(1), env, randomBytes, digest)
         == (digest("passwordtest"), "test")
  {
    assert "password" + "test" + "" == "passwordtest";
  }

  // ---------------------------------------------------------------------------
  // get_pepper

  /** `hash` reads the variable PEPPER: no name and an empty name both mean it. */
  lemma PepperDefaultName(env: map<string, string>)
    ensures GetPepper(None, env) == GetPepper(Some(""), env) == GetPepper(Some(DefaultPepperVar), env)
    ensures GetPepper(None, env) == if DefaultPepperVar in env then Some(env[DefaultPepperVar]) else None
  {
  }

  // ---------------------------------------------------------------------------
  // check

  /** `check` accepts what `hash` produced, for a non-empty salt and any
      iteration count other than 0. */
  lemma CheckAcceptsHash(password: string, salt: string, iterations: Option<int>,
                         env: map<string, string>, randomBytes1: seq<byte>,
                         randomBytes2: seq<byte>, digest: Digest)
    requires |randomBytes1| == DefaultSaltBytes && |randomBytes2| == DefaultSaltBytes
    requires salt != ""
    requires iterations != Some(0)
    ensures Check(password, HashResult(password, Some(salt), iterations, env, randomBytes1, digest).0,
                  salt, iterations, env, randomBytes2, digest)
  {
    assert Rounds(Some(CheckIterations(iterations))) == Rounds(iterations);
  }

  /** `check` accepts what `hash` returned when `hash` generated the salt
      itself, whatever the random source yields the second time. */
  lemma CheckAcceptsGeneratedSalt(password: string, iterations: Option<int>,
                                  env: map<string, string>, randomBytes1: seq<byte>,
                                  randomBytes2: seq<byte>, digest: Digest)
    requires |randomBytes1| == DefaultSaltBytes && |randomBytes2| == DefaultSaltBytes
    requires iterations != Some(0)
    ensures var (hashed, salt) := HashResult(password, None, iterations, env, randomBytes1, digest);
            Check(password, hashed, salt, iterations, env, randomBytes2, digest)
  {
  }

  /** `check` with 0 iterations runs the default 100,000 rounds. */
  lemma CheckZeroMeansDefault(password: string, hashedPassword: string, salt: string,
                              env: map<string, string>, randomBytes: seq<byte>, digest: Digest)
    requires |randomBytes| == DefaultSaltBytes
    ensures Check(password, hashedPassword, salt, Some(0), env, randomBytes, digest)
         == Check(password, hashedPassword, salt, None, env, randomBytes, digest)
         == (HashResult(password, Some(salt), Some(DefaultIterations), env, randomBytes, digest).0 == hashedPassword)
  {
  }

  /** So `check` with 0 iterations rejects what `hash` with 0 iterations
      returned (the bare password), unless the password is itself 64 characters long. */
  lemma CheckRejectsZeroIterationHash(password: string, salt: string, env: map<string, string>,
                                      randomBytes: seq<byte>, digest: Digest)
    requires |randomBytes| == DefaultSaltBytes
    requires IsHexDigestFunction(digest)
    requires |password| != 64
    ensures !Check(password, HashResult(password, Some(salt), Some(0), env, randomBytes, digest).0,
                   salt, Some(0), env, randomBytes, digest)
  {
  }

  /** A negative count is truthy, is passed on to `hash`, and runs no rounds:
      `check` then compares the bare password. */
  lemma CheckNegativeComparesPassword(password: string, hashedPassword: string, salt: string, k: int,
                                      env: map<string, string>, randomBytes: seq<byte>, digest: Digest)
    requires |randomBytes| == DefaultSaltBytes
    requires k < 0
    ensures Check(password, hashedPassword, salt, Some(k), env, randomBytes, digest)
        <==> password == hashedPassword
  {
  }

  /** An empty salt makes `check` hash with a freshly generated salt. */
  lemma CheckEmptySaltUsesGeneratedSalt(password: string, hashedPassword: string, iterations: Option<int>,
                                        env: map<string, string>, randomBytes: seq<byte>, digest: Digest)
    requires |randomBytes| == DefaultSaltBytes
    ensures Check(password, hashedPassword, "", iterations, env, randomBytes, digest)
        <==> hashedPassword == Iter(Rounds(Some(CheckIterations(iterations))), password,
                                    TokenHex(randomBytes), GetPepper(None, env), digest)
  {
  }
}
