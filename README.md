# pmcrypt PasswordManager in Dafny

A model of `PasswordManager` from pmcrypt (`pmcrypt/manager.py`), with proofs about it.
The component turns a password into a `(hash, salt)` pair and checks a password against such a pair:

- **Salt.** `hash` uses the caller's salt, unless it is absent or empty. In that case it uses a fresh one from `generate_salt()`: 16 random bytes rendered as 32 lower-case hex characters.
- **Pepper.** `hash` reads a pepper from the environment variable `PEPPER` through `get_pepper()`. An absent or empty variable name falls back to `PEPPER`.
- **Rounds.** `hash` runs `iterations` rounds, or 100,000 when none is given, starting from the password. Each round appends the salt, then the pepper if it is non-empty, and replaces the working string by its SHA-256 hex digest. The salt and pepper are appended again in every round.
- **Check.** `check` recomputes the hash with the stored salt and compares strings. It uses `iterations or 100000` as its count.

Files:

- `secrets.dfy`, module `Secrets`: the hex rendering done by `secrets.token_hex`, and a hex decoder that is its inverse.
- `manager.dfy`, module `PasswordManager`: the operations.
  - `generate_salt`, `get_pepper` and `check` are functions.
  - `hash` is the method `Hash`. Its `for` loop is a `while` loop. The invariant ties the working string after `i` rounds to the recursive function `Iter`.
  - `HashResult` is the same computation as a function. `Check` uses it, because a function cannot call a method.
- `properties.dfy`, module `ManagerProperties`: lemmas about `hash` and `check`.

What the program gets from outside is passed in as parameters:

- `digest` is `sha256(s.encode()).hexdigest()`. It may be any function from strings to strings. The contracts that speak of a 64-character lower-case hex digest assume `IsHexDigestFunction(digest)`.
- `env` is `os.environ`, a `map<string, string>`.
- `randomBytes` are the 16 bytes that `secrets.token_hex(16)` draws from the secure random source.

Two edge cases of the iteration count:

- **Check with 0 iterations.** `check` resolves the count differently from `hash`: it uses `iterations or _ITERATIONS` (pmcrypt/manager.py:89), so 0 means 100,000 rounds in `check` but no rounds in `hash`. `CheckRejectsZeroIterationHash` shows the consequence: a password hashed with 0 iterations is rejected by `check` with 0 iterations whenever the password is not 64 characters long; a 64-character one is accepted only if it equals its own 100,000-round hash.
- **Negative iteration counts.** Negative counts are not rejected: `range` over them is empty, so no rounds run and the password comes back unchanged. In `check` a negative count is truthy, so it is passed on unchanged.

## Model

| member | source | states |
|---|---|---|
| `Secrets.TokenHex` | pmcrypt/manager.py:21 | `token_hex` of n bytes is 2n characters, all lower-case hex digits |
| `Secrets.FromHexTokenHex` | pmcrypt/manager.py:21 | decoding a rendered salt gives back exactly the random bytes it came from |
| `Secrets.TokenHexInjective` | tests/test_hash.py:45-53 | different random bytes always render as different salts |
| `PasswordManager.GenerateSalt` | pmcrypt/manager.py:10-21 | `generate_salt(length)` has length `2*length`, is lower-case hex, and encodes the random bytes drawn |
| `PasswordManager.EnvName` | pmcrypt/manager.py:33 | the variable name is never empty: a non-empty name is kept, and an absent or empty one becomes `PEPPER` |
| `PasswordManager.GetPepper` | pmcrypt/manager.py:23-34 | the pepper is present iff the variable is set, and then it is the variable's value |
| `PasswordManager.ResolveSalt` | pmcrypt/manager.py:42-44 | a non-empty given salt is kept; `None` or `""` is replaced by a generated 32-character hex salt |
| `PasswordManager.Rounds` | pmcrypt/manager.py:50-54 | `None` runs 100,000 rounds; an integer runs exactly that many, and 0 or a negative count runs none |
| `PasswordManager.PepperText` | pmcrypt/manager.py:58-60 | the pepper contributes its text when non-empty, and nothing exactly when it is absent or empty |
| `PasswordManager.Round` | pmcrypt/manager.py:55-64 | one round digests the working string followed by the salt and, when non-empty, the pepper; with SHA-256's output shape the result is a 64-character hex digest |
| `PasswordManager.Iter` | pmcrypt/manager.py:54-64 | n rounds from the password, each appending the salt again; 0 rounds give the password itself, and at least one round gives a 64-character hex digest |
| `PasswordManager.HashResult` | pmcrypt/manager.py:36-66 | `hash` as a value: with 0 or negative iterations the password comes back unchanged; with the default or a count of at least 1 the hash is 64 lower-case hex characters; the salt is the caller's non-empty one, otherwise 32 hex characters that encode the random bytes |
| `PasswordManager.Hash` | pmcrypt/manager.py:36-66 | the loop computes exactly `HashResult`: its invariant keeps the working string equal to `Iter` after each round |
| `PasswordManager.CheckIterations` | pmcrypt/manager.py:89 | `iterations or _ITERATIONS`: `None` and 0 both give 100,000, and any other count is kept, negative ones included |
| `PasswordManager.Check` | pmcrypt/manager.py:68-91 | for a non-empty salt, `check` holds iff the stored hash equals `hash` with the same salt and count, except that a count of 0 is treated as the default |
| `ManagerProperties.IterCompose` | pmcrypt/manager.py:54-64 | m rounds applied to the result of n rounds equal m+n rounds from the password |
| `ManagerProperties.FirstRoundThenRest` | pmcrypt/manager.py:54-64 | n+1 rounds are one round on `password + salt + pepper` followed by n rounds that append the salt again |
| `ManagerProperties.IterNonePepperIsEmptyPepper` | pmcrypt/manager.py:59-60 | an absent pepper and an empty pepper give the same result after any number of rounds |
| `ManagerProperties.GeneratedSaltsDiffer` | tests/test_hash.py:45-53 | two hashes with generated salts from different random bytes return different salts |
| `ManagerProperties.ExplicitSaltIsDeterministic` | pmcrypt/manager.py:43-66 | with a non-empty salt, the same arguments and environment give the same pair, whatever the random source yields |
| `ManagerProperties.RepeatedSaltedHash` | tests/test_hash.py:55-68 | two calls of the `Hash` method with the same non-empty salt and pepper return equal hashes and equal salts |
| `ManagerProperties.UnsetPepperIsEmptyPepper` | pmcrypt/manager.py:47-60 | an unset `PEPPER` variable and an empty one give the same `(hash, salt)` |
| `ManagerProperties.RehashAddsRounds` | pmcrypt/manager.py:54-66 | hashing an n-round hash again with the same salt for m rounds equals hashing the password for n+m rounds |
| `ManagerProperties.OneRoundWithoutPepper` | pmcrypt/manager.py:54-66 | `hash("password", "test", 1)` without a pepper is `("H(passwordtest)", "test")` |
| `ManagerProperties.PepperDefaultName` | pmcrypt/manager.py:33-34 | no name, an empty name and `"PEPPER"` read the same variable, and that is what `hash` reads |
| `ManagerProperties.CheckAcceptsHash` | pmcrypt/manager.py:89-91 | `check` accepts the hash `hash` returned, for a non-empty salt and any count other than 0, including the default |
| `ManagerProperties.CheckAcceptsGeneratedSalt` | tests/test_hash.py:36-43 | `check` accepts the pair `hash(p)` returned with a salt it generated itself, for any count other than 0 |
| `ManagerProperties.CheckZeroMeansDefault` | pmcrypt/manager.py:89 | `check` with 0 iterations is `check` with none, which compares against a 100,000-round hash |
| `ManagerProperties.CheckRejectsZeroIterationHash` | pmcrypt/manager.py:89-91 | `check(p, p, s, 0)` is false when `p` is not 64 characters long, although `hash(p, s, 0)` returns `p` |
| `ManagerProperties.CheckNegativeComparesPassword` | pmcrypt/manager.py:89-91 | with a negative count, `check` holds exactly when the stored hash equals the bare password |
| `ManagerProperties.CheckEmptySaltUsesGeneratedSalt` | pmcrypt/manager.py:43-44 | `check` with an empty salt compares against a hash computed with a freshly generated salt |

## Left out

- SHA-256 and UTF-8 encoding (pmcrypt/manager.py:63-64) are a library call. They are the parameter `digest`, which can be any function. Only its output shape (64 lower-case hex characters) is assumed, and only where a lemma needs it.
- Drawing random bytes (`secrets.token_hex`, pmcrypt/manager.py:21) is the parameter `randomBytes`. Only the hex rendering is modelled. Salt uniqueness between calls is probabilistic and cannot be stated. The model only proves that different bytes give different salts.
- Strings are sequences of Unicode scalar values. A Python string can also hold a lone surrogate, for example a password `"\udc80"`, or a `PEPPER` value that `os.environ` decoded from non-UTF-8 bytes. On such a string `.encode()` (pmcrypt/manager.py:63) raises `UnicodeEncodeError` in the first round, so `hash` and `check` raise whenever at least one round runs. That error path is not modelled, and `digest` is total.
- `os.environ` (pmcrypt/manager.py:34) is the parameter `env`. Concurrent changes to the environment between reads are not modelled.
- `env` is an exact-match map. On Windows the keys of `os.environ` are case-insensitive, which matters only for `get_pepper` with a custom name. That is not modelled.
- "Different passwords do not verify", and "different salts give different hashes" (tests/test_hash.py:52): these rest on SHA-256 being collision-resistant, which is an assumption about the hash function, not a property of this code.
- The timing behaviour of the string comparison in `check` (pmcrypt/manager.py:91) is not modelled.
- `PasswordManager.GenerateSalt`: takes a `nat` length. A negative length makes `token_hex` raise an error, and that error path is not modelled. `hash` always asks for 16 bytes.
- Arguments of the wrong Python type, such as a float or `True` as the iteration count, are not modelled.
