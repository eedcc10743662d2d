# HelloContract: a verified model of a Soroban greeting contract

`HelloContract` is a Soroban smart contract. Its state is a handful of
storage entries in two tiers:

- The instance tier holds three entries: the admin address, the global greeting counter (`ContadorSaludos`) and the character limit (`LimiteCaracteres`).
- The persistent tier holds two entries per address: its last greeting (`UltimoSaludo`) and its own counter (`ContadorPorUsuario`).

The contract's entry points are these:

- `initialize` stores the admin.
- `hello` greets and counts.
- `reset_contador`, `transfer_admin` and `set_limite` are for the admin only.
- `get_contador`, `get_ultimo_saludo` and `get_contador_usuario` are read-only queries.

Every mutator checks its inputs and its caller before its first write.

The model has five modules:

- `Types` (types.dfy): the error enum and its numeric codes (1 to 4), the storage keys (`DataKey`), a `u32` newtype, names as byte sequences, addresses compared only for equality, and the constants (limit 32, TTL arguments 100/100, the symbol `"Hola"`).
- `Storage` (storage.dfy): the two tiers as one value. `Get` gives the key-level view that the host's `get`/`has` return. `SameExcept` says two stores agree outside a set of keys.
- `Semantics` (semantics.dfy): each entry point as a pure function. It maps the store before the call to a response, the store after the call and the TTL extensions issued. The properties of a single call are the `ensures` of these functions:
  - every failure writes nothing and extends nothing;
  - each error occurs exactly when its condition holds;
  - reads default to 0, 32 or `None` when an entry is absent;
  - a successful call changes exactly the keys it writes.
- `Runs` (runs.dfy): arbitrary sequences of calls, with lemmas proved by induction:
  - counter monotonicity;
  - per-address counting and isolation;
  - initialization happens once;
  - only the admin reconfigures;
  - every TTL extension follows the contract's one policy.

  It also holds the boundary cases and the contract's own unit tests replayed on the model.
- `Contract` (contract.dfy): class `HelloContract`, whose fields are the storage entries, plus a ghost log of `extend_ttl` calls. Each method does the source's sequence of reads and writes in place. Each method is proved to produce exactly the response, store and extensions of its `Semantics` function.

Two choices follow the code as written:

- A second `initialize` fails with `NoInicializado` (code 4) because the enum has no "already initialized" variant.
- `hello` works without initialization. It then uses the default limit 32 and treats an absent counter as 0.

A `u32` `+ 1` on a counter already at `u32::MAX` is modelled as an aborted invocation. The `+` panics on overflow when overflow checks are enabled, and the host discards the invocation's writes. `Contract.HelloContract.Hello` therefore undoes its global counter write when the per-address increment would overflow. The model assumes overflow checks are enabled. The crate's Cargo manifest is not part of this model.

## Model

| member | source | states |
|---|---|---|
| `Types.Error.Code` | contracts/hello-world/src/lib.rs:16-21 | every error carries a code between 1 and 4 |
| `Types.ErrorFromCode` | contracts/hello-world/src/lib.rs:13-21 | a code decodes to an error exactly when it is 1 to 4, and to the error carrying that code |
| `Types.CodeRoundTrip` | contracts/hello-world/src/lib.rs:16-21 | decoding an error's code gives back that error, so codes are distinct |
| `Types.Option.UnwrapOr` | contracts/hello-world/src/lib.rs:86-89 | Rust's `unwrap_or`, used by every default-on-absence read (also lines 97-100, 134-137, 148-151): the stored value when present, the default when absent |
| `Types.TierOf` | contracts/hello-world/src/lib.rs:26-32 | the per-address keys live in persistent storage, the three singletons in instance storage |
| `Storage.Get` | contracts/hello-world/src/lib.rs:26-32 | a last-greeting key holds a name; instance keys never hold a name |
| `Storage.Has` | contracts/hello-world/src/lib.rs:46 | the host's `has`: a key is present exactly when its tier holds an entry for it (the admin, counter or limit field is set; the address is in the matching persistent map) |
| `Semantics.GetContador` | contracts/hello-world/src/lib.rs:133-138 | the stored global counter, or 0 when the key is absent |
| `Semantics.GetUltimoSaludo` | contracts/hello-world/src/lib.rs:140-144 | `None` exactly when the address has no last-greeting entry, otherwise the stored name |
| `Semantics.GetContadorUsuario` | contracts/hello-world/src/lib.rs:147-152 | the stored per-address counter, or 0 when absent |
| `Semantics.EffectiveLimite` | contracts/hello-world/src/lib.rs:86-89 | the stored character limit, or 32 when absent |
| `Semantics.RequireAdmin` | contracts/hello-world/src/lib.rs:157-165 | passes exactly when the stored admin equals the caller; `NoInicializado` exactly when no admin is stored; `NoAutorizado` exactly when another address is admin |
| `Semantics.Initialize` | contracts/hello-world/src/lib.rs:43-72 | with an admin present: `Err(NoInicializado)` with the store and TTLs untouched; otherwise `Ok` with admin, counter 0 and limit 32 stored, persistent tier untouched, one instance extension (100, 100) |
| `Semantics.Hello` | contracts/hello-world/src/lib.rs:74-130 | `NombreVacio` exactly for an empty name; `NombreMuyLargo` exactly for a name longer than the effective limit; abort exactly when a counter is at `u32::MAX`; every failure writes and extends nothing. On `Ok("Hola")` both counters grow by one, the last greeting is the name, no other key changes, and only that greeting's entry and the instance tier are extended, each with (100, 100) |
| `Semantics.ResetContador` | contracts/hello-world/src/lib.rs:155-173 | `Ok` exactly when the caller is the admin; `NoInicializado`/`NoAutorizado` as the guard; failure leaves the store unchanged; success stores counter 0 and changes no other key; no TTL extension |
| `Semantics.TransferAdmin` | contracts/hello-world/src/lib.rs:176-196 | same guard; success stores the new admin and changes no other key; no TTL extension |
| `Semantics.SetLimite` | contracts/hello-world/src/lib.rs:199-221 | same guard; success stores the given limit (any `u32`, 0 included) and changes no other key; no TTL extension |
| `Runs.StaysInitialized` | contracts/hello-world/src/lib.rs:46-49 | once an admin exists, no call sequence removes it, and `initialize` afterwards always fails with `NoInicializado` without effect |
| `Runs.CounterStep` | contracts/hello-world/src/lib.rs:96-105 | any call but a reset, and but an `initialize` on a store without admin, raises the global counter by one exactly when it is a successful greeting; an admin once stored stays |
| `Runs.CounterCountsGreetings` | contracts/hello-world/src/lib.rs:96-105 | with no reset in a run, the global counter grows by exactly the number of successful greetings, from an initialized store or, before initialization, in a run with no `initialize` |
| `Runs.CounterAfterInitialize` | contracts/hello-world/src/lib.rs:55-57 | after `initialize` and a run with no reset, the global counter equals the number of successful greetings |
| `Runs.InitializeKeepsUserRecords` | contracts/hello-world/src/lib.rs:55-57 | the first successful `initialize` sets the global counter to 0, even after earlier greetings, and leaves every address's counter and last greeting unchanged |
| `Runs.UserStep` | contracts/hello-world/src/lib.rs:107-117 | one call changes an address's counter (by +1) and last greeting (to the name) exactly when it is that address's successful greeting |
| `Runs.UserCounterCountsGreetings` | contracts/hello-world/src/lib.rs:107-112 | an address's counter grows by exactly its number of successful greetings in any run; nothing resets it |
| `Runs.NeverGreetedIff` | contracts/hello-world/src/lib.rs:140-144 | after any run, `get_ultimo_saludo(u)` is `None` exactly when it was `None` before and `u` never greeted successfully |
| `Runs.Isolation` | contracts/hello-world/src/lib.rs:107-117 | a run in which `u` never calls `hello` leaves `u`'s counter and last greeting unchanged |
| `Runs.OnlyAdminReconfigures` | contracts/hello-world/src/lib.rs:182-218 | while the admin issues no `transfer_admin`/`set_limite`, the admin and the limit stay the same, whatever others call |
| `Runs.ExtensionPolicy` | contracts/hello-world/src/lib.rs:119-126 | every TTL extension of any run is the instance tier's or a last-greeting entry's, with (100, 100); a per-address counter is never extended |
| `Runs.LimitBoundary` | contracts/hello-world/src/lib.rs:86-94 | a name exactly as long as the limit is greeted; one byte longer fails with `NombreMuyLargo` and no effect |
| `Runs.ZeroLimitRefusesEveryName` | contracts/hello-world/src/lib.rs:199-221 | the admin may set the limit to 0, after which every non-empty name fails with `NombreMuyLargo` |
| `Runs.TestScenarios` | contracts/hello-world/src/lib.rs:231-358 | the outcomes the unit tests assert: counter 0 after `initialize`, code 4 on re-initialization, `"Hola"` with counters at 1 and the name stored, code 1 on an empty name, reset by the admin to 0, code 3 on reset by another address, a pre-set per-address counter of 3 read back |
| `Contract.ReplayTests` | contracts/hello-world/src/lib.rs:231-336 | the unit tests run on a fresh object: `initialize` succeeds with counter 0, a second one fails with code 4, `hello(usuario, "Ana")` returns `"Hola"` with both counters 1 and the name stored, an empty name fails with code 1, a reset by another address fails with code 3, a reset by the admin succeeds and leaves counter 0 |
| `Contract.HelloContract.constructor` | contracts/hello-world/src/lib.rs:36-37 | a new contract has no storage entry and no TTL extension |
| `Contract.HelloContract.GetContador` | contracts/hello-world/src/lib.rs:133-138 | equals `Semantics.GetContador` of the object's storage; 0 when the counter field is unset |
| `Contract.HelloContract.GetUltimoSaludo` | contracts/hello-world/src/lib.rs:140-144 | equals `Semantics.GetUltimoSaludo`; `None` exactly when the address has no entry |
| `Contract.HelloContract.GetContadorUsuario` | contracts/hello-world/src/lib.rs:147-152 | equals `Semantics.GetContadorUsuario`; 0 when the address has no entry |
| `Contract.HelloContract.Initialize` | contracts/hello-world/src/lib.rs:43-72 | the response, new storage and appended TTL log are those of `Semantics.Initialize` on the old storage |
| `Contract.HelloContract.Hello` | contracts/hello-world/src/lib.rs:74-130 | the response, new storage and appended TTL log are those of `Semantics.Hello`, including the rollback on overflow |
| `Contract.HelloContract.ResetContador` | contracts/hello-world/src/lib.rs:155-173 | the response, new storage and TTL log are those of `Semantics.ResetContador` |
| `Contract.HelloContract.TransferAdmin` | contracts/hello-world/src/lib.rs:176-196 | the response, new storage and TTL log are those of `Semantics.TransferAdmin` |
| `Contract.HelloContract.SetLimite` | contracts/hello-world/src/lib.rs:199-221 | the response, new storage and TTL log are those of `Semantics.SetLimite` |

## Left out

- The Soroban host plumbing is not modelled: `Env`, the `#[contract]`/`#[contractimpl]` macros, client generation, contract registration and `as_contract`. The storage they reach is the store value and the object's fields.
- Real TTL semantics are not modelled: ledger sequence numbers, expiry, archival and fees. Each `extend_ttl` call is only recorded, with its arguments, in `Step.extended` and in the ghost `ttlLog`.
- Address generation and authentication are not modelled. The contract never calls `require_auth`, so callers are plain parameters compared by equality.
- `Symbol::new` and the host's encoding of values and errors are not modelled beyond the numeric error codes. The `"Hola"` symbol is a string constant.
- Names are byte sequences. `String::len()` counts bytes, so there are no Unicode semantics. The host's `u32` length of a string is compared as an unbounded integer, which gives the same outcome.
- Concurrency and transaction atomicity are not modelled: invocations run one after another. The host's rollback of an aborted invocation is modelled only where the contract can abort, which is the two `+ 1` overflows in `hello`.
- `Contract.HelloContract.Hello`: the abort on overflow assumes Rust overflow checks are on. A build without them would wrap instead, and the model does not cover that build.
