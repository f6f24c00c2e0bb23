# SkillSphere contracts: identity registry and vault configuration

This project models two small Soroban contracts from the SkillSphere
repository. Both are admin-gated state machines over keyed storage.

- **Identity registry.** The registry stores its admin once. It then keeps a
  status (`Unverified`, `Verified`, `Banned`) for each expert. Only the admin
  may change a status, through `verify_expert` and `ban_expert`. The class
  `IdentityRegistry.Registry` holds the storage as two fields: `admin` and
  the `experts` map. Its methods follow the contract functions guard by guard.
  Each method is proved equal to a pure step function (`Initialize`, `Verify`,
  `Ban`) of the storage before the call. Lemmas then prove what the contract
  promises about those functions, for single calls and for any sequence of
  calls (`Run`).
- **Payment-vault configuration.** `VaultStorage.InstanceStore` is the
  contract's instance store. It is a map from `DataKey`
  (`Admin`/`Token`/`Oracle`) to addresses, with the `has_`/`set_`/`get_`
  accessors as methods. `VaultContract.InitializeVault` is the one-time
  `initialize_vault` guard and its three writes. It is proved equal to the
  function `VaultContract.Initialize`. `InitializeAll` applies any number of
  init attempts in turn.

Host behaviour is made explicit:
- Authorisation is an argument of each call, `signers`: the set of addresses
  whose `require_auth` succeeds in this invocation.
- A failed `require_auth`, or an `unwrap` of a missing storage value, aborts
  the invocation. This is `Host.Invocation.Trapped`, and it leaves storage
  unchanged.
- Contract errors are `Host.Result.Err`.

Before initialisation `get_admin` returns `None`, and `get_token` and
`get_oracle` trap on their `unwrap`
(contracts/payment-vault-contract/src/storage.rs:20-40). `initialize_vault`
never returns `NotInitialized` or `NotAuthorized`: they exist only as
`VaultError` variants.

## Model

| member | source | states |
|---|---|---|
| IdentityRegistry.Registry.InitializeRegistry | contracts/identity-registry-contract/src/contract.rs:7-15 | the new storage and the result are those of `Initialize`: `AlreadyInitialized` with nothing changed when an admin is stored, otherwise the given admin is stored |
| IdentityRegistry.Registry.VerifyExpert | contracts/identity-registry-contract/src/contract.rs:17-39 | the new storage and the result are those of `Verify`: `NotInitialized`, then the admin's auth (trap), then `AlreadyVerified`, otherwise the expert's record becomes `Verified` |
| IdentityRegistry.Registry.BanExpert | contracts/identity-registry-contract/src/contract.rs:41-62 | the new storage and the result are those of `Ban`: `NotInitialized`, then the admin's auth (trap), then `AlreadyBanned`, otherwise the expert's record becomes `Banned` |
| IdentityRegistry.Registry.GetExpertStatus | contracts/identity-registry-contract/src/contract.rs:64-66 | read-only; returns the expert's status as `StatusOf` reads it: the stored record, or `Unverified` for an expert never written |
| IdentityRegistry.InitializeOnce | contracts/identity-registry-contract/src/contract.rs:7-15 | init on a registry with an admin fails with `AlreadyInitialized` and changes nothing; otherwise it stores the admin and keeps the experts; a second init always fails |
| IdentityRegistry.NotInitializedPrecedesAuth | contracts/identity-registry-contract/src/contract.rs:18-20 | with no admin stored, verify and ban return `NotInitialized` and change nothing, whoever signs (no auth check happens first) |
| IdentityRegistry.AdminAuthRequired | contracts/identity-registry-contract/src/contract.rs:42-43 | with an admin stored who does not sign, verify and ban trap and leave storage unchanged, whatever the expert's status |
| IdentityRegistry.VerifyTransition | contracts/identity-registry-contract/src/contract.rs:22-28 | verify succeeds if and only if initialised, admin-signed and the expert is not `Verified`; on success the expert reads `Verified`; on any other outcome storage is unchanged; an admin-signed verify of a `Verified` expert returns `AlreadyVerified` |
| IdentityRegistry.BanTransition | contracts/identity-registry-contract/src/contract.rs:45-51 | ban succeeds if and only if initialised, admin-signed and the expert is not `Banned`; on success the expert reads `Banned`; on any other outcome storage is unchanged; an admin-signed ban of a `Banned` expert returns `AlreadyBanned` |
| IdentityRegistry.BannedCanBeVerified | contracts/identity-registry-contract/src/contract.rs:24-28 | Banned to Verified is allowed: an admin-signed verify of a banned expert succeeds and records `Verified` |
| IdentityRegistry.OtherExpertsUntouched | contracts/identity-registry-contract/src/test.rs:205-219 | verify and ban leave every other expert's status and the admin as they were |
| IdentityRegistry.CompleteLifecycle | contracts/identity-registry-contract/src/test.rs:237-261 | from a fresh registry: init, an admin-signed verify and an admin-signed ban all succeed, and the expert reads Unverified, then Verified, then Banned |
| IdentityRegistry.AdminFixedOnceSet | contracts/identity-registry-contract/src/contract.rs:8-12 | once an admin is stored, no sequence of calls changes it |
| IdentityRegistry.UntargetedExpertKeepsStatus | contracts/identity-registry-contract/src/test.rs:179-220 | over any sequence of calls, an expert that no verify or ban names keeps its status |
| IdentityRegistry.UnsignedCallsChangeNothing | contracts/identity-registry-contract/src/contract.rs:17-20 | once initialised, any sequence of calls that the admin does not sign leaves the whole storage unchanged |
| IdentityRegistry.UninitializedRegistryIgnoresMutators | contracts/identity-registry-contract/src/test.rs:222-235 | before initialisation, any sequence of verify and ban calls leaves the storage unchanged |
| IdentityRegistry.BanHoldsUntilVerified | contracts/identity-registry-contract/src/contract.rs:41-51 | a banned expert stays banned through any sequence of calls in which no verify names it |
| VaultStorage.InstanceStore.HasAdmin | contracts/payment-vault-contract/src/storage.rs:12-14 | true exactly when the Admin key is present |
| VaultStorage.InstanceStore.SetAdmin | contracts/payment-vault-contract/src/storage.rs:16-18 | writes the Admin key only (last write wins); Token and Oracle are unchanged |
| VaultStorage.InstanceStore.GetAdmin | contracts/payment-vault-contract/src/storage.rs:20-22 | `Some` of the stored admin, `None` when the key is absent |
| VaultStorage.InstanceStore.SetToken | contracts/payment-vault-contract/src/storage.rs:25-27 | writes the Token key only (last write wins); Admin and Oracle are unchanged |
| VaultStorage.InstanceStore.GetToken | contracts/payment-vault-contract/src/storage.rs:29-31 | returns the stored token; traps (the `unwrap`) when the key is absent |
| VaultStorage.InstanceStore.SetOracle | contracts/payment-vault-contract/src/storage.rs:34-36 | writes the Oracle key only (last write wins); Admin and Token are unchanged |
| VaultStorage.InstanceStore.GetOracle | contracts/payment-vault-contract/src/storage.rs:38-40 | returns the stored oracle; traps (the `unwrap`) when the key is absent |
| VaultContract.InitializeVault | contracts/payment-vault-contract/src/contract.rs:5-22 | the result and the new store are those of `Initialize`, with no authorisation asked of the caller |
| VaultContract.FreshInitializeStoresArguments | contracts/payment-vault-contract/src/contract.rs:16-21 | on an empty store, init succeeds and Admin, Token and Oracle hold exactly the given addresses |
| VaultContract.InitializedVaultRejects | contracts/payment-vault-contract/src/contract.rs:11-14 | with the Admin key present, init returns `AlreadyInitialized` and no key changes |
| VaultContract.DecidedByAdminAlone | contracts/payment-vault-contract/src/contract.rs:12-19 | with the Admin key absent, init succeeds whatever Token and Oracle hold, and the store becomes exactly the three given addresses |
| VaultContract.SecondInitializeFails | contracts/payment-vault-contract/src/test.rs:29-35 | after any init call `has_admin` holds, so a following init fails with `AlreadyInitialized` |
| VaultContract.InitializedVaultFrozen | contracts/payment-vault-contract/src/contract.rs:11-14 | once the Admin key is present, no sequence of init attempts changes any key |
| VaultContract.FirstAttemptWins | contracts/payment-vault-contract/src/contract.rs:5-22 | from a store without an admin, after any non-empty sequence of attempts the three keys hold exactly the first attempt's addresses |
| VaultContract.InitializedVaultConfigured | contracts/payment-vault-contract/src/storage.rs:29-40 | from a fresh deployment, any init run stores Admin, Token and Oracle together, so the token and oracle getters no longer trap |

## Left out

- The escrow booking lifecycle is not modelled: booking creation, finalisation, reclaim of stale sessions, deposit and payout arithmetic. The vault's `lib.rs` exposes only `init`.
- Event publication is not modelled: `events.rs` and the `emit_status_change` calls in the registry. These are fire-and-forget host output with no effect on control flow.
- The registry's storage, type and error modules (`storage.rs`, `types.rs`, `error.rs` of the identity registry) are not part of this model. Their accessors are modelled as reads and writes of the class's fields, and an unknown expert reads `Unverified`. The error variants are the ones `contract.rs` names, and their numeric codes are not modelled.
- Soroban host internals are not modelled: `Env`, storage TTLs, and how `require_auth` checks signatures. Authorisation is the per-call `signers` set, and a trap discards the call's writes.
- `lib.rs` is a one-line forwarder from `init` to `initialize_vault`. It is not modelled separately.
- Addresses are modelled as strings compared by value. Their encoding is not modelled.
- The vault's numeric error codes (`#[repr(u32)]` values 1-3 in `error.rs`) are not modelled: only the variants take part in the modelled control flow.
