/** The payment vault's one-time configuration. */
module VaultContract {
  import opened Host
  import opened VaultStorage

  datatype VaultError = NotInitialized | AlreadyInitialized | NotAuthorized

  /** What one `initialize_vault` call returns and the store it leaves. The
      Admin key alone decides whether the vault is initialised. */
  function Initialize(entries: map<DataKey, Address>, admin: Address, token: Address, oracle: Address)
    : (Result<(), VaultError>, map<DataKey, Address>)
  {
    if Admin in entries then (Err(AlreadyInitialized), entries)
    else (Ok(()), entries[Admin := admin][Token := token][Oracle := oracle])
  }

  /** No authorisation is asked for: whoever calls first configures the vault. */
  method InitializeVault(env: InstanceStore, admin: Address, token: Address, oracle: Address)
    returns (r: Result<(), VaultError>)
    modifies env
    ensures (r, env.entries) == Initialize(old(env.entries), admin, token, oracle)
  {
    var initialized := env.HasAdmin();
    if initialized {
      return Err(AlreadyInitialized);
    }
    env.SetAdmin(admin);
    env.SetToken(token);
    env.SetOracle(oracle);
    r := Ok(());
  }

  // ---------------------------------------------------------------------
  // Properties of one call
  // ---------------------------------------------------------------------

  /** On a fresh store the call succeeds and the three keys hold exactly the
      given addresses. */
  lemma FreshInitializeStoresArguments(admin: Address, token: Address, oracle: Address)
    ensures Initialize(map[], admin, token, oracle)
         == (Ok(()), map[Admin := admin, Token := token, Oracle := oracle])
  {
  }

  /** With an admin stored the call fails and no key changes. */
  lemma InitializedVaultRejects(entries: map<DataKey, Address>, admin: Address, token: Address, oracle: Address)
    requires Admin in entries
    ensures Initialize(entries, admin, token, oracle) == (Err(AlreadyInitialized), entries)
  {
  }

  /** Whether the call succeeds depends on the Admin key only: stored Token
      and Oracle entries neither block it nor survive it. */
  lemma DecidedByAdminAlone(entries: map<DataKey, Address>, admin: Address, token: Address, oracle: Address)
    requires Admin !in entries
    ensures Initialize(entries, admin, token, oracle)
         == (Ok(()), map[Admin := admin, Token := token, Oracle := oracle])
  {
    var after := Initialize(entries, admin, token, oracle).1;
    var configured := map[Admin := admin, Token := token, Oracle := oracle];
    forall k: DataKey ensures k in after && k in configured && after[k] == configured[k] {
      match k
      case Admin =>
      case Token =>
      case Oracle =>
    }
    assert after == configured;
  }

  /** After a success `has_admin` holds, so a second call fails. */
  lemma SecondInitializeFails(entries: map<DataKey, Address>, admin: Address, token: Address, oracle: Address,
                              admin2: Address, token2: Address, oracle2: Address)
    ensures Admin in Initialize(entries, admin, token, oracle).1
    ensures Initialize(Initialize(entries, admin, token, oracle).1, admin2, token2, oracle2).0
         == Err(AlreadyInitialized)
  {
  }

  // ---------------------------------------------------------------------
  // Any number of initialisation attempts
  // ---------------------------------------------------------------------

  datatype VaultConfig = VaultConfig(admin: Address, token: Address, oracle: Address)

  /** The store after the attempts, made one after the other. */
  function InitializeAll(entries: map<DataKey, Address>, attempts: seq<VaultConfig>): map<DataKey, Address>
    decreases |attempts|
  {
    if attempts == [] then entries
    else
      var c := attempts[0];
      InitializeAll(Initialize(entries, c.admin, c.token, c.oracle).1, attempts[1..])
  }

  /** Once the Admin key is present, no attempt changes any key. */
  lemma {:induction false} InitializedVaultFrozen(entries: map<DataKey, Address>, attempts: seq<VaultConfig>)
    requires Admin in entries
    ensures InitializeAll(entries, attempts) == entries
  {
    if attempts != [] {
      InitializedVaultFrozen(entries, attempts[1..]);
    }
  }

  /** Starting without an admin, the first attempt configures the vault and
      every later one is refused: the three keys end up holding exactly the
      first attempt's addresses, all set together. */
  lemma {:induction false} FirstAttemptWins(entries: map<DataKey, Address>, attempts: seq<VaultConfig>)
    requires Admin !in entries
    requires attempts != []
    ensures InitializeAll(entries, attempts)
         == map[Admin := attempts[0].admin, Token := attempts[0].token, Oracle := attempts[0].oracle]
  {
    var c := attempts[0];
    DecidedByAdminAlone(entries, c.admin, c.token, c.oracle);
    InitializedVaultFrozen(Initialize(entries, c.admin, c.token, c.oracle).1, attempts[1..]);
  }

  /** From a fresh deployment, any non-empty run of attempts stores all three
      keys, so once `has_admin` holds `get_token` and `get_oracle` cannot trap. */
  lemma InitializedVaultConfigured(attempts: seq<VaultConfig>)
    requires attempts != []
    ensures var after := InitializeAll(map[], attempts);
      Admin in after && Token in after && Oracle in after
  {
    FirstAttemptWins(map[], attempts);
  }

  /** Double initialisation through the deployed contract: the second call
      fails and the first configuration stays readable. */
  method InitializeTwice(admin: Address, token: Address, oracle: Address, other: Address)
  {
    var env := new InstanceStore();
    var r := InitializeVault(env, admin, token, oracle);
    assert r == Ok(());
    r := InitializeVault(env, other, other, other);
    assert r == Err(AlreadyInitialized);
    var t := env.GetToken();
    var o := env.GetOracle();
    assert t == Returned(token) && o == Returned(oracle);
  }
}
