/** The payment vault's instance storage: three keys, each holding an address. */
module VaultStorage {
  import opened Host

  datatype DataKey = Admin | Token | Oracle

  /** The contract's instance store, updated in place by the setters. */
  class InstanceStore {
    var entries: map<DataKey, Address>

    /** A freshly deployed contract has nothing stored. */
    constructor ()
      ensures entries == map[]
    {
      entries := map[];
    }

    method HasAdmin() returns (present: bool)
      ensures present <==> Admin in entries
    {
      present := Admin in entries;
    }

    method SetAdmin(admin: Address)
      modifies this
      ensures entries == old(entries)[Admin := admin]
    {
      entries := entries[Admin := admin];
    }

    method GetAdmin() returns (admin: Option<Address>)
      ensures Admin in entries ==> admin == Some(entries[Admin])
      ensures Admin !in entries ==> admin == None
    {
      admin := if Admin in entries then Some(entries[Admin]) else None;
    }

    method SetToken(token: Address)
      modifies this
      ensures entries == old(entries)[Token := token]
    {
      entries := entries[Token := token];
    }

    /** Unwraps the stored value: traps when no token was ever stored. */
    method GetToken() returns (token: Invocation<Address>)
      ensures Token in entries ==> token == Returned(entries[Token])
      ensures Token !in entries ==> token == Trapped
    {
      if Token in entries {
        token := Returned(entries[Token]);
      } else {
        token := Trapped;
      }
    }

    method SetOracle(oracle: Address)
      modifies this
      ensures entries == old(entries)[Oracle := oracle]
    {
      entries := entries[Oracle := oracle];
    }

    /** Unwraps the stored value: traps when no oracle was ever stored. */
    method GetOracle() returns (oracle: Invocation<Address>)
      ensures Oracle in entries ==> oracle == Returned(entries[Oracle])
      ensures Oracle !in entries ==> oracle == Trapped
    {
      if Oracle in entries {
        oracle := Returned(entries[Oracle]);
      } else {
        oracle := Trapped;
      }
    }
  }

  /** Each setter is last-write-wins on its own key and leaves the other two
      keys alone; the getters then read back exactly what was written. */
  method SettersAndGetters(admin: Address, token: Address, oracle: Address, token2: Address)
  {
    var store := new InstanceStore();
    var a := store.GetAdmin();
    var t := store.GetToken();
    assert a == None && t == Trapped;
    store.SetAdmin(admin);
    store.SetToken(token);
    store.SetOracle(oracle);
    store.SetToken(token2);
    var present := store.HasAdmin();
    a := store.GetAdmin();
    t := store.GetToken();
    var o := store.GetOracle();
    assert present && a == Some(admin) && t == Returned(token2) && o == Returned(oracle);
  }
}
