/** The credential store: one shared `Store` holding the authorization code and the access
    token, created on first use by `GetCredentialStore`. The package-level variable
    `storeSingleton` is modelled as a field of a `Registry` object that stands for the
    package's global state. */
module CredentialStore {

  class Store {
    var code: string
    var token: string

    /** `&Store{}`: both fields start empty. */
    constructor ()
      ensures code == "" && token == ""
    {
      code := "";
      token := "";
    }
  }

  class Registry {
    var storeSingleton: Store?

    /** The package's state before any call: no store yet. */
    constructor ()
      ensures storeSingleton == null
    {
      storeSingleton := null;
    }

    /** `GetCredentialStore`: the store created by the first call, with empty fields; the
        same store, untouched, on every later call. The result is never nil. */
    method GetCredentialStore() returns (s: Store)
      modifies this
      ensures old(storeSingleton) != null ==> s == old(storeSingleton) && unchanged(s)
      ensures old(storeSingleton) == null ==> fresh(s) && s.code == "" && s.token == ""
      ensures storeSingleton == s
    {
      if storeSingleton == null {
        storeSingleton := new Store();
      }
      s := storeSingleton;
    }
  }

  /** The store's test: two calls on the same package state return the same instance, and
      the first call on a fresh state hands out empty credentials. */
  method TwoCallsShareOneStore() returns (same: bool, code: string, token: string)
    ensures same && code == "" && token == ""
  {
    var registry := new Registry();
    var store1 := registry.GetCredentialStore();
    var store2 := registry.GetCredentialStore();
    same := store1 == store2;
    code, token := store1.code, store1.token;
  }
}
