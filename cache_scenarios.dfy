/** Runs of the cache over a users table keyed by id, from a fresh cache with a one-minute
    lifetime (the clock counts seconds). */
module CacheScenarios {
  import opened Wrappers
  import opened Cache

  datatype User = User(id: string, email: string)

  /** The key accessor of `User` (`User.Key`). */
  function UserId(u: User): string { u.id }

  const Lifetime: int := 60

  /** The arrival at clock `now` of a change event on the users table. */
  function Change(action: string, u: User, now: int): Arrival<User>
  {
    Arrival(Decoded(ChangeEvent("users", action, u)), now)
  }

  /** A first read loads and stores the row; an UPDATE then replaces it, so the next read
      returns the new row from the cache; after a DELETE the read loads again. */
  method UpdateThenDeleteScenario() returns (loaded: Result<User, GetError<string, string>>,
                                             updated: Result<User, GetError<string, string>>,
                                             reloaded: Result<User, GetError<string, string>>,
                                             loads: seq<string>)
    ensures loaded == Ok(User("U1", "old@example.com"))
    ensures updated == Ok(User("U1", "new@example.com"))
    ensures reloaded == Ok(User("U1", "db@example.com"))
    ensures loads == ["U1", "U1"]
  {
    var c := new Cache(UserId, Lifetime);
    loaded := c.Get("U1", 0, Ok(User("U1", "old@example.com")), 1);
    c.Listen([Change("UPDATE", User("U1", "new@example.com"), 10)]);
    updated := c.Get("U1", 11, Err("loader not reached"), 11);
    c.Listen([Change("DELETE", User("U1", ""), 12)]);
    reloaded := c.Get("U1", 13, Ok(User("U1", "db@example.com")), 14);
    loads := c.loads;
  }

  /** An entry counts only strictly before its expiration: stored at clock 1, it is served
      at 60 and loaded again at 61, the instant it expires. */
  method ExpiryScenario() returns (served: Result<User, GetError<string, string>>,
                                   expired: Result<User, GetError<string, string>>,
                                   loads: seq<string>)
    ensures served == Ok(User("U2", "a@example.com"))
    ensures expired == Ok(User("U2", "b@example.com"))
    ensures loads == ["U2", "U2"]
  {
    var c := new Cache(UserId, Lifetime);
    var stored: Result<User, GetError<string, string>> := c.Get("U2", 0, Ok(User("U2", "a@example.com")), 1);
    served := c.Get("U2", 60, Err("loader not reached"), 60);
    expired := c.Get("U2", 61, Ok(User("U2", "b@example.com")), 61);
    loads := c.loads;
  }

  /** A failing load is reported with its key and stores nothing, so the next read loads
      again. */
  method LoadFailureScenario() returns (failed: Result<User, GetError<string, string>>,
                                        retried: Result<User, GetError<string, string>>,
                                        loads: seq<string>)
    ensures failed == Err(LoadFailed("U3", "connection refused"))
    ensures retried == Ok(User("U3", "c@example.com"))
    ensures loads == ["U3", "U3"]
  {
    var c := new Cache(UserId, Lifetime);
    failed := c.Get("U3", 0, Err("connection refused"), 0);
    retried := c.Get("U3", 1, Ok(User("U3", "c@example.com")), 1);
    loads := c.loads;
  }

  /** An INSERT fills the cache ahead of any read; text that does not decode and an
      action other than INSERT, UPDATE or DELETE change nothing. */
  method IgnoredEventsScenario() returns (entries: map<string, Entry<User>>)
    ensures entries.Keys == {"U4"} && entries["U4"] == Entry(User("U4", "d@example.com"), 65)
  {
    var c := new Cache(UserId, Lifetime);
    c.Listen([Change("INSERT", User("U4", "d@example.com"), 5), Arrival(Undecodable, 6),
              Change("TRUNCATE", User("U4", ""), 7)]);
    entries := c.entries;
  }
}
