/** `MultiTenantDatabase`: an ordered dictionary used as an LRU of tenants, kept in step
    with the `Database` registry, which refuses to configure an alias twice. */
module TenantPools {
  import opened Lists

  datatype Driver = Postgres | Other

  datatype Error = AlreadyConfigured | UnsupportedScheme | NotConfigured | PoolError | EmptyDictionary

  datatype Status = Done | Raised(error: Error)

  /** The registry's tables, and the native pools behind them. */
  datatype Registry = Registry(
    databases: map<string, Driver>,
    initialized: map<string, bool>,
    anyPools: set<string>,
    nativePools: set<string>)

  function Alias(tenant: string): string { "_mt_" + tenant }

  // ----- The registry as a value -----

  function Configured(r: Registry, alias: string, driver: Driver): Registry {
    r.(databases := r.databases[alias := driver], initialized := r.initialized[alias := false])
  }

  function Initialized(r: Registry, alias: string): Registry
    requires alias in r.databases
  {
    (if r.databases[alias] == Postgres then r.(nativePools := r.nativePools + {alias})
     else r.(anyPools := r.anyPools + {alias})).(initialized := r.initialized[alias := true])
  }

  function Closed(r: Registry, alias: string): Registry {
    var r1 := r.(anyPools := r.anyPools - {alias});
    if alias !in r.databases then r1
    else
      r1.(nativePools := if r.databases[alias] == Postgres then r.nativePools - {alias} else r.nativePools,
          databases := r.databases - {alias}, initialized := r.initialized - {alias})
  }

  class Database {
    var databases: map<string, Driver>
    var initialized: map<string, bool>
    var anyPools: set<string>
    var nativePools: set<string>

    function Value(): Registry
      reads this
    {
      Registry(databases, initialized, anyPools, nativePools)
    }

    constructor (r: Registry)
      ensures Value() == r
    {
      databases, initialized, anyPools, nativePools := r.databases, r.initialized, r.anyPools, r.nativePools;
    }

    /** `driver` is what the URL's scheme denotes, if it is a supported one. */
    method Configure(alias: string, driver: Driver, supported: bool) returns (status: Status)
      modifies this
      ensures status == if alias in old(databases) then Raised(AlreadyConfigured)
                        else if !supported then Raised(UnsupportedScheme) else Done
      ensures Value() == if status == Done then Configured(old(Value()), alias, driver) else old(Value())
    {
      if alias in databases {
        return Raised(AlreadyConfigured);
      }
      if !supported {
        return Raised(UnsupportedScheme);
      }
      databases := databases[alias := driver];
      initialized := initialized[alias := false];
      return Done;
    }

    /** `connects` says whether the driver can create the pool. */
    method EnsureInitialized(alias: string, connects: bool) returns (status: Status)
      modifies this
      ensures status == if alias in old(initialized) && old(initialized)[alias] then Done
                        else if alias !in old(databases) then Raised(NotConfigured)
                        else if old(databases)[alias] == Postgres && alias in old(nativePools) then Raised(PoolError)
                        else if connects then Done else Raised(PoolError)
      ensures Value() == if status == Done && !(alias in old(initialized) && old(initialized)[alias])
                         then Initialized(old(Value()), alias) else old(Value())
    {
      if alias in initialized && initialized[alias] {
        return Done;
      }
      if alias !in databases {
        return Raised(NotConfigured);
      }
      if databases[alias] == Postgres {
        if alias in nativePools || !connects {
          return Raised(PoolError);
        }
        nativePools := nativePools + {alias};
      } else {
        if !connects {
          return Raised(PoolError);
        }
        anyPools := anyPools + {alias};
      }
      initialized := initialized[alias := true];
      return Done;
    }

    method Close(alias: string)
      modifies this
      ensures Value() == Closed(old(Value()), alias)
    {
      anyPools := anyPools - {alias};
      if alias in databases {
        if databases[alias] == Postgres {
          nativePools := nativePools - {alias};
        }
        databases := databases - {alias};
        initialized := initialized - {alias};
      }
    }
  }

  // ----- The tenant dictionary as a value -----

  datatype Tenants = Tenants(order: seq<string>, registry: Registry)

  /** One request for a tenant: its DSN's driver, and whether the pool can be created. */
  datatype Request = Request(tenant: string, driver: Driver, supported: bool, connects: bool)

  /** Close and forget the oldest tenants until fewer than `max` are left. */
  function Evicted(m: Tenants, max: nat): (r: Tenants)
    requires max > 0
    ensures |r.order| < max
    decreases |m.order|
  {
    if |m.order| < max then m
    else Evicted(Tenants(m.order[1..], Closed(m.registry, Alias(m.order[0]))), max)
  }

  function Ensured(m: Tenants, q: Request, max: nat): (Tenants, Status)
    requires max > 0
  {
    var alias := Alias(q.tenant);
    if q.tenant in m.order then (m.(order := Without(m.order, q.tenant) + [q.tenant]), Done)
    else
      var e := Evicted(m, max);
      if alias in e.registry.databases then (e, Raised(AlreadyConfigured))
      else if !q.supported then (e, Raised(UnsupportedScheme))
      else
        var configured := Configured(e.registry, alias, q.driver);
        if (q.driver == Postgres && alias in e.registry.nativePools) || !q.connects
        then (e.(registry := configured), Raised(PoolError))
        else (Tenants(e.order + [q.tenant], Initialized(configured, alias)), Done)
  }

  class MultiTenantDatabase {
    const db: Database
    const maxTenants: int
    var order: seq<string>

    function Value(): Tenants
      reads this, db
    {
      Tenants(order, db.Value())
    }

    constructor (db: Database, maxTenants: int)
      ensures this.db == db && this.maxTenants == maxTenants && order == []
    {
      this.db, this.maxTenants, this.order := db, maxTenants, [];
    }

    method EnsureTenant(q: Request) returns (status: Status)
      modifies this, db
      ensures maxTenants > 0 ==> (Value(), status) == Ensured(old(Value()), q, maxTenants)
      ensures maxTenants <= 0 && q.tenant !in old(order) ==>
                Value() == AllClosed(old(Value())) && status == Raised(EmptyDictionary)
    {
      if q.tenant in order {
        order := Without(order, q.tenant) + [q.tenant];
        return Done;
      }
      while |order| >= maxTenants
        invariant maxTenants > 0 ==> Evicted(Value(), maxTenants) == Evicted(old(Value()), maxTenants)
        invariant maxTenants <= 0 ==> AllClosed(Value()) == AllClosed(old(Value()))
        decreases |order|
      {
        if order == [] {
          return Raised(EmptyDictionary);
        }
        var evicted := order[0];
        order := order[1..];
        db.Close(Alias(evicted));
      }
      var alias := Alias(q.tenant);
      status := db.Configure(alias, q.driver, q.supported);
      if status == Done {
        status := db.EnsureInitialized(alias, q.connects);
      }
      if status == Done {
        order := order + [q.tenant];
      }
    }

    method CloseAll()
      modifies this, db
      ensures Value() == AllClosed(old(Value()))
    {
      for i := 0 to |order|
        invariant order == old(order)
        invariant AllClosed(old(Value())) == AllClosed(Tenants(order[i..], db.Value()))
      {
        assert order[i..][1..] == order[i + 1..];
        db.Close(Alias(order[i]));
      }
      order := [];
    }
  }

  function AllClosed(m: Tenants): Tenants
    decreases |m.order|
  {
    if m.order == [] then m
    else AllClosed(Tenants(m.order[1..], Closed(m.registry, Alias(m.order[0]))))
  }

  // ----- What the registry keeps -----

  /** Every configured alias has its flag, and only configured ones have a pool, in the table of their driver. */
  ghost predicate Coherent(r: Registry) {
    && r.initialized.Keys == r.databases.Keys
    && (forall a :: a in r.nativePools ==> a in r.databases && r.databases[a] == Postgres)
    && (forall a :: a in r.anyPools ==> a in r.databases)
  }

  /** So whoever uses the registry leaves it coherent. */
  lemma StaysCoherent(r: Registry, alias: string, driver: Driver)
    requires Coherent(r)
    ensures alias !in r.databases ==> Coherent(Configured(r, alias, driver))
    ensures alias in r.databases ==> Coherent(Initialized(r, alias))
    ensures Coherent(Closed(r, alias))
  {
  }

  // ----- What every request keeps -----

  ghost predicate SameEntry(r: Registry, base: Registry, a: string) {
    && (a in r.databases <==> a in base.databases)
    && (a in r.databases && a in base.databases ==> r.databases[a] == base.databases[a])
    && (a in r.initialized <==> a in base.initialized)
    && (a in r.initialized && a in base.initialized ==> r.initialized[a] == base.initialized[a])
    && (a in r.nativePools <==> a in base.nativePools)
    && (a in r.anyPools <==> a in base.anyPools)
  }

  /** A kept tenant's alias is configured, initialized and has its pool. */
  ghost predicate KeptEntry(r: Registry, a: string) {
    && a in r.databases && a in r.initialized && r.initialized[a]
    && (if r.databases[a] == Postgres then a in r.nativePools && a !in r.anyPools
        else a in r.anyPools && a !in r.nativePools)
  }

  /** A stranded one is configured and nothing else. */
  ghost predicate StrandedEntry(r: Registry, a: string) {
    && a in r.databases && a in r.initialized && !r.initialized[a] && a !in r.nativePools && a !in r.anyPools
  }

  ghost predicate TenantAgrees(m: Tenants, stranded: set<string>, base: Registry, t: string) {
    if t in m.order then KeptEntry(m.registry, Alias(t))
    else if t in stranded then StrandedEntry(m.registry, Alias(t))
    else SameEntry(m.registry, base, Alias(t))
  }

  /** Of the aliases, those of kept tenants and of stranded ones, whose pool creation failed, are as they should be,
      and all others, whoever uses them, are as they were. */
  ghost predicate RegistryAgrees(m: Tenants, stranded: set<string>, base: Registry) {
    && (forall t: string :: TenantAgrees(m, stranded, base, t))
    && (forall a: string :: !("_mt_" <= a) ==> SameEntry(m.registry, base, a))
  }

  ghost predicate Inv(m: Tenants, max: nat, stranded: set<string>, base: Registry) {
    && Coherent(base) && Distinct(m.order) && |m.order| <= max
    && (forall t :: t in m.order ==> t !in stranded && Alias(t) !in base.databases)
    && (forall t :: t in stranded ==> Alias(t) !in base.databases)
    && RegistryAgrees(m, stranded, base)
  }

  lemma AliasInjective(a: string, b: string)
    ensures Alias(a) == Alias(b) ==> a == b
    ensures "_mt_" <= Alias(a)
  {
    assert Alias(a)[4..] == a && Alias(b)[4..] == b;
  }

  lemma CloseOldest(m: Tenants, max: nat, stranded: set<string>, base: Registry)
    requires Inv(m, max, stranded, base) && m.order != []
    ensures Inv(Tenants(m.order[1..], Closed(m.registry, Alias(m.order[0]))), max, stranded, base)
  {
    var gone := m.order[0];
    var n := Tenants(m.order[1..], Closed(m.registry, Alias(gone)));
    assert m.order == [gone] + n.order;
    forall t: string
      ensures TenantAgrees(n, stranded, base, t)
    {
      assert TenantAgrees(m, stranded, base, t);
      AliasInjective(t, gone);
    }
    forall a: string | !("_mt_" <= a)
      ensures SameEntry(n.registry, base, a)
    {
      assert SameEntry(m.registry, base, a);
      AliasInjective(gone, gone);
    }
  }

  lemma {:induction false} EvictedInv(m: Tenants, max: nat, stranded: set<string>, base: Registry)
    requires max > 0 && Inv(m, max, stranded, base)
    ensures Inv(Evicted(m, max), max, stranded, base)
    ensures Evicted(m, max).order == if |m.order| < max then m.order else m.order[1..]
    decreases |m.order|
  {
    if |m.order| >= max {
      var m1 := Tenants(m.order[1..], Closed(m.registry, Alias(m.order[0])));
      CloseOldest(m, max, stranded, base);
      EvictedInv(m1, max, stranded, base);
    }
  }

  /** After `Configure` the tenant is stranded until its pool exists. */
  lemma ConfiguredAgrees(m: Tenants, t: string, d: Driver, stranded: set<string>, base: Registry)
    requires Coherent(base) && RegistryAgrees(m, stranded, base) && t !in m.order && t !in stranded &&
        Alias(t) !in base.databases
    ensures RegistryAgrees(m.(registry := Configured(m.registry, Alias(t), d)), stranded + {t}, base)
  {
    var n := m.(registry := Configured(m.registry, Alias(t), d));
    forall u: string
      ensures TenantAgrees(n, stranded + {t}, base, u)
    {
      assert TenantAgrees(m, stranded, base, u);
      AliasInjective(u, t);
    }
    forall a: string | !("_mt_" <= a)
      ensures SameEntry(n.registry, base, a)
    {
      assert SameEntry(m.registry, base, a);
      AliasInjective(t, t);
    }
  }

  lemma InitializedAgrees(m: Tenants, t: string, stranded: set<string>, base: Registry)
    requires RegistryAgrees(m, stranded + {t}, base) && t !in m.order && t !in stranded
    ensures Alias(t) in m.registry.databases
    ensures RegistryAgrees(Tenants(m.order + [t], Initialized(m.registry, Alias(t))), stranded, base)
  {
    assert TenantAgrees(m, stranded + {t}, base, t);
    var n := Tenants(m.order + [t], Initialized(m.registry, Alias(t)));
    forall u: string
      ensures TenantAgrees(n, stranded, base, u)
    {
      assert TenantAgrees(m, stranded + {t}, base, u);
      AliasInjective(u, t);
    }
    forall a: string | !("_mt_" <= a)
      ensures SameEntry(n.registry, base, a)
    {
      assert SameEntry(m.registry, base, a);
      AliasInjective(t, t);
    }
  }

  function StrandedBy(q: Request, status: Status): set<string> {
    if status == Raised(PoolError) then {q.tenant} else {}
  }

  /** What a request makes of the dictionary: a kept tenant moves to the end; any other first makes room, and only if
      it succeeds is it put at the end. */
  function NextOrder(order: seq<string>, t: string, done: bool, max: nat): seq<string> {
    if t in order then Without(order, t) + [t]
    else (if |order| < max || order == [] then order else order[1..]) + if done then [t] else []
  }

  lemma EnsuredInv(m: Tenants, q: Request, max: nat, stranded: set<string>, base: Registry)
    requires max > 0 && Inv(m, max, stranded, base)
    ensures var (n, status) := Ensured(m, q, max);
            && Inv(n, max, stranded + StrandedBy(q, status), base)
            && (status == Raised(AlreadyConfigured) <==> q.tenant in stranded || Alias(q.tenant) in base.databases)
            && (q.tenant !in stranded && Alias(q.tenant) !in base.databases && q.supported && q.connects ==>
                  status == Done)
            && (q.tenant in m.order ==> status == Done)
            && n.order == NextOrder(m.order, q.tenant, status == Done, max)
  {
    var (n, status) := Ensured(m, q, max);
    assert stranded + {} == stranded;
    if q.tenant in m.order {
      WithoutDistinct(m.order, q.tenant);
      WithoutMembers(m.order, q.tenant);
      forall t: string
        ensures TenantAgrees(n, stranded, base, t)
      {
        assert TenantAgrees(m, stranded, base, t);
      }
    } else {
      EvictedInv(m, max, stranded, base);
      assert Evicted(m, max).order + [] == Evicted(m, max).order;
      NewTenantInv(Evicted(m, max), q, max, stranded, base);
    }
  }

  /** The request after room was made. */
  lemma NewTenantInv(e: Tenants, q: Request, max: nat, stranded: set<string>, base: Registry)
    requires max > 0 && Inv(e, max, stranded, base) && |e.order| < max && q.tenant !in e.order
    ensures Evicted(e, max) == e
    ensures var (n, status) := Ensured(e, q, max);
            && Inv(n, max, stranded + StrandedBy(q, status), base)
            && (status == Raised(AlreadyConfigured) <==> q.tenant in stranded || Alias(q.tenant) in base.databases)
            && (q.tenant !in stranded && Alias(q.tenant) !in base.databases && q.supported && q.connects ==>
                  status == Done)
            && n.order == e.order + if status == Done then [q.tenant] else []
  {
    assert stranded + {} == stranded;
    assert e.order + [] == e.order;
    assert TenantAgrees(e, stranded, base, q.tenant);
    if q.tenant !in stranded {
      if Alias(q.tenant) !in base.databases && q.supported {
        ConfiguredAgrees(e, q.tenant, q.driver, stranded, base);
        InitializedAgrees(e.(registry := Configured(e.registry, Alias(q.tenant), q.driver)), q.tenant, stranded, base);
      }
    }
  }

  /** An alias is configured exactly if its tenant is kept or stranded or it was configured before, and a pool of the
      dictionary's own exists exactly for the kept ones. */
  lemma ConfiguredIff(m: Tenants, max: nat, stranded: set<string>, base: Registry, t: string)
    requires Inv(m, max, stranded, base)
    ensures Alias(t) in m.registry.databases <==> t in m.order || t in stranded || Alias(t) in base.databases
    ensures Alias(t) !in base.databases ==> (Alias(t) in m.registry.nativePools + m.registry.anyPools <==> t in m.order)
  {
    assert TenantAgrees(m, stranded, base, t);
  }

  /** A failed request closes the oldest tenant's pool exactly if the dictionary was full. */
  lemma FailureEvictsIff(m: Tenants, q: Request, max: nat, stranded: set<string>, base: Registry)
    requires max > 0 && Inv(m, max, stranded, base) && Ensured(m, q, max).1 != Done
    ensures var n := Ensured(m, q, max).0;
            if |m.order| < max then n.order == m.order
            else n.order == m.order[1..] && Alias(m.order[0]) !in n.registry.nativePools + n.registry.anyPools
  {
    var (n, status) := Ensured(m, q, max);
    EnsuredInv(m, q, max, stranded, base);
    assert m.order + [] == m.order && (|m.order| == max ==> m.order[1..] + [] == m.order[1..]);
    if |m.order| == max {
      var t := m.order[0];
      assert m.order == [t] + m.order[1..];
      assert Alias(t) !in base.databases && t !in n.order;
      assert TenantAgrees(n, stranded + StrandedBy(q, status), base, t);
    }
  }

  // ----- Runs -----

  function RunFrom(m: Tenants, qs: seq<Request>, max: nat): Tenants
    requires max > 0
  {
    if qs == [] then m
    else Ensured(RunFrom(m, qs[..|qs| - 1], max), qs[|qs| - 1], max).0
  }

  /** How the last of some requests ended. */
  function LastStatus(m: Tenants, qs: seq<Request>, max: nat): Status
    requires max > 0 && qs != []
  {
    Ensured(RunFrom(m, qs[..|qs| - 1], max), qs[|qs| - 1], max).1
  }

  /** The tenants for which some request failed while creating the pool. */
  function StrandedIn(m: Tenants, qs: seq<Request>, max: nat): set<string>
    requires max > 0
  {
    if qs == [] then {}
    else StrandedIn(m, qs[..|qs| - 1], max) + StrandedBy(qs[|qs| - 1], LastStatus(m, qs, max))
  }

  lemma InitInv(base: Registry, max: nat)
    requires Coherent(base)
    ensures Inv(Tenants([], base), max, {}, base)
  {
  }

  lemma {:induction false} RunInv(base: Registry, qs: seq<Request>, max: nat)
    requires max > 0 && Coherent(base)
    ensures Inv(RunFrom(Tenants([], base), qs, max), max, StrandedIn(Tenants([], base), qs, max), base)
  {
    var m := Tenants([], base);
    if qs == [] {
      InitInv(base, max);
    } else {
      var before := qs[..|qs| - 1];
      RunInv(base, before, max);
      EnsuredInv(RunFrom(m, before, max), qs[|qs| - 1], max, StrandedIn(m, before, max), base);
    }
  }

  /** Request `j` was for tenant `t` and failed while creating the pool. */
  predicate PoolFailed(m: Tenants, qs: seq<Request>, max: nat, t: string, j: nat)
    requires max > 0 && j < |qs|
  {
    qs[j].tenant == t && LastStatus(m, qs[..j + 1], max) == Raised(PoolError)
  }

  lemma PoolFailedBefore(m: Tenants, qs: seq<Request>, max: nat, t: string, n: nat, j: nat)
    requires max > 0 && j < n <= |qs|
    ensures PoolFailed(m, qs[..n], max, t, j) == PoolFailed(m, qs, max, t, j)
  {
    assert qs[..n][..j + 1] == qs[..j + 1];
  }

  lemma PoolFailedLast(m: Tenants, qs: seq<Request>, max: nat, t: string, n: nat)
    requires max > 0 && |qs| == n + 1
    ensures PoolFailed(m, qs, max, t, n) <==> t in StrandedBy(qs[n], LastStatus(m, qs, max))
    ensures t in StrandedIn(m, qs, max) <==> t in StrandedIn(m, qs[..n], max) || PoolFailed(m, qs, max, t, n)
  {
    assert qs[..n + 1] == qs;
  }

  ghost predicate SomePoolFailed(m: Tenants, qs: seq<Request>, max: nat, t: string)
    requires max > 0
  {
    exists j :: 0 <= j < |qs| && PoolFailed(m, qs, max, t, j)
  }

  lemma SomePoolFailedStep(m: Tenants, qs: seq<Request>, max: nat, t: string, n: nat)
    requires max > 0 && |qs| == n + 1
    ensures SomePoolFailed(m, qs, max, t) <==> SomePoolFailed(m, qs[..n], max, t) || PoolFailed(m, qs, max, t, n)
  {
    forall j | 0 <= j < n
      ensures PoolFailed(m, qs[..n], max, t, j) == PoolFailed(m, qs, max, t, j)
    {
      PoolFailedBefore(m, qs, max, t, n, j);
    }
  }

  lemma {:induction false} StrandedWitness(m: Tenants, qs: seq<Request>, max: nat, t: string)
    requires max > 0
    ensures t in StrandedIn(m, qs, max) <==> SomePoolFailed(m, qs, max, t)
  {
    if qs == [] {
      assert StrandedIn(m, qs, max) == {};
    } else {
      var n := |qs| - 1;
      StrandedWitness(m, qs[..n], max, t);
      PoolFailedLast(m, qs, max, t, n);
      SomePoolFailedStep(m, qs, max, t, n);
    }
  }

  /** "Already configured" is raised exactly when someone else has configured the alias, or an earlier request for the
      same tenant failed while creating its pool: the failed alias stays in the registry. */
  lemma AlreadyConfiguredIff(base: Registry, qs: seq<Request>, q: Request, max: nat)
    requires max > 0 && Coherent(base)
    ensures LastStatus(Tenants([], base), qs + [q], max) == Raised(AlreadyConfigured)
       <==> Alias(q.tenant) in base.databases || SomePoolFailed(Tenants([], base), qs, max, q.tenant)
  {
    var m := Tenants([], base);
    assert (qs + [q])[..|qs|] == qs;
    RunInv(base, qs, max);
    EnsuredInv(RunFrom(m, qs, max), q, max, StrandedIn(m, qs, max), base);
    StrandedWitness(m, qs, max, q.tenant);
  }

  // ----- How a request ends, and with which driver -----

  /** A tenant that is not kept fails as already configured, for its scheme or for its pool, in this order, or is
      added. */
  lemma StatusIs(base: Registry, qs: seq<Request>, q: Request, max: nat)
    requires max > 0 && Coherent(base)
    ensures var m := RunFrom(Tenants([], base), qs, max);
            LastStatus(Tenants([], base), qs + [q], max) ==
              if q.tenant in m.order then Done
              else if Alias(q.tenant) in base.databases || SomePoolFailed(Tenants([], base), qs, max, q.tenant)
              then Raised(AlreadyConfigured)
              else if !q.supported then Raised(UnsupportedScheme)
              else if !q.connects then Raised(PoolError) else Done
  {
    var m0 := Tenants([], base);
    var m := RunFrom(m0, qs, max);
    assert (qs + [q])[..|qs|] == qs;
    RunInv(base, qs, max);
    AlreadyConfiguredIff(base, qs, q, max);
    if q.tenant !in m.order {
      EvictedInv(m, max, StrandedIn(m0, qs, max), base);
      StrandedWitness(m0, qs, max, q.tenant);
      assert TenantAgrees(Evicted(m, max), StrandedIn(m0, qs, max), base, q.tenant);
    }
  }

  /** What a request does to the drivers recorded for the tenants. */
  lemma DriverStep(m: Tenants, q: Request, max: nat, stranded: set<string>, base: Registry, t: string)
    requires max > 0 && Inv(m, max, stranded, base)
    ensures var (n, status) := Ensured(m, q, max);
            && (t == q.tenant && t !in m.order && (status == Done || status == Raised(PoolError)) ==>
                  Alias(t) in n.registry.databases && n.registry.databases[Alias(t)] == q.driver)
            && ((t in n.order || t in stranded) && !(t == q.tenant && t !in m.order && status == Done) ==>
                  && Alias(t) in m.registry.databases && Alias(t) in n.registry.databases
                  && n.registry.databases[Alias(t)] == m.registry.databases[Alias(t)])
  {
    EnsuredInv(m, q, max, stranded, base);
    AliasInjective(t, q.tenant);
    assert TenantAgrees(m, stranded, base, t);
    assert TenantAgrees(Ensured(m, q, max).0, stranded + StrandedBy(q, Ensured(m, q, max).1), base, t);
    if q.tenant in m.order {
      WithoutMembers(m.order, q.tenant);
    } else {
      DriverAfterEviction(m, max, stranded, base, t);
    }
  }

  lemma DriverAfterEviction(m: Tenants, max: nat, stranded: set<string>, base: Registry, t: string)
    requires max > 0 && Inv(m, max, stranded, base)
    ensures var e := Evicted(m, max);
            if t in e.order || t in stranded then
              && Alias(t) in m.registry.databases && Alias(t) in e.registry.databases
              && e.registry.databases[Alias(t)] == m.registry.databases[Alias(t)]
            else TenantAgrees(e, stranded, base, t)
  {
    EvictedInv(m, max, stranded, base);
    if t in Evicted(m, max).order || t in stranded {
      EvictedKeepsDriver(m, max, stranded, base, t);
    }
  }

  lemma {:induction false} EvictedKeepsDriver(m: Tenants, max: nat, stranded: set<string>, base: Registry, t: string)
    requires max > 0 && Inv(m, max, stranded, base) && (t in Evicted(m, max).order || t in stranded)
    ensures Alias(t) in m.registry.databases && Alias(t) in Evicted(m, max).registry.databases
    ensures Evicted(m, max).registry.databases[Alias(t)] == m.registry.databases[Alias(t)]
    decreases |m.order|
  {
    assert TenantAgrees(m, stranded, base, t);
    EvictedInv(m, max, stranded, base);
    if |m.order| >= max {
      var m1 := Tenants(m.order[1..], Closed(m.registry, Alias(m.order[0])));
      assert m.order == [m.order[0]] + m.order[1..];
      CloseOldest(m, max, stranded, base);
      AliasInjective(t, m.order[0]);
      EvictedKeepsDriver(m1, max, stranded, base, t);
    }
  }

  /** Request `j` put tenant `t` into the dictionary. */
  predicate Added(m: Tenants, qs: seq<Request>, max: nat, t: string, j: nat)
    requires max > 0 && j < |qs|
  {
    qs[j].tenant == t && t !in RunFrom(m, qs[..j], max).order && LastStatus(m, qs[..j + 1], max) == Done
  }

  /** Of the first `n` requests it was the last one to do so. */
  ghost predicate LastAdded(m: Tenants, qs: seq<Request>, max: nat, t: string, j: nat, n: nat)
    requires max > 0 && n <= |qs|
  {
    j < n && Added(m, qs, max, t, j) && forall i :: j < i < n ==> !Added(m, qs, max, t, i)
  }

  lemma RunStep(m: Tenants, qs: seq<Request>, max: nat, n: nat)
    requires max > 0 && n < |qs|
    ensures RunFrom(m, qs[..n + 1], max) == Ensured(RunFrom(m, qs[..n], max), qs[n], max).0
    ensures LastStatus(m, qs[..n + 1], max) == Ensured(RunFrom(m, qs[..n], max), qs[n], max).1
  {
    assert qs[..n + 1][..n] == qs[..n];
  }

  /** One request: a tenant kept after it was just added, or was kept before with the same driver. */
  lemma KeptStep(m: Tenants, q: Request, max: nat, stranded: set<string>, base: Registry, t: string, d: Driver)
    requires max > 0 && Inv(m, max, stranded, base) && t in Ensured(m, q, max).0.order
    ensures var (n, status) := Ensured(m, q, max);
            if q.tenant == t && t !in m.order && status == Done then KeptWith(n.registry, Alias(t), q.driver)
            else t in m.order && (KeptWith(m.registry, Alias(t), d) ==> KeptWith(n.registry, Alias(t), d))
  {
    var (n, status) := Ensured(m, q, max);
    EnsuredInv(m, q, max, stranded, base);
    DriverStep(m, q, max, stranded, base, t);
    NextOrderFrom(m.order, q.tenant, status == Done, max, t);
    assert TenantAgrees(n, stranded + StrandedBy(q, status), base, t);
  }

  ghost predicate KeptAsAdded(m: Tenants, qs: seq<Request>, max: nat, t: string, n: nat)
    requires max > 0 && n <= |qs|
  {
    exists j: nat :: LastAdded(m, qs, max, t, j, n) &&
        KeptWith(RunFrom(m, qs[..n], max).registry, Alias(t), qs[j].driver)
  }

  /** A tenant kept after request `i` was added by it, or was kept before. */
  lemma KeptFrom(base: Registry, qs: seq<Request>, max: nat, t: string, i: nat, d: Driver)
    requires max > 0 && Coherent(base) && i < |qs| && t in RunFrom(Tenants([], base), qs[..i + 1], max).order
    ensures var m := Tenants([], base);
            var r, next := RunFrom(m, qs[..i], max), RunFrom(m, qs[..i + 1], max);
            if Added(m, qs, max, t, i) then KeptWith(next.registry, Alias(t), qs[i].driver)
            else t in r.order && (KeptWith(r.registry, Alias(t), d) ==> KeptWith(next.registry, Alias(t), d))
  {
    var m := Tenants([], base);
    RunStep(m, qs, max, i);
    RunInv(base, qs[..i], max);
    KeptStep(RunFrom(m, qs[..i], max), qs[i], max, StrandedIn(m, qs[..i], max), base, t, d);
  }

  lemma KeptStill(base: Registry, qs: seq<Request>, max: nat, t: string, i: nat)
    requires max > 0 && Coherent(base) && i < |qs| && t in RunFrom(Tenants([], base), qs[..i + 1], max).order
    requires !Added(Tenants([], base), qs, max, t, i) && KeptAsAdded(Tenants([], base), qs, max, t, i)
    ensures KeptAsAdded(Tenants([], base), qs, max, t, i + 1)
  {
    var m := Tenants([], base);
    var registry := RunFrom(m, qs[..i], max).registry;
    var j: nat :| LastAdded(m, qs, max, t, j, i) && KeptWith(registry, Alias(t), qs[j].driver);
    KeptFrom(base, qs, max, t, i, qs[j].driver);
    LastAddedStays(m, qs, max, t, j, i);
  }

  lemma LastAddedStays(m: Tenants, qs: seq<Request>, max: nat, t: string, j: nat, i: nat)
    requires max > 0 && i < |qs| && LastAdded(m, qs, max, t, j, i) && !Added(m, qs, max, t, i)
    ensures LastAdded(m, qs, max, t, j, i + 1)
  {
    forall k | j < k < i + 1
      ensures !Added(m, qs, max, t, k)
    {
      assert k < i || k == i;
    }
  }

  lemma KeptNow(base: Registry, qs: seq<Request>, max: nat, t: string, i: nat)
    requires max > 0 && Coherent(base) && i < |qs| && t in RunFrom(Tenants([], base), qs[..i + 1], max).order
    requires Added(Tenants([], base), qs, max, t, i)
    ensures KeptAsAdded(Tenants([], base), qs, max, t, i + 1)
  {
    KeptFrom(base, qs, max, t, i, qs[i].driver);
    assert LastAdded(Tenants([], base), qs, max, t, i, i + 1);
  }

  lemma {:induction false} KeptDriverAt(base: Registry, qs: seq<Request>, max: nat, t: string, n: nat)
    requires max > 0 && Coherent(base) && n <= |qs| && t in RunFrom(Tenants([], base), qs[..n], max).order
    ensures KeptAsAdded(Tenants([], base), qs, max, t, n)
  {
    if n > 0 {
      if Added(Tenants([], base), qs, max, t, n - 1) {
        KeptNow(base, qs, max, t, n - 1);
      } else {
        KeptFrom(base, qs, max, t, n - 1, Postgres);
        KeptDriverAt(base, qs, max, t, n - 1);
        KeptStill(base, qs, max, t, n - 1);
      }
    }
  }

  /** A kept tenant is configured with the driver of the request that last put it into the dictionary, and has its
      pool in that driver's table: a native one exactly for PostgreSQL. */
  lemma KeptDriver(base: Registry, qs: seq<Request>, max: nat, t: string)
    requires max > 0 && Coherent(base) && t in RunFrom(Tenants([], base), qs, max).order
    ensures exists j: nat :: LastAdded(Tenants([], base), qs, max, t, j, |qs|) &&
                             KeptWith(RunFrom(Tenants([], base), qs, max).registry, Alias(t), qs[j].driver)
  {
    assert qs[..|qs|] == qs;
    KeptDriverAt(base, qs, max, t, |qs|);
  }

  ghost predicate KeptWith(r: Registry, a: string, d: Driver) {
    && a in r.databases && r.databases[a] == d
    && (a in r.nativePools <==> d == Postgres) && (a in r.anyPools <==> d != Postgres)
  }

  lemma NextOrderFrom(order: seq<string>, q: string, done: bool, max: nat, t: string)
    requires t in NextOrder(order, q, done, max)
    ensures t in order || (t == q && done && q !in order)
  {
    WithoutMembers(order, q);
  }

  /** A stranded tenant is configured with the driver of the request whose pool could not be created. */
  lemma {:induction false} StrandedDriver(base: Registry, qs: seq<Request>, max: nat, t: string)
    requires max > 0 && Coherent(base) && t in StrandedIn(Tenants([], base), qs, max)
    ensures exists j :: 0 <= j < |qs| && PoolFailed(Tenants([], base), qs, max, t, j) &&
                        StrandedWith(RunFrom(Tenants([], base), qs, max).registry, Alias(t), qs[j].driver)
  {
    var m := Tenants([], base);
    var n := |qs| - 1;
    var before, q := qs[..n], qs[n];
    var r := RunFrom(m, before, max);
    RunInv(base, before, max);
    DriverStep(r, q, max, StrandedIn(m, before, max), base, t);
    EnsuredInv(r, q, max, StrandedIn(m, before, max), base);
    PoolFailedLast(m, qs, max, t, n);
    if t in StrandedIn(m, before, max) {
      StrandedDriver(base, before, max, t);
      var j :| 0 <= j < n && PoolFailed(m, before, max, t, j) && StrandedWith(r.registry, Alias(t), before[j].driver);
      PoolFailedBefore(m, qs, max, t, n, j);
      assert before[j] == qs[j];
    } else {
      assert PoolFailed(m, qs, max, t, n);
    }
  }

  ghost predicate StrandedWith(r: Registry, a: string, d: Driver) { a in r.databases && r.databases[a] == d }

  // ----- Least recently used, by reference -----

  /** The last `k` distinct tenants of a list of uses, the most recent one last. */
  function Recent(uses: seq<string>, k: nat): (r: seq<string>)
    ensures |r| <= k
    decreases |uses|
  {
    if uses == [] || k == 0 then []
    else
      var last := uses[|uses| - 1];
      Recent(Without(uses[..|uses| - 1], last), k - 1) + [last]
  }

  lemma {:induction false} RecentSubset(uses: seq<string>, k: nat)
    ensures forall t :: t in Recent(uses, k) ==> t in uses
    decreases |uses|
  {
    if uses != [] && k > 0 {
      var u, x := uses[..|uses| - 1], uses[|uses| - 1];
      assert uses == u + [x];
      RecentSubset(Without(u, x), k - 1);
      WithoutMembers(u, x);
    }
  }

  lemma RecentAppend(u: seq<string>, x: string, k: nat)
    ensures Recent(u + [x], k) == if k == 0 then [] else Recent(Without(u, x), k - 1) + [x]
  {
    assert (u + [x])[..|u|] == u;
  }

  /** Taking a tenant out of the history takes it out of the recent ones. */
  predicate RemovalLaw(uses: seq<string>, t: string, k: nat) {
    if t in Recent(uses, k) then k > 0 && Recent(Without(uses, t), k - 1) == Without(Recent(uses, k), t)
    else Recent(Without(uses, t), k) == Recent(uses, k)
  }

  lemma {:induction false} RecentWithout(uses: seq<string>, t: string, k: nat)
    ensures RemovalLaw(uses, t, k)
    decreases |uses|
  {
    if uses == [] || k == 0 {
      assert RemovalLaw(uses, t, k);
    } else {
      RemovalInduction(uses[..|uses| - 1], uses[|uses| - 1], t, k);
      assert uses[..|uses| - 1] + [uses[|uses| - 1]] == uses;
    }
  }

  lemma {:induction false} RemovalInduction(u: seq<string>, x: string, t: string, k: nat)
    requires k > 0
    ensures RemovalLaw(u + [x], t, k)
    decreases |u|
  {
    if x == t {
      RemovalOfLast(u, t, k);
    } else {
      var v := Without(u, x);
      if v != [] && k > 1 {
        RemovalInduction(v[..|v| - 1], v[|v| - 1], t, k - 1);
        assert v[..|v| - 1] + [v[|v| - 1]] == v;
      }
      RemovalOfEarlier(u, x, t, k);
    }
  }

  lemma RemovalOfLast(u: seq<string>, t: string, k: nat)
    requires k > 0
    ensures RemovalLaw(u + [t], t, k)
  {
    RecentAppend(u, t, k);
    RecentSubset(Without(u, t), k - 1);
    WithoutMembers(u, t);
    RecentWithoutLast(u, t, k);
  }

  lemma RemovalOfEarlier(u: seq<string>, x: string, t: string, k: nat)
    requires k > 0 && x != t && RemovalLaw(Without(u, x), t, k - 1)
    ensures RemovalLaw(u + [x], t, k)
  {
    RecentAppend(u, x, k);
    RecentWithoutEarlier(u, x, t, k);
    assert t in Recent(u + [x], k) <==> t in Recent(Without(u, x), k - 1);
  }

  lemma RecentWithoutLast(u: seq<string>, t: string, k: nat)
    requires k > 0 && t !in Recent(Without(u, t), k - 1)
    ensures Recent(Without(u + [t], t), k - 1) == Without(Recent(Without(u, t), k - 1) + [t], t)
  {
    WithoutAppend(u, t, t);
    WithoutAppend(Recent(Without(u, t), k - 1), t, t);
    WithoutMembers(Recent(Without(u, t), k - 1), t);
  }

  lemma RecentWithoutEarlier(u: seq<string>, x: string, t: string, k: nat)
    requires k > 0 && x != t
    ensures Recent(Without(u + [x], t), k) == Recent(Without(Without(u, x), t), k - 1) + [x]
    ensures k > 1 ==> Recent(Without(u + [x], t), k - 1) == Recent(Without(Without(u, x), t), k - 2) + [x]
    ensures Without(Recent(Without(u, x), k - 1) + [x], t) == Without(Recent(Without(u, x), k - 1), t) + [x]
  {
    WithoutAppend(u, t, x);
    RecentAppend(Without(u, t), x, k);
    RecentAppend(Without(u, t), x, k - 1);
    WithoutCommutes(u, t, x);
    WithoutAppend(Recent(Without(u, x), k - 1), t, x);
  }

  lemma {:induction false} RecentFewer(uses: seq<string>, k: nat)
    requires k > 0
    ensures Recent(uses, k - 1) == if |Recent(uses, k)| < k then Recent(uses, k) else Recent(uses, k)[1..]
    decreases |uses|
  {
    if uses != [] && k > 1 {
      RecentFewer(Without(uses[..|uses| - 1], uses[|uses| - 1]), k - 1);
    }
  }

  /** A tenant that is among the recent ones moves to the end. */
  lemma RecentStepKnown(uses: seq<string>, t: string, k: nat)
    requires k > 0 && RemovalLaw(uses, t, k) && t in Recent(uses, k)
    ensures Recent(uses + [t], k) == Without(Recent(uses, k), t) + [t]
  {
    RecentAppend(uses, t, k);
  }

  /** A new one makes the oldest go if there are too many. */
  lemma RecentStepNew(uses: seq<string>, t: string, k: nat)
    requires k > 0 && RemovalLaw(uses, t, k - 1) && t !in Recent(uses, k - 1)
    ensures Recent(uses + [t], k) == Recent(uses, k - 1) + [t]
  {
    RecentAppend(uses, t, k);
  }

  lemma {:induction false} RecentStep(uses: seq<string>, t: string, k: nat)
    requires k > 0
    ensures Recent(uses + [t], k)
         == (if t in Recent(uses, k) then Without(Recent(uses, k), t)
             else if |Recent(uses, k)| < k then Recent(uses, k) else Recent(uses, k)[1..]) + [t]
  {
    var recent := Recent(uses, k);
    if t in recent {
      RecentWithout(uses, t, k);
      RecentStepKnown(uses, t, k);
    } else {
      RecentFewer(uses, k);
      assert t !in Recent(uses, k - 1);
      RecentWithout(uses, t, k - 1);
      RecentStepNew(uses, t, k);
    }
  }

  /** The tenants of the requests that succeeded, in order. */
  function DoneUses(m: Tenants, qs: seq<Request>, max: nat): seq<string>
    requires max > 0
  {
    if qs == [] then []
    else DoneUses(m, qs[..|qs| - 1], max) + if LastStatus(m, qs, max) == Done then [qs[|qs| - 1].tenant] else []
  }

  /** How many tenants are kept: a new tenant adds one up to the limit, a failure leaves a free place. */
  lemma KeptCount(m: Tenants, q: Request, max: nat, stranded: set<string>, base: Registry)
    requires max > 0 && Inv(m, max, stranded, base)
    ensures var (n, status) := Ensured(m, q, max);
            |n.order| == if q.tenant in m.order then |m.order|
                         else if status == Done then (if |m.order| < max then |m.order| + 1 else max)
                         else if |m.order| < max then |m.order| else max - 1
  {
    EnsuredInv(m, q, max, stranded, base);
    if q.tenant in m.order {
      WithoutDistinct(m.order, q.tenant);
    }
  }

  lemma RecentKnown(d: seq<string>, order: seq<string>, t: string, max: nat)
    requires Distinct(order) && order == Recent(d, |order|) && t in order
    ensures var next := NextOrder(order, t, true, max); next == Recent(d + [t], |next|)
  {
    WithoutDistinct(order, t);
    RecentWithout(d, t, |order|);
    RecentStepKnown(d, t, |order|);
  }

  lemma RecentFailed(d: seq<string>, order: seq<string>, t: string, max: nat)
    requires max > 0 && |order| <= max && order == Recent(d, |order|) && t !in order
    ensures var next := NextOrder(order, t, false, max); next == Recent(d, |next|)
  {
    assert order + [] == order;
    if |order| == max {
      RecentFewer(d, max);
      assert order[1..] + [] == order[1..];
    }
  }

  lemma RecentWithRoom(d: seq<string>, k: nat, t: string)
    requires t !in Recent(d, k)
    ensures Recent(d + [t], k + 1) == Recent(d, k) + [t]
  {
    RecentWithout(d, t, k);
    RecentStepNew(d, t, k + 1);
  }

  lemma RecentFull(d: seq<string>, k: nat, t: string)
    requires k > 0 && |Recent(d, k)| == k && t !in Recent(d, k)
    ensures Recent(d + [t], k) == Recent(d, k)[1..] + [t]
  {
    RecentFewer(d, k);
    RecentWithRoom(d, k - 1, t);
  }

  lemma RecentNew(d: seq<string>, order: seq<string>, t: string, max: nat)
    requires max > 0 && |order| <= max && order == Recent(d, |order|) && t !in order
    ensures var next := NextOrder(order, t, true, max); next == Recent(d + [t], |next|)
  {
    if |order| < max {
      RecentWithRoom(d, |order|, t);
    } else {
      RecentFull(d, |order|, t);
    }
  }

  /** One request, on the most recent ones of the history so far. */
  lemma RecentNext(d: seq<string>, order: seq<string>, t: string, done: bool, max: nat)
    requires max > 0 && |order| <= max && Distinct(order) && order == Recent(d, |order|) && (t in order ==> done)
    ensures var next := NextOrder(order, t, done, max);
            next == Recent(if done then d + [t] else d, |next|)
  {
    if t in order {
      RecentKnown(d, order, t, max);
    } else if done {
      RecentNew(d, order, t, max);
    } else {
      RecentFailed(d, order, t, max);
    }
  }

  /** After any requests, whether they succeed or fail, the dictionary in order is the most recent distinct tenants
      among the successful requests, as many as it holds. */
  lemma {:induction false} LruUnderFailures(base: Registry, qs: seq<Request>, max: nat)
    requires max > 0 && Coherent(base)
    ensures var m := RunFrom(Tenants([], base), qs, max);
            m.order == Recent(DoneUses(Tenants([], base), qs, max), |m.order|)
  {
    var m := Tenants([], base);
    if qs == [] {
      assert Recent([], 0) == [];
    } else {
      var before, q := qs[..|qs| - 1], qs[|qs| - 1];
      LruUnderFailures(base, before, max);
      RunInv(base, before, max);
      LruStep(RunFrom(m, before, max), q, max, StrandedIn(m, before, max), base, DoneUses(m, before, max));
    }
  }

  lemma LruStep(m: Tenants, q: Request, max: nat, stranded: set<string>, base: Registry, d: seq<string>)
    requires max > 0 && Inv(m, max, stranded, base) && m.order == Recent(d, |m.order|)
    ensures var (n, status) := Ensured(m, q, max);
            n.order == Recent(d + if status == Done then [q.tenant] else [], |n.order|)
  {
    EnsuredInv(m, q, max, stranded, base);
    RecentNext(d, m.order, q.tenant, Ensured(m, q, max).1 == Done, max);
    assert d + [] == d;
  }

  function Uses(qs: seq<Request>): (r: seq<string>)
    ensures |r| == |qs|
  {
    if qs == [] then [] else Uses(qs[..|qs| - 1]) + [qs[|qs| - 1].tenant]
  }

  predicate Servable(base: Registry, q: Request) { q.supported && q.connects && Alias(q.tenant) !in base.databases }

  lemma {:induction false} AllSucceed(base: Registry, qs: seq<Request>, max: nat)
    requires max > 0 && Coherent(base) && forall i :: 0 <= i < |qs| ==> Servable(base, qs[i])
    ensures DoneUses(Tenants([], base), qs, max) == Uses(qs) && StrandedIn(Tenants([], base), qs, max) == {}
    ensures qs != [] ==> LastStatus(Tenants([], base), qs, max) == Done
  {
    if qs == [] {
    } else {
      var before, q := qs[..|qs| - 1], qs[|qs| - 1];
      AllSucceed(base, before, max);
      RunInv(base, before, max);
      EnsuredInv(RunFrom(Tenants([], base), before, max), q, max, {}, base);
    }
  }

  /** Without failures no place stays free: fewer than `max` are kept only if there were no more tenants. */
  lemma {:induction false} FullUnlessFew(base: Registry, qs: seq<Request>, max: nat)
    requires max > 0 && Coherent(base) && forall i :: 0 <= i < |qs| ==> Servable(base, qs[i])
    ensures var order := RunFrom(Tenants([], base), qs, max).order;
            |order| <= max && (|order| < max ==> forall t :: t in Uses(qs) ==> t in order)
  {
    var m := Tenants([], base);
    if qs == [] {
    } else {
      var before, q := qs[..|qs| - 1], qs[|qs| - 1];
      FullUnlessFew(base, before, max);
      AllSucceed(base, before, max);
      AllSucceed(base, qs, max);
      RunInv(base, before, max);
      var r := RunFrom(m, before, max);
      EnsuredInv(r, q, max, {}, base);
      KeptCount(r, q, max, {}, base);
      WithoutMembers(r.order, q.tenant);
    }
  }

  /** A longer look back finds nothing new once every tenant is there. */
  lemma {:induction false} RecentHasAll(uses: seq<string>, k: nat, max: nat)
    requires k <= max && forall t :: t in uses ==> t in Recent(uses, k)
    ensures Recent(uses, max) == Recent(uses, k)
    decreases |uses|
  {
    if uses == [] {
    } else if k == 0 {
      assert uses[0] in uses;
    } else {
      var u, x := uses[..|uses| - 1], uses[|uses| - 1];
      assert uses == u + [x];
      WithoutMembers(u, x);
      RecentAppend(u, x, k);
      forall t | t in Without(u, x)
        ensures t in Recent(Without(u, x), k - 1)
      {
        assert t in uses && t != x;
      }
      RecentHasAll(Without(u, x), k - 1, max - 1);
    }
  }

  lemma OrderIsRecent(base: Registry, qs: seq<Request>, max: nat)
    requires max > 0 && Coherent(base) && forall i :: 0 <= i < |qs| ==> Servable(base, qs[i])
    ensures RunFrom(Tenants([], base), qs, max).order == Recent(Uses(qs), max)
  {
    AllSucceed(base, qs, max);
    LruUnderFailures(base, qs, max);
    FullUnlessFew(base, qs, max);
    var order := RunFrom(Tenants([], base), qs, max).order;
    if |order| < max {
      RecentHasAll(Uses(qs), |order|, max);
    }
  }

  /** When every request can be served, the dictionary in order is exactly the last `max` distinct tenants by most
      recent use, an alias not configured by others is configured exactly if its tenant is kept, and no request
      fails. */
  lemma KeepsMostRecentTenants(base: Registry, qs: seq<Request>, max: nat)
    requires max > 0 && Coherent(base) && forall i :: 0 <= i < |qs| ==> Servable(base, qs[i])
    ensures var m := RunFrom(Tenants([], base), qs, max);
            && m.order == Recent(Uses(qs), max)
            && (forall t: string :: Alias(t) !in base.databases ==>
                  (Alias(t) in m.registry.databases <==> t in m.order))
            && (forall t: string :: Alias(t) !in base.databases ==>
                  (Alias(t) in m.registry.nativePools + m.registry.anyPools <==> t in m.order))
    ensures qs != [] ==> LastStatus(Tenants([], base), qs, max) == Done
  {
    var m := RunFrom(Tenants([], base), qs, max);
    AllSucceed(base, qs, max);
    OrderIsRecent(base, qs, max);
    RunInv(base, qs, max);
    forall t: string | Alias(t) !in base.databases
      ensures Alias(t) in m.registry.databases <==> t in m.order
      ensures Alias(t) in m.registry.nativePools + m.registry.anyPools <==> t in m.order
    {
      ConfiguredIff(m, max, {}, base, t);
    }
  }

  /** Closing all pools gives the registry back without any kept tenant. */
  lemma {:induction false} CloseAllInv(m: Tenants, max: nat, stranded: set<string>, base: Registry)
    requires Inv(m, max, stranded, base)
    ensures Inv(AllClosed(m), max, stranded, base) && AllClosed(m).order == []
    decreases |m.order|
  {
    if m.order == [] {
    } else {
      CloseOldest(m, max, stranded, base);
      CloseAllInv(Tenants(m.order[1..], Closed(m.registry, Alias(m.order[0]))), max, stranded, base);
    }
  }
}
