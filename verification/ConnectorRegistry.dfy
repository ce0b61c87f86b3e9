/**
  The registry of connector backends and its cache of reachable types. A Python set that is handed to a caller is
  an object the caller may change in place (`TypeSet`); what the cache keeps is a frozen copy.
 */
module Registry {
  /** A backend class: the message types it supports, and which identities its normalization accepts. */
  datatype Backend = Backend(supported: set<string>, accepts: string -> bool)

  datatype State = State(backends: map<string, Backend>, cache: map<string, set<string>>)

  /** The union of the supported types over the backends that accept the identity. */
  function Reachable(backends: map<string, Backend>, identity: string): set<string> {
    set name, t | name in backends && backends[name].accepts(identity) && t in backends[name].supported :: t
  }

  /** `register_backend`; a name that is already taken raises. */
  function Registered(s: State, name: string, b: Backend): State {
    if name in s.backends then s else State(s.backends[name := b], map[])
  }

  /** `resolve_reachable_types`: the answer, and the registry with its cache filled. */
  function Resolved(s: State, identity: string): (State, set<string>) {
    if identity in s.cache then (s, s.cache[identity])
    else
      var types := Reachable(s.backends, identity);
      (s.(cache := s.cache[identity := types]), types)
  }

  ghost predicate CacheRight(s: State) {
    forall identity :: identity in s.cache ==> s.cache[identity] == Reachable(s.backends, identity)
  }

  /** A mutable set object. */
  class TypeSet {
    var elems: set<string>

    constructor (elems: set<string>)
      ensures this.elems == elems
    {
      this.elems := elems;
    }

    /** `self &= other`. */
    method IntersectWith(other: TypeSet)
      modifies this
      ensures elems == old(elems) * old(other.elems)
    {
      elems := elems * other.elems;
    }
  }

  class ConnectorRegistry {
    var names: seq<string>
    var backends: map<string, Backend>
    var reachableTypesCache: map<string, set<string>>

    ghost function View(): State
      reads this
    {
      State(backends, reachableTypesCache)
    }

    /** `names` lists the keys of the dictionary in insertion order, and what is cached is right. */
    ghost predicate Valid()
      reads this
    {
      && (forall name :: name in names <==> name in backends)
      && CacheRight(View())
    }

    constructor ()
      ensures Valid() && View() == State(map[], map[])
    {
      names, backends, reachableTypesCache := [], map[], map[];
    }

    method RegisterBackend(name: string, b: Backend) returns (ok: bool)
      requires Valid()
      modifies this
      ensures Valid() && View() == Registered(old(View()), name, b)
      ensures ok <==> name !in old(backends)
    {
      if name in backends {
        return false;
      }
      names := names + [name];
      backends := backends[name := b];
      reachableTypesCache := map[];
      ok := true;
    }

    /** The set returned is always a new object: the caller may change it without touching the cache. */
    method ResolveReachableTypes(identity: string) returns (types: TypeSet)
      requires Valid()
      modifies this
      ensures Valid() && fresh(types) && (View(), types.elems) == Resolved(old(View()), identity)
      ensures types.elems == Reachable(backends, identity) && backends == old(backends)
    {
      if identity in reachableTypesCache {
        types := new TypeSet(reachableTypesCache[identity]);
        return;
      }
      types := new TypeSet({});
      for i := 0 to |names|
        modifies types
        invariant types.elems == set n, t | n in names[..i] && backends[n].accepts(identity)
            && t in backends[n].supported :: t
      {
        var entry := backends[names[i]];
        assert names[..i + 1] == names[..i] + [names[i]];
        if entry.accepts(identity) {
          types.elems := types.elems + entry.supported;
        }
      }
      assert names[..|names|] == names;
      assert types.elems == Reachable(backends, identity);
      reachableTypesCache := reachableTypesCache[identity := types.elems];
    }
  }

  datatype Call = Register(name: string, backend: Backend) | Resolve(identity: string)

  function Play(calls: seq<Call>): State {
    if calls == [] then State(map[], map[]) else
    var s, call := Play(calls[..|calls| - 1]), calls[|calls| - 1];
    match call
    case Register(name, b) => Registered(s, name, b)
    case Resolve(identity) => Resolved(s, identity).0
  }

  /** After any sequence of registrations and lookups a lookup answers the union over the backends registered so
      far, cached or not. */
  lemma {:induction false} ResolveIsUnion(calls: seq<Call>, identity: string)
    ensures Resolved(Play(calls), identity).1 == Reachable(Play(calls).backends, identity)
  {
    if calls != [] {
      ResolveIsUnion(calls[..|calls| - 1], identity);
    }
  }

  /** Registering a backend adds its types for the identities it accepts, and takes none away. */
  lemma RegistrationOnlyAdds(calls: seq<Call>, name: string, b: Backend, identity: string)
    requires name !in Play(calls).backends
    ensures Resolved(Play(calls + [Register(name, b)]), identity).1 ==
            Resolved(Play(calls), identity).1 + if b.accepts(identity) then b.supported else {}
  {
    assert (calls + [Register(name, b)])[..|calls|] == calls;
    ResolveIsUnion(calls, identity);
    var before, after := Play(calls).backends, Play(calls).backends[name := b];
    forall t ensures t in Reachable(after, identity) <==>
                     t in Reachable(before, identity) || (b.accepts(identity) && t in b.supported)
    {
      if t in Reachable(before, identity) {
        var n :| n in before && before[n].accepts(identity) && t in before[n].supported;
        assert after[n] == before[n];
      }
      if t in Reachable(after, identity) {
        var n :| n in after && after[n].accepts(identity) && t in after[n].supported;
        assert n != name ==> before[n] == after[n];
      }
      if b.accepts(identity) && t in b.supported {
        assert after[name] == b;
      }
    }
  }

  /** Call `i` registers a backend under a name not taken before. */
  ghost predicate TakesName(calls: seq<Call>, i: nat) {
    && i < |calls| && calls[i].Register?
    && forall j :: 0 <= j < i && calls[j].Register? ==> calls[j].name != calls[i].name
  }

  lemma {:induction false} FirstRegistrationStays(calls: seq<Call>, name: string)
    ensures name in Play(calls).backends <==> exists i: nat :: TakesName(calls, i) && calls[i].name == name
    ensures forall i: nat :: TakesName(calls, i) && calls[i].name == name ==>
              name in Play(calls).backends && Play(calls).backends[name] == calls[i].backend
    ensures name in Play(calls).backends <==>
              exists j :: 0 <= j < |calls| && calls[j].Register? && calls[j].name == name
  {
    if calls != [] {
      var n := |calls| - 1;
      var before, last := calls[..n], calls[n];
      FirstRegistrationStays(before, name);
      forall i: nat | i < n ensures TakesName(calls, i) <==> TakesName(before, i) {}
      if j :| 0 <= j < n && before[j].Register? && before[j].name == name {
        assert calls[j] == before[j];
      }
      if name in Play(before).backends {
        var i: nat :| TakesName(before, i) && before[i].name == name;
        assert TakesName(calls, i) && calls[i].name == name;
      } else if last.Register? && last.name == name {
        assert TakesName(calls, n);
      }
    }
  }

  /** A type is reachable for an identity exactly if a backend supports it that accepts the identity and was the first
      to be registered under its name, whatever was looked up or refused in between. */
  lemma ReachableExactlyWhen(calls: seq<Call>, identity: string, t: string)
    ensures t in Resolved(Play(calls), identity).1 <==>
              exists i: nat :: TakesName(calls, i)
                && calls[i].backend.accepts(identity) && t in calls[i].backend.supported
  {
    ResolveIsUnion(calls, identity);
    var backends := Play(calls).backends;
    hide Play, Resolved;
    if name :| name in backends && backends[name].accepts(identity) && t in backends[name].supported {
      FirstRegistrationStays(calls, name);
    }
    if i: nat :| TakesName(calls, i) && calls[i].backend.accepts(identity) && t in calls[i].backend.supported {
      FirstRegistrationStays(calls, calls[i].name);
      assert backends[calls[i].name].accepts(identity) && t in backends[calls[i].name].supported;
    }
  }
}
