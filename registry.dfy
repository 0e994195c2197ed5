/** The service registry (`core/registry.py`): a table from names to services that only grows. */
module Registry {
  import opened Wrappers

  class Registry<S> {
    var entries: map<string, S>

    /** A new registry is empty. */
    constructor ()
      ensures entries == map[]
    {
      entries := map[];
    }

    /** `register`: a fresh name is added with its service; a name already present raises
        ComponentNameCollisionError and keeps the old entry. */
    method Register(name: string, service: S) returns (r: Result<()>)
      modifies this
      ensures name in old(entries) ==> r == Err(ComponentNameCollision(name)) && entries == old(entries)
      ensures name !in old(entries) ==> r == Ok(()) && entries == old(entries)[name := service]
      ensures r.Ok? ==> Get(name) == Ok(service)
      ensures forall n :: n != name ==> Get(n) == old(Get(n))
    {
      if name in entries {
        return Err(ComponentNameCollision(name));
      }
      entries := entries[name := service];
      r := Ok(());
    }

    /** `get`: the service of a registered name, UnknownComponentException for any other. */
    function Get(name: string): (r: Result<S>)
      reads this
      ensures r.Ok? <==> name in entries
      ensures r.Ok? ==> r.value == entries[name]
      ensures r.Err? ==> r.error == UnknownComponent(name)
    {
      if name !in entries then Err(UnknownComponent(name)) else Ok(entries[name])
    }
  }

  /** Registering two services under different names keeps both; the same name twice keeps the
      first. */
  method TwoServices<S>(a: string, b: string, s: S, t: S) returns (first: Result<S>, second: Result<S>)
    ensures a != b ==> first == Ok(s) && second == Ok(t)
    ensures a == b ==> first == Ok(s) && second == Ok(s)
  {
    var reg := new Registry<S>();
    var r1 := reg.Register(a, s);
    var r2 := reg.Register(b, t);
    first := reg.Get(a);
    second := reg.Get(b);
  }
}
