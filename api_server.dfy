/** The endpoint registry of the REST handler: `add_endpoint(endpoint)` decorates a
    function that, given the connection, returns a resource class; the pair
    `(endpoint, class)` is recorded once the name is known to be new and the class is
    known to extend `Resource`. Serving the endpoints is not modelled. */
module ApiServer {
  import opened Results
  import opened BaseConnections

  /** A Python class as the registry sees it: its name and its direct base classes. */
  datatype PyClass = PyClass(name: string, bases: seq<string>)

  const ResourceBase: string := "flask_restful.Resource"

  /** `Resource in ret.__bases__`: only direct bases are looked at. */
  function ExtendsResource(c: PyClass): (b: bool)
    ensures b <==> exists i :: 0 <= i < |c.bases| && c.bases[i] == ResourceBase
  {
    ResourceBase in c.bases
  }

  type Endpoint = (string, PyClass)

  /** `[i for i, _ in self.all_endpoints]` */
  function EndpointNames(endpoints: seq<Endpoint>): (names: seq<string>)
    ensures |names| == |endpoints|
    ensures forall i :: 0 <= i < |endpoints| ==> names[i] == endpoints[i].0
  {
    seq(|endpoints|, i requires 0 <= i < |endpoints| => endpoints[i].0)
  }

  /** `_check_hasalready`: whether some registered entry already uses `name`. */
  function HasAlready(endpoints: seq<Endpoint>, name: string): (b: bool)
    ensures b <==> exists i :: 0 <= i < |endpoints| && endpoints[i].0 == name
  {
    name in EndpointNames(endpoints)
  }

  ghost predicate NamesDistinct(endpoints: seq<Endpoint>) {
    forall i, j :: 0 <= i < j < |endpoints| ==> endpoints[i].0 != endpoints[j].0
  }

  /** Appending an entry under a new name keeps the names distinct. */
  lemma AppendNewNameKeepsDistinct(endpoints: seq<Endpoint>, e: Endpoint)
    requires NamesDistinct(endpoints) && !HasAlready(endpoints, e.0)
    ensures NamesDistinct(endpoints + [e])
  {
    var es := endpoints + [e];
    forall i, j | 0 <= i < j < |es|
      ensures es[i].0 != es[j].0
    {
      if j == |endpoints| {
        assert es[i] == endpoints[i];
      }
    }
  }

  /** `Base_Rest_Connection`: the connection it serves and the registered endpoints. */
  class BaseRestConnection {
    const conn: BaseConnection
    var allEndpoints: seq<Endpoint>

    /** No two registered endpoints share a name. */
    ghost predicate Valid()
      reads this
    {
      NamesDistinct(allEndpoints)
    }

    constructor (conn: BaseConnection)
      ensures Valid()
      ensures this.conn == conn && allEndpoints == []
    {
      this.conn := conn;
      allEndpoints := [];
    }

    /** `add_endpoint(endpoint)(func)`: `called` is what `func(self.conn)` gave.
        An exception from it propagates; a name already registered raises
        EndpointExistsException; a class that does not extend `Resource` directly raises
        TypeError; otherwise `(endpoint, class)` is appended and `func` is returned.
        Nothing is recorded when an exception is raised. */
    method AddEndpoint<F>(endpoint: string, func: F, called: Result<PyClass>) returns (r: Result<F>)
      requires Valid()
      modifies this
      ensures Valid()
      ensures r.Err? ==> allEndpoints == old(allEndpoints)
      ensures called.Err? ==> r == Err(called.error)
      ensures called.Ok? && HasAlready(old(allEndpoints), endpoint) ==>
        r == Err(EndpointExistsException("Endpoint " + endpoint + " already exists"))
      ensures called.Ok? && !HasAlready(old(allEndpoints), endpoint) && !ExtendsResource(called.value) ==>
        r == Err(TypeError(NotAResource))
      ensures called.Ok? && !HasAlready(old(allEndpoints), endpoint) && ExtendsResource(called.value) ==>
        r == Ok(func) && allEndpoints == old(allEndpoints) + [(endpoint, called.value)]
    {
      if called.Err? {
        return Err(called.error);
      }
      var ret := called.value;
      var add := (endpoint, ret);
      if HasAlready(allEndpoints, add.0) {
        return Err(EndpointExistsException("Endpoint " + add.0 + " already exists"));
      }
      if !ExtendsResource(ret) {
        return Err(TypeError(NotAResource));
      }
      AppendNewNameKeepsDistinct(allEndpoints, add);
      allEndpoints := allEndpoints + [add];
      r := Ok(func);
    }
  }
}
