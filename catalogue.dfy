/** The service catalogue lookup shared by app.py (inline in
    `get_available_slots` and `book_appointment`) and streamlit_app.py
    (`get_service_by_name`): the first service whose English or Hebrew name
    equals the request's text. */
module Catalogue {
  import opened Wrappers

  datatype Service = Service(name: string, nameHe: string, price: int, duration: int)

  predicate Matches(s: Service, name: string) {
    s.name == name || s.nameHe == name
  }

  /** The first matching service, or `None` when no service matches. */
  function FindService(services: seq<Service>, name: string): (r: Option<Service>)
    ensures r.None? <==> forall i :: 0 <= i < |services| ==> !Matches(services[i], name)
    ensures r.Some? ==> exists i :: 0 <= i < |services| && services[i] == r.value
                                   && Matches(r.value, name)
                                   && forall j :: 0 <= j < i ==> !Matches(services[j], name)
    decreases |services|
  {
    if services == [] then None
    else if Matches(services[0], name) then Some(services[0])
    else
      var r := FindService(services[1..], name);
      assert r.None? ==> forall i :: 0 <= i < |services| ==> !Matches(services[i], name) by {
        if r.None? {
          forall i | 0 <= i < |services| ensures !Matches(services[i], name) {
            if i > 0 { assert services[i] == services[1..][i - 1]; }
          }
        }
      }
      assert r.Some? ==> exists i :: 0 <= i < |services| && services[i] == r.value
                                     && Matches(r.value, name)
                                     && forall j :: 0 <= j < i ==> !Matches(services[j], name) by {
        if r.Some? {
          var i :| 0 <= i < |services| - 1 && services[1..][i] == r.value && Matches(r.value, name)
                   && forall j :: 0 <= j < i ==> !Matches(services[1..][j], name);
          assert services[i + 1] == r.value;
          forall j | 0 <= j < i + 1 ensures !Matches(services[j], name) {
            if j > 0 { assert services[j] == services[1..][j - 1]; }
          }
        }
      }
      r
  }

  /** The loop with an early return over the catalogue. */
  method LookupService(services: seq<Service>, name: string) returns (r: Option<Service>)
    ensures r == FindService(services, name)
  {
    for i := 0 to |services|
      invariant FindService(services, name) == FindService(services[i..], name)
    {
      assert services[i..][1..] == services[i + 1..];
      if services[i].name == name || services[i].nameHe == name {
        return Some(services[i]);
      }
    }
    return None;
  }
}
