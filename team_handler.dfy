/**
 * Record shapes of the front-end's team feed (TeamHandler.ts): a team with
 * its services as a JSON object, here an association list in key order.
 */
module TeamHandler {
  import opened Wrappers

  datatype ServiceData = ServiceData(points: int, isUp: bool, successfulChecks: int, totalChecks: int)

  /** One key of a team's Services object with its value. */
  datatype ServiceEntry = ServiceEntry(name: string, data: ServiceData)

  datatype Team = Team(id: int, name: string, color: string, services: seq<ServiceEntry>)

  /** Object.keys: the service names in key order. */
  function Keys(services: seq<ServiceEntry>): (ks: seq<string>)
    ensures |ks| == |services|
    ensures forall i :: 0 <= i < |ks| ==> ks[i] == services[i].name
  {
    seq(|services|, i requires 0 <= i < |services| => services[i].name)
  }

  /** services[name], or None (JavaScript's undefined) when there is no such key. */
  function Lookup(services: seq<ServiceEntry>, name: string): (r: Option<ServiceData>)
    ensures r.None? <==> forall i :: 0 <= i < |services| ==> services[i].name != name
    ensures r.Some? ==> exists i :: 0 <= i < |services| && services[i] == ServiceEntry(name, r.value)
  {
    if services == [] then None
    else if services[0].name == name then Some(services[0].data)
    else
      var r := Lookup(services[1..], name);
      assert r.Some? ==> exists i :: 0 <= i < |services[1..]| && services[1..][i] == ServiceEntry(name, r.value);
      assert forall i :: 1 <= i < |services| ==> services[i] == services[1..][i - 1];
      r
  }
}
