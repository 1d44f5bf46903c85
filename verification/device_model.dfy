/** Which domain, if any, each device is assigned to. */
module DeviceModel {
  import opened Basics

  datatype Error = BadDevice | BadDomain | Busy | NotAssigned

  datatype State = State(holders: seq<Option<nat>>, numDomains: nat)

  function New(domains: nat, devices: nat): State {
    State(seq(devices, _ => None), domains)
  }

  function Assign(s: State, dev: nat, to: nat): Result<State, Error> {
    if to >= s.numDomains then Failure(BadDomain)
    else if dev >= |s.holders| then Failure(BadDevice)
    else if s.holders[dev] == None then Success(s.(holders := s.holders[dev := Some(to)]))
    else if s.holders[dev] == Some(to) then Success(s)
    else Failure(Busy)
  }

  function Release(s: State, dev: nat, from: nat): Result<State, Error> {
    if from >= s.numDomains then Failure(BadDomain)
    else if dev >= |s.holders| then Failure(BadDevice)
    else if s.holders[dev] != Some(from) then Failure(NotAssigned)
    else Success(s.(holders := s.holders[dev := None]))
  }

  function ReleaseAllOf(s: State, holder: nat): State {
    s.(holders := seq(|s.holders|, i requires 0 <= i < |s.holders| =>
         if s.holders[i] == Some(holder) then None else s.holders[i]))
  }

  predicate Holds(s: State, d: nat) {
    Some(d) in s.holders
  }

  /** An assignment is accepted for a real device and domain exactly when nobody else holds the
      device, it makes the domain its one holder, and a release then returns the device to nobody. */
  lemma AssignExact(s: State, dev: nat, to: nat)
    requires to < s.numDomains && dev < |s.holders|
    ensures Assign(s, dev, to).Success? <==> s.holders[dev] == None || s.holders[dev] == Some(to)
    ensures Assign(s, dev, to).Success? ==>
              && Assign(s, dev, to).value.holders == s.holders[dev := Some(to)]
              && Release(Assign(s, dev, to).value, dev, to) == Success(s.(holders := s.holders[dev := None]))
  {
    if Assign(s, dev, to).Success? {
      var s' := Assign(s, dev, to).value;
      assert s'.holders == s.holders[dev := Some(to)];
      assert s'.holders[dev := None] == s.holders[dev := None];
    }
  }
}
