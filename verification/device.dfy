/** The device assignment table, updated in place. */
module Device {
  import opened Basics
  import M = DeviceModel

  ghost predicate Enacted(before: M.State, after: M.State, spec: Result<M.State, M.Error>, refused: Option<M.Error>) {
    match spec
    case Success(s) => refused == None && after == s
    case Failure(e) => refused == Some(e) && after == before
  }

  class System {
    var holders: seq<Option<nat>>
    const numDomains: nat

    function Abs(): M.State
      reads this
    {
      M.State(holders, numDomains)
    }

    constructor (numDomains: nat, numDevices: nat)
      ensures Abs() == M.New(numDomains, numDevices)
    {
      this.numDomains := numDomains;
      holders := seq(numDevices, _ => None);
    }

    method Assign(dev: nat, to: nat) returns (refused: Option<M.Error>)
      modifies this
      ensures Enacted(old(Abs()), Abs(), M.Assign(old(Abs()), dev, to), refused)
    {
      if to >= numDomains {
        return Some(M.BadDomain);
      }
      if dev >= |holders| {
        return Some(M.BadDevice);
      }
      match holders[dev]
      case None =>
        holders := holders[dev := Some(to)];
        return None;
      case Some(h) =>
        return if h == to then None else Some(M.Busy);
    }

    method Release(dev: nat, from: nat) returns (refused: Option<M.Error>)
      modifies this
      ensures Enacted(old(Abs()), Abs(), M.Release(old(Abs()), dev, from), refused)
    {
      if from >= numDomains {
        return Some(M.BadDomain);
      }
      if dev >= |holders| {
        return Some(M.BadDevice);
      }
      if holders[dev] != Some(from) {
        return Some(M.NotAssigned);
      }
      holders := holders[dev := None];
      return None;
    }

    method ReleaseAllOf(holder: nat)
      modifies this
      ensures Abs() == M.ReleaseAllOf(old(Abs()), holder)
    {
      for i := 0 to |holders|
        invariant |holders| == |old(holders)|
        invariant forall j | 0 <= j < |holders| ::
                    holders[j] == if j < i && old(holders)[j] == Some(holder) then None else old(holders)[j]
      {
        if holders[i] == Some(holder) {
          holders := holders[i := None];
        }
      }
    }
  }
}
