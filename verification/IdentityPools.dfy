/** The identity pool object: hands out the current identity, rotates in place. */
module IdentityPools {
  import opened Identities

  class IdentityPool {
    const profiles: seq<BrowserProfile>
    var index: nat
    var generation: nat
    var current: Identity

    function View(): IdentityState
      reads this
    {
      IdentityState(index, generation)
    }

    /** The identity handed out is always the one the index and the generation stand for. */
    ghost predicate Valid()
      reads this
    {
      index < |profiles| && current == Build(profiles, View())
    }

    /** The source raises an error for an empty catalogue. */
    constructor (profiles: seq<BrowserProfile>)
      requires profiles != []
      ensures Valid() && this.profiles == profiles && View() == FIRST
    {
      this.profiles := profiles;
      index, generation := 0, 0;
      current := Build(profiles, FIRST);
    }

    method Rotate() returns (identity: Identity)
      requires Valid()
      modifies this
      ensures Valid() && View() == Identities.Rotate(profiles, old(View())) && identity == current
    {
      index := (index + 1) % |profiles|;
      generation := generation + 1;
      current := Build(profiles, IdentityState(index, generation));
      identity := current;
    }
  }
}
