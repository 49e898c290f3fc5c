/** The session-wide record of how far seed recovery has come and which
    structure seeds it has confirmed. */
module Storage {
  import opened JavaTypes

  /** Recovery milestones, in order. */
  datatype Phase = Structures | Biomes
  {
    function Rank(): nat
    {
      match this
      case Structures => 0
      case Biomes => 1
    }
  }

  function MaxPhase(a: Phase, b: Phase): (r: Phase)
    ensures r == a || r == b
    ensures r.Rank() >= a.Rank() && r.Rank() >= b.Rank()
  {
    if b.Rank() > a.Rank() then b else a
  }

  /** `TimeMachine`. `structureSeeds` is null (None) until a search has run,
      and a list, possibly empty, afterwards. `pokes` records every phase
      handed to `Poke`, in order. */
  class TimeMachine {
    var phase: Phase
    var structureSeeds: Option<seq<Int64>>
    ghost var pokes: seq<Phase>

    constructor ()
      ensures phase == Structures && structureSeeds == None && pokes == []
    {
      phase := Structures;
      structureSeeds := None;
      pokes := [];
    }

    /** Records that `p` has been reached; the phase never goes back. */
    method Poke(p: Phase)
      modifies this
      ensures phase == MaxPhase(old(phase), p)
      ensures pokes == old(pokes) + [p]
      ensures structureSeeds == old(structureSeeds)
    {
      phase := MaxPhase(phase, p);
      pokes := pokes + [p];
    }
  }
}
