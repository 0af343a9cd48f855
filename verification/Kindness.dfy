/** internal/kindness/kindness.go: the presets. */
module Kindness {

  datatype Level = Ghost | Polite | Balanced | Full

  /** Shares and per-reference-tick rates are reals in [0, 1]. */
  datatype Preset = Preset(ceiling: real, fall: real, rise: real, waitsForIdle: bool)

  const GHOST_CEILING: real := 0.52

  function Table(l: Level): Preset {
    match l
    case Ghost => Preset(GHOST_CEILING, 0.62, 0.010, true)
    case Polite => Preset(0.78, 0.45, 0.020, true)
    case Balanced => Preset(0.90, 0.30, 0.038, true)
    case Full => Preset(1.00, 0.15, 0.075, false)
  }

  /** What the controller needs of a preset: it gives CPU back faster than it takes it,
      without jumping, and never holds more than the machine. */
  predicate Kind(p: Preset) {
    0.0 < p.rise < p.fall < 1.0 && GHOST_CEILING <= p.ceiling <= 1.0
  }

  /** The preset for a stored name: "greedy" is the old name of "full", and a name
      nobody knows gets the default. */
  function Get(name: string): (p: Preset)
    ensures Kind(p)
    ensures exists l :: p == Table(l)
  {
    Table(
      if name == "ghost" then Ghost
      else if name == "balanced" then Balanced
      else if name == "full" || name == "greedy" then Full
      else Polite)
  }

  /** From Ghost to Full each preset lets mining and everything else take more of the machine
      together, falls slower and rises faster; all but Full wait for the user to be away. */
  lemma FromGhostToFull()
    ensures var g, p, b, f := Get("ghost"), Get("polite"), Get("balanced"), Get("full");
            && g.ceiling == 0.52 && p.ceiling == 0.78 && b.ceiling == 0.90 && f.ceiling == 1.00
            && g.fall > p.fall > b.fall > f.fall > f.rise > b.rise > p.rise > g.rise > 0.0
            && g.waitsForIdle && p.waitsForIdle && b.waitsForIdle && !f.waitsForIdle
  {
    NamesDiffer();
  }

  lemma NamesDiffer()
    ensures "ghost" != "polite" && "ghost" != "balanced" && "ghost" != "full" && "ghost" != "greedy"
    ensures "polite" != "balanced" && "polite" != "full" && "polite" != "greedy"
    ensures "balanced" != "full" && "balanced" != "greedy" && "full" != "greedy"
  {
    assert "ghost"[0] == 'g' && "polite"[0] == 'p' && "balanced"[0] == 'b' && "full"[0] == 'f';
    assert "ghost"[1] == 'h' && "greedy"[1] == 'r' && "greedy"[0] == 'g';
  }

  /** The old name means Full, and a name nobody knows means Polite. */
  lemma OtherNames(name: string)
    ensures Get("greedy") == Get("full")
    ensures name != "ghost" && name != "balanced" && name != "full" && name != "greedy" ==> Get(name) == Get("polite")
  {
    NamesDiffer();
  }
}
