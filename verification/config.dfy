/** The game's settings (src/config.py). The source keeps them in a global dictionary
    that `setup_rings` writes `spacing` into; here they are an immutable value passed to
    the operations that read them, and the ring spacing is a field of the game. */
module Settings {

  datatype Config = Config(
    width: real,
    height: real,
    rings: nat,
    rotation: real,
    ballSpeed: real,
    offset: real,
    grow: bool,
    growSize: real,
    thickness: real,
    gapSize: real,
    gravity: real)

  const Defaults: Config := Config(720.0, 1280.0, 25, 1.5, 500.0, 0.1, true, 0.005, 2.0, 0.75, 0.0)

  /** `max_ring_radius`: 45% of the window's shorter side. */
  function MaxRingRadius(cfg: Config): real {
    (if cfg.width <= cfg.height then cfg.width else cfg.height) * 0.45
  }

  /** With the shipped settings the outermost ring reaches 324 pixels, and the rings are
      spaced 274/25 apart, a positive spacing. */
  lemma DefaultsLayout()
    ensures MaxRingRadius(Defaults) == 324.0
    ensures (MaxRingRadius(Defaults) - 50.0) / (Defaults.rings as real) == 10.96
  {
  }
}
