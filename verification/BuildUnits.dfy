/** The records that `cargo --timings` reports and both timing analyses read
    (scripts/rust-timings.ts). Times are exact reals. */
module BuildUnits {

  /** A named compilation phase, in seconds relative to the start of its unit. */
  datatype Section = Section(name: string, start: real, end: real)

  datatype BuildUnit = BuildUnit(
    i: int,
    name: string,
    start: real,
    duration: real,
    unblockedUnits: seq<int>,
    unblockedRmetaUnits: seq<int>,
    sections: seq<Section>)
  {
    function End(): real {
      start + duration
    }
  }

  /** Cargo reports no negative times. */
  predicate ValidUnits(units: seq<BuildUnit>) {
    forall k :: 0 <= k < |units| ==> units[k].start >= 0.0 && units[k].duration >= 0.0
  }
}
