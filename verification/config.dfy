/** The fixed configuration block of slussen.py. */
module Config {

  /** The two site ids whose departures and deviations are fetched. */
  const SITES: seq<string> := ["9192", "1321"]

  /** The allow-list of monitored bus lines. */
  const LINES: set<string> := {
    "401", "402", "409", "410", "413", "414", "420", "422", "425",
    "428X", "429X", "430X",
    "432", "433", "434", "435", "436", "437", "438", "439", "440",
    "441", "442", "443", "444", "445",
    "471", "474", "491", "496", "497",
    "25M", "26M", "423", "449", "71T"
  }

  /** Lines whose stop label is always replaced by "Glasbruksgatan". */
  const LINES_GLASBRUKSGATAN: set<string> := {"25M", "26M", "423", "449"}

  /** Lines whose stop label gets the suffix " (Slussbrogatan)". */
  const LINES_SLUSSBROGATAN: set<string> := {"71T"}

  /** A deviation is shown only when its priority score is strictly above this. */
  const PRIORITY_THRESHOLD: int := 35

  /** Both rewrite sets are monitored lines, and no line is in both. */
  lemma SpecialLinesAreMonitoredAndDisjoint()
    ensures LINES_GLASBRUKSGATAN <= LINES
    ensures LINES_SLUSSBROGATAN <= LINES
    ensures LINES_GLASBRUKSGATAN !! LINES_SLUSSBROGATAN
  {
  }
}
