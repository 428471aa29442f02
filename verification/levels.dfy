/** The severity taxonomy: the `LEVELS` table of five level names, each bound
    to an integer rank used for filtering. */
module Levels {
  import opened Results
  import Text

  datatype Level = Debug | Info | Warning | Error | Critical

  /** The `LEVELS` dictionary of `logstyle`. */
  const LEVELS: map<string, nat> :=
    map["debug" := 0, "info" := 1, "warning" := 2, "error" := 3, "critical" := 4]

  /** The level's key in `LEVELS`; also the name of the logging method that
      records at that level and of the level's style in each registry bucket. */
  function Name(l: Level): string {
    match l
    case Debug => "debug"
    case Info => "info"
    case Warning => "warning"
    case Error => "error"
    case Critical => "critical"
  }

  /** `LEVELS[l]`: the rank used to compare two levels. */
  function Rank(l: Level): (r: nat)
    ensures Name(l) in LEVELS && r == LEVELS[Name(l)]
  {
    match l
    case Debug => 0
    case Info => 1
    case Warning => 2
    case Error => 3
    case Critical => 4
  }

  /** Looks a level name up in `LEVELS`; a name that is not a key fails the
      way `LEVELS[name]` raises KeyError. */
  function ParseLevel(s: string): (r: Option<Level>)
    ensures r.Some? <==> s in LEVELS
    ensures r.Some? ==> Name(r.value) == s && Rank(r.value) == LEVELS[s]
  {
    if s == "debug" then Some(Debug)
    else if s == "info" then Some(Info)
    else if s == "warning" then Some(Warning)
    else if s == "error" then Some(Error)
    else if s == "critical" then Some(Critical)
    else None
  }

  /** Every level's name reads back as that level. */
  lemma NameRoundTrip(l: Level)
    ensures ParseLevel(Name(l)) == Some(l)
  {
  }

  /** Rank is a total order that separates the levels and starts at debug. */
  lemma RankTotalOrder(a: Level, b: Level)
    ensures Rank(a) == Rank(b) <==> a == b
    ensures Rank(a) < Rank(b) || a == b || Rank(b) < Rank(a)
    ensures Rank(Debug) == 0 && Rank(Critical) == 4
  {
  }

  /** `level.upper()`: the tag written into a report line. */
  function Label(l: Level): string {
    Text.Upper(Name(l))
  }
}
