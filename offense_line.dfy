/** Conversion of one RuboCop offense, paired with one changed line of a
    diff, into the review message Pronto reports (`OffenseLine#message`).
    RuboCop's offense, Pronto's changed line and the plugin configuration
    are reduced to the fields the conversion reads. */
module OffenseLine {
  import Decimal

  datatype Option<T> = None | Some(value: T)

  /** RuboCop's severity names, lowest to highest. */
  datatype Severity = Refactor | Convention | Warning | Error | Fatal

  /** Pronto's message levels. */
  datatype Level = InfoLevel | WarningLevel | ErrorLevel | FatalLevel

  /** `RuboCop::Cop::Severity::NAMES`, in RuboCop's order. */
  const Names: seq<Severity> := [Refactor, Convention, Warning, Error, Fatal]

  /** The source range an offense is reported at (1-based lines). */
  datatype Location = Location(firstLine: nat, lastLine: nat)

  datatype Offense = Offense(severity: Severity, message: string, location: Location)

  /** One changed line of a patch: the path of the new file of the patch's
      delta, the line number in the new file (Rugged gives -1 for a removed
      line), and the commit it belongs to. */
  datatype Line = Line(path: string, newLineno: int, commitSha: string)

  /** The plugin configuration: the optional `'severities'` entry mapping
      severity names to the level to report them at. */
  datatype Config = Config(severities: Option<map<Severity, Level>>)

  /** The review message handed back to Pronto. */
  datatype Msg = Msg(path: string, line: Line, msg: string, level: Level)

  /** Position of a severity in `Names`. */
  function Rank(s: Severity): nat {
    match s
    case Refactor => 0
    case Convention => 1
    case Warning => 2
    case Error => 3
    case Fatal => 4
  }

  function LevelRank(l: Level): nat {
    match l
    case InfoLevel => 0
    case WarningLevel => 1
    case ErrorLevel => 2
    case FatalLevel => 3
  }

  // ----- Line attribution -----

  /** The changed line lies within the offense's range: the offense is
      directly about the new code. */
  predicate Covers(loc: Location, lineno: int) {
    loc.firstLine <= lineno <= loc.lastLine
  }

  /** The sentence that opens the text of an offense that is only
      indirectly related to the changed line. */
  function Announcement(firstLine: nat): string {
    "Offense generated for line " + Decimal.Show(firstLine) + ":"
  }

  /** The text of the message: the offense's own text when it is about the
      changed line, otherwise that text announced by the line it was
      reported for. */
  function MessageText(offense: Offense, lineno: int): (s: string)
    ensures Covers(offense.location, lineno) ==> s == offense.message
    ensures !Covers(offense.location, lineno) ==>
              Announcement(offense.location.firstLine) <= s
              && |s| > |offense.message|
              && s[|s| - |offense.message|..] == offense.message
  {
    if Covers(offense.location, lineno) then offense.message
    else Announcement(offense.location.firstLine) + "\n" + offense.message
  }

  // ----- Severity levels -----

  /** Pronto's default level for each RuboCop severity. */
  function DefaultLevel(s: Severity): (l: Level)
    ensures l != InfoLevel
  {
    match s
    case Refactor => WarningLevel
    case Convention => WarningLevel
    case Warning => WarningLevel
    case Error => ErrorLevel
    case Fatal => FatalLevel
  }

  /** The level an offense of severity `s` is reported at: the configured
      override if there is one for `s`, the default otherwise. */
  function ResolveLevel(s: Severity, config: Config): (l: Level)
    ensures config.severities.Some? && s in config.severities.value ==>
              l == config.severities.value[s]
    ensures !(config.severities.Some? && s in config.severities.value) ==>
              l == DefaultLevel(s)
  {
    match config.severities
    case Some(overrides) => if s in overrides then overrides[s] else DefaultLevel(s)
    case None => DefaultLevel(s)
  }

  // ----- The conversion -----

  /** `OffenseLine#message` */
  function Message(config: Config, offense: Offense, line: Line): (r: Msg)
    ensures r.path == line.path
    ensures r.line == line
    ensures r.msg == offense.message <==> Covers(offense.location, line.newLineno)
    ensures r.level == ResolveLevel(offense.severity, config)
  {
    Msg(line.path, line, MessageText(offense, line.newLineno),
        ResolveLevel(offense.severity, config))
  }

  // ----- Properties -----

  /** An indirect message names the offense's first line and no other line:
      the announcement of line `n` opens it exactly when `n` is the first
      line of the offense's range. */
  lemma IndirectNamesFirstLineOnly(config: Config, offense: Offense, line: Line, n: nat)
    requires !Covers(offense.location, line.newLineno)
    ensures Announcement(n) <= Message(config, offense, line).msg
            <==> n == offense.location.firstLine
  {
    var s := Message(config, offense, line).msg;
    var prefix := "Offense generated for line ";
    var first := offense.location.firstLine;
    if Announcement(n) <= s {
      assert Announcement(first) <= s;
      var t := s[|prefix|..];
      assert Decimal.Show(n) + [':'] <= t by {
        assert Announcement(n) == prefix + (Decimal.Show(n) + [':']);
      }
      assert Decimal.Show(first) + [':'] <= t by {
        assert Announcement(first) == prefix + (Decimal.Show(first) + [':']);
      }
      Decimal.DelimitedDigitsUnique(Decimal.Show(n), Decimal.Show(first), ':', t);
      Decimal.ShowInjective(n, first);
    }
  }

  /** An offense reported for a range holding the changed line keeps its
      own text, whatever the configuration. */
  lemma DirectKeepsText(config: Config, offense: Offense, line: Line)
    requires Covers(offense.location, line.newLineno)
    ensures Message(config, offense, line).msg == offense.message
  {
  }

  /** The text of an offense ends every message reported for it. */
  lemma MessageEndsWithText(config: Config, offense: Offense, line: Line)
    ensures var s := Message(config, offense, line).msg;
            |offense.message| <= |s| && s[|s| - |offense.message|..] == offense.message
  {
  }

  /** Which line the message is attached to and what level it has do not
      depend on the offense's range, only its text does. */
  lemma AttributionChangesTextOnly(config: Config, offense: Offense, loc: Location, line: Line)
    ensures var a := Message(config, offense, line);
            var b := Message(config, offense.(location := loc), line);
            a.path == b.path && a.line == b.line && a.level == b.level
  {
  }

  /** Without a `'severities'` entry, or with an empty one, every severity
      is reported at its default level, which is never `info`. */
  lemma NoOverrideUsesDefaults(offense: Offense, line: Line)
    ensures Message(Config(None), offense, line).level == DefaultLevel(offense.severity)
    ensures Message(Config(Some(map[])), offense, line).level == DefaultLevel(offense.severity)
    ensures Message(Config(None), offense, line).level != InfoLevel
  {
  }

  /** The default table is monotone: a higher severity never gets a lower
      level. */
  lemma DefaultLevelMonotone(s: Severity, t: Severity)
    requires Rank(s) <= Rank(t)
    ensures LevelRank(DefaultLevel(s)) <= LevelRank(DefaultLevel(t))
  {
  }

  /** A fact about the default table: each of warning, error and fatal
      appears in it as the level of some severity. */
  lemma DefaultLevelOnto(l: Level)
    requires l != InfoLevel
    ensures exists s :: DefaultLevel(s) == l
  {
    match l
    case WarningLevel => assert DefaultLevel(Warning) == l;
    case ErrorLevel => assert DefaultLevel(Error) == l;
    case FatalLevel => assert DefaultLevel(Fatal) == l;
  }

  /** `NAMES.map { |name| [name, level] }.to_h` */
  function Uniform(level: Level): (m: map<Severity, Level>)
    ensures forall s :: s in m && m[s] == level
  {
    NamesInRankOrder();
    map s | s in Names :: level
  }

  /** `Names` lists every severity once, in rank order. */
  lemma NamesInRankOrder()
    ensures |Names| == 5
    ensures forall i :: 0 <= i < |Names| ==> Rank(Names[i]) == i
    ensures forall s :: s in Names
  {
    forall s ensures s in Names {
      assert Names[Rank(s)] == s;
    }
  }

  /** Overrides take precedence over the defaults: mapping every severity
      name to one level reports every offense at that level, also where
      the default would differ. */
  lemma UniformOverrideWins(level: Level, offense: Offense, line: Line)
    ensures Message(Config(Some(Uniform(level))), offense, line).level == level
  {
  }

  /** An override for one severity leaves the level of every other
      severity as it was. */
  lemma OverrideIsLocal(config: Config, s: Severity, l: Level, t: Severity)
    requires s != t
    ensures var m := match config.severities case Some(m) => m case None => map[];
            ResolveLevel(t, Config(Some(m[s := l]))) == ResolveLevel(t, config)
  {
  }

  // ----- The examples the behaviour is pinned down by -----

  /** The offense of the examples: "Fake message" reported at lines 42 to 43. */
  function FakeOffense(severity: Severity, loc: Location): Offense {
    Offense(severity, "Fake message", loc)
  }

  /** The changed line of the examples: line 42 of example.rb in commit af42. */
  const ExampleLine: Line := Line("example.rb", 42, "af42")

  /** The expected default levels, severity by severity. */
  const DefaultLevelHash: seq<(Severity, Level)> :=
    [(Refactor, WarningLevel), (Convention, WarningLevel), (Warning, WarningLevel),
     (Error, ErrorLevel), (Fatal, FatalLevel)]

  /** With an empty configuration, an offense at lines 42 to 43 seen from
      line 42 of example.rb keeps its text, is attached to that line and file,
      and has the level the table of expected defaults gives its severity. */
  lemma DirectExample(i: nat)
    requires i < |DefaultLevelHash|
    ensures var m := Message(Config(None), FakeOffense(DefaultLevelHash[i].0, Location(42, 43)), ExampleLine);
            m.path == "example.rb" && m.line == ExampleLine && m.msg == "Fake message"
            && m.level == DefaultLevelHash[i].1
  {
  }

  /** Whatever its severity, an offense is reported as fatal when every
      severity name is configured as fatal. */
  lemma OverriddenToFatalExample(severity: Severity)
    ensures Message(Config(Some(Uniform(FatalLevel))), FakeOffense(severity, Location(42, 43)), ExampleLine).level
            == FatalLevel
  {
  }

  /** An offense at lines 40 to 41 seen from line 42 announces line 40, and
      neither line 41 nor line 42. */
  lemma IndirectExample()
    ensures var m := Message(Config(None), FakeOffense(Refactor, Location(40, 41)), ExampleLine);
            && "Offense generated for line 40:" <= m.msg
            && !("Offense generated for line 41:" <= m.msg)
            && !("Offense generated for line 42:" <= m.msg)
  {
    var offense := FakeOffense(Refactor, Location(40, 41));
    assert Decimal.Show(40) == "40";
    assert Decimal.Show(41) == "41";
    assert Decimal.Show(42) == "42";
    IndirectNamesFirstLineOnly(Config(None), offense, ExampleLine, 41);
    IndirectNamesFirstLineOnly(Config(None), offense, ExampleLine, 42);
  }
}
