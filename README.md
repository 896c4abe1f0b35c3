# pronto-rubocop: offense to review message

pronto-rubocop is the Pronto plugin that runs RuboCop on the lines a patch
changes. For each RuboCop offense paired with one changed line, its
`OffenseLine#message` builds the review message that Pronto reports. This
project is a Dafny model of that conversion, with proofs of what it promises:

- the message's file path is the path of the patch's new file, and the line
  is the changed line itself, commit reference included;
- if the changed line lies within the offense's range `first_line..last_line`,
  the message text is the offense's own text. Otherwise the text opens with
  `Offense generated for line <first_line>:`. That opening names the
  offense's first line and no other line number;
- the level comes from the `'severities'` override of the plugin
  configuration when that override has an entry for the offense's severity.
  Otherwise it comes from the default table: refactor, convention and warning
  give warning, error gives error, fatal gives fatal.

Files:

- `decimal.dfy` (module `Decimal`) writes a line number in decimal, as Ruby's
  string interpolation does. It also proves that the text can be read back,
  so distinct line numbers give distinct announcements.
- `offense_line.dfy` (module `OffenseLine`) holds the data shapes, the
  conversion `Message`, its parts (`MessageText`, `DefaultLevel`,
  `ResolveLevel`), the lemmas about them, and the examples that pin the
  behaviour down.

The repository's implementation file is not part of this model. Only its
RSpec examples are, so the behaviour is modelled on what those examples
assert. Where the examples leave a choice open, the model makes these
assumptions of its own:

- Direct attribution is modelled as `first_line <= new_lineno <= last_line`.
  The examples (42 within 42..43, 42 outside 40..41) would also fit a
  comparison with `first_line` alone.
- The indirect text is modelled as the announcement, a newline, then the
  offense's text. The examples assert only that the text contains the
  announcement. Three contracts rest on the assumed rest of the text:
  `MessageText` (the text is longer than the offense's text and ends with
  it), `Message` (the text equals the offense's text only when the range
  covers the changed line; this needs the indirect text to differ from the
  offense's text) and `MessageEndsWithText`.
- `Level` also has `InfoLevel`, Pronto's fourth level. Only an override can
  produce it, and the lemmas show that the defaults never do.

## Model

| member | source | states |
|---|---|---|
| `OffenseLine.Message` | spec/pronto/rubocop/offense_line_spec.rb:28-33 | the path is the new file's path; the line is the changed line unchanged; the text equals the offense's text exactly when the changed line is inside the offense's range (the "only when" half rests on the assumed indirect wording); the level is the resolved level of the offense's severity |
| `OffenseLine.MessageText` | spec/pronto/rubocop/offense_line_spec.rb:73-78 | inside the range the text is the offense's own text; outside it the text opens with the announcement of the first line, is longer than the offense's text and ends with it (these last two rest on the assumed wording, not on lines 73-78) |
| `OffenseLine.DefaultLevel` | spec/pronto/rubocop/offense_line_spec.rb:36-42 | the default table never gives the `info` level |
| `OffenseLine.ResolveLevel` | spec/pronto/rubocop/offense_line_spec.rb:54-70 | a configured override for the severity takes precedence; without one (no `'severities'` entry, or no key for the severity) the default table decides |
| `OffenseLine.IndirectNamesFirstLineOnly` | spec/pronto/rubocop/offense_line_spec.rb:73-78 | for an offense outside the changed line, the message opens with "Offense generated for line n:" if and only if n is the offense's first line |
| `OffenseLine.DirectKeepsText` | spec/pronto/rubocop/offense_line_spec.rb:14-19 | an offense whose range holds the changed line keeps its text verbatim, whatever the configuration |
| `OffenseLine.MessageEndsWithText` | spec/pronto/rubocop/offense_line_spec.rb:73-78 | the offense's text ends every message made from it, direct or indirect; for the indirect case this rests on the assumed wording (announcement, newline, offense text), not on anything lines 76-77 assert |
| `OffenseLine.AttributionChangesTextOnly` | spec/pronto/rubocop/offense_line_spec.rb:73-74 | changing only the offense's range changes neither the path, nor the line, nor the level of the message |
| `OffenseLine.NoOverrideUsesDefaults` | spec/pronto/rubocop/offense_line_spec.rb:35-51 | with no `'severities'` entry or an empty one, the level is the default for the severity, and never `info` |
| `OffenseLine.DefaultLevelMonotone` | spec/pronto/rubocop/offense_line_spec.rb:36-42 | a higher RuboCop severity never gets a lower default level |
| `OffenseLine.DefaultLevelOnto` | spec/pronto/rubocop/offense_line_spec.rb:36-42 | a fact about the default table itself, not a promise of the code: each of warning, error and fatal appears in it as the level of some severity |
| `OffenseLine.Uniform` | spec/pronto/rubocop/offense_line_spec.rb:55-60 | the override built from every severity name maps every severity to the given level |
| `OffenseLine.NamesInRankOrder` | spec/pronto/rubocop/offense_line_spec.rb:58-62 | the list of severity names has five entries, holds every severity, and lists them lowest to highest |
| `OffenseLine.UniformOverrideWins` | spec/pronto/rubocop/offense_line_spec.rb:54-70 | when every severity name is overridden to one level, every offense is reported at that level, whatever its default |
| `OffenseLine.OverrideIsLocal` | spec/pronto/rubocop/offense_line_spec.rb:55-60 | adding an override for one severity leaves the level of every other severity as it was |
| `OffenseLine.DirectExample` | spec/pronto/rubocop/offense_line_spec.rb:11-51 | with an empty configuration, "Fake message" at lines 42..43 seen from line 42 of example.rb gives path example.rb, that line, text "Fake message", and the expected level for each of the five severities |
| `OffenseLine.OverriddenToFatalExample` | spec/pronto/rubocop/offense_line_spec.rb:54-70 | with every severity overridden to fatal, the example offense is fatal for every severity |
| `OffenseLine.IndirectExample` | spec/pronto/rubocop/offense_line_spec.rb:73-78 | the offense at lines 40..41 seen from line 42 opens with "Offense generated for line 40:", and not with the same words for line 41 or line 42 |
| `Decimal.Show` | spec/pronto/rubocop/offense_line_spec.rb:77 | the decimal text of a line number is non-empty, all digits, has no leading zero, and is one digit long exactly for numbers below ten |
| `Decimal.ValueOfShow` | spec/pronto/rubocop/offense_line_spec.rb:77 | reading the decimal text back gives the number |
| `Decimal.ShowInjective` | spec/pronto/rubocop/offense_line_spec.rb:77 | two numbers have the same decimal text exactly when they are equal |
| `Decimal.DelimitedDigitsUnique` | spec/pronto/rubocop/offense_line_spec.rb:77 | a digit string followed by a non-digit delimiter at the start of a text can be read in only one way |

## Left out

- The plugin host: the Pronto runner, `PatchCop`, loading of the plugin configuration and running RuboCop. The model takes the configuration as a parameter (`Config`) and takes the offense as a value.
- Pronto's and Rugged's diff objects. A changed line is reduced to the new file's path, `new_lineno` and `commit_sha`. The commit reference is carried with the line and read by nothing else.
- Severity names other than RuboCop's five, and override values that are not Pronto levels. `Severity` and `Level` are closed enumerations, so the overrides are `map<Severity, Level>`. Converting configured strings such as `'fatal'` to the `:fatal` symbol is not modelled.
- Line numbers: the offense's first and last lines are natural numbers, because RuboCop's lines start at 1. The changed line's number is an integer. Minus signs are never written.
- Object identity: the message's line is equal to the input line as a value. Ruby's same-object identity is not modelled.
- Repeated calls on one `OffenseLine` give equal results because `Message` is a function. No lemma states this separately.
