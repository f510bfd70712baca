# Discovery ruleset assembler

This project models `pkg/conversion/rules.go`, the part of the analyzer-rule
converter that produces the built-in *discovery* rules. The file holds three
YAML rule corpora as Go raw-string constants: `license_rules`, `java_rules` and
`java_ee_rules`. It has two functions:

- `GetDiscoveryRules` trims the newlines off both ends of each corpus with
  `strings.Trim(s, "\n")`. It appends the results to a slice in the order
  license, Java, Java EE, and joins the slice with `strings.Join(rules, "\n")`.
- `GetDiscoveryRuleset` returns a constant ruleset header, named
  `discovery-rules` with the single label `discovery`. Unlike the corpora, it
  is returned untrimmed.

The project has two modules:

- `GoStrings` (`go_strings.dfy`) models the three Go `strings` operations the
  assembler depends on, specialised to the one-character text `"\n"`:
  - `TrimNL` is `strings.Trim` on a single-ASCII-byte cutset: the right end is
    trimmed first, then the left.
  - `JoinNL` is `strings.Join`.
  - `SplitNL` is `strings.Split`. The assembler never calls Split; it is here
    as Join's inverse and gives the "list of lines" view of a text.

  Each operation has an independent reference characterisation and lemmas
  that connect the two. For Trim, the slice between the runs of newlines
  (`TrimmedAt`). For Join, the offset of each element. For Split, Join.
- `Discovery` (`rules.dfy`) models the file itself:
  - The three corpus constants. Each is written as its first line, its middle
    lines and its last line, laid out exactly as the Go raw string is (a
    newline, the three parts separated by newlines, a newline). The text is
    the Go text character for character.
  - `AssembleRules` and `GetDiscoveryRules` are methods that follow the Go
    statements: an empty slice, three appends, one join. Their result is tied
    to the specification function `Assemble`.
  - `GetDiscoveryRuleset`.

  Lemmas establish the following about the assembled text:
  - It is the three trimmed corpora in order, separated by single newlines,
    and two characters longer than they are together.
  - It neither starts nor ends with a newline.
  - It begins with the `discover-license` rule line and ends with the last
    `pattern:` line of the Java EE corpus.
  - At each corpus boundary it reads `<last character of the previous
    corpus>\n- ruleID:`, with one newline: no blank line and no missing line
    break.

The rule texts are data here. Nothing in the model parses or evaluates YAML.

Two facts about the code that the model keeps:

- Only newline characters are trimmed from the ends of a corpus. Spaces, tabs
  and carriage returns at the ends would be kept.
- Assembly cannot fail. `GetDiscoveryRules` returns a string and performs no
  check for duplicate rule IDs.

## Model

| member | source | states |
|---|---|---|
| GoStrings.TrimLeftNL | pkg/conversion/rules.go:200-202 | the left half of `strings.Trim(s, "\n")`: the result is no longer than `s` and does not start with a newline |
| GoStrings.TrimLeftNLDropsNewlines | pkg/conversion/rules.go:200-202 | what the left trim keeps is a suffix of `s`, and every character it drops is a newline |
| GoStrings.TrimRightNL | pkg/conversion/rules.go:200-202 | the right half of `strings.Trim(s, "\n")`: the result is no longer than `s` and does not end with a newline |
| GoStrings.TrimRightNLDropsNewlines | pkg/conversion/rules.go:200-202 | what the right trim keeps is a prefix of `s`, and every character it drops is a newline |
| GoStrings.TrimLeftStopsAt | pkg/conversion/rules.go:200-202 | the left trim stops at the first character that is not a newline: with only newlines before `i` and a non-newline at `i`, it returns `s[i..]` |
| GoStrings.TrimRightStopsAt | pkg/conversion/rules.go:200-202 | the right trim stops after the last character that is not a newline: with only newlines from `j` on and a non-newline at `j - 1`, it returns `s[..j]` |
| GoStrings.TrimNL | pkg/conversion/rules.go:200-202 | a trimmed corpus is no longer than the corpus, and unless empty it neither starts nor ends with a newline |
| GoStrings.TrimIsTheSlice | pkg/conversion/rules.go:200-202 | for every slice `s[i..j]` bounded by runs of newlines (`TrimmedAt`), Trim returns exactly that slice: only newlines at the two ends are removed, interior newlines stay |
| GoStrings.TrimSliceExists | pkg/conversion/rules.go:200-202 | Trim's result always is such a contiguous slice of its input |
| GoStrings.TrimFixedPoint | pkg/conversion/rules.go:200-202 | Trim leaves a text unchanged if and only if the text is empty or neither starts nor ends with a newline |
| GoStrings.TrimIdempotent | pkg/conversion/rules.go:200-202 | trimming twice is the same as trimming once |
| GoStrings.JoinNL | pkg/conversion/rules.go:203 | `strings.Join(rules, "\n")`: no element gives "", and with two or more elements the first element is followed by exactly one newline; with JoinLength, JoinPartAt and JoinLastEnds this fixes every character of the result |
| GoStrings.JoinCons | pkg/conversion/rules.go:203 | joining an element in front of at least one more element puts exactly one newline between it and the join of the rest |
| GoStrings.JoinThree | pkg/conversion/rules.go:203 | joining three elements gives the first, a newline, the second, a newline, the third |
| GoStrings.JoinLength | pkg/conversion/rules.go:203 | the joined text is as long as all elements together plus one separator per adjacent pair |
| GoStrings.JoinPartAt | pkg/conversion/rules.go:203 | element `k` appears unchanged at its offset in the joined text and, unless it is the last, is followed by exactly one newline |
| GoStrings.JoinLastEnds | pkg/conversion/rules.go:203 | the last element ends the joined text |
| GoStrings.JoinKeepsTrimmed | pkg/conversion/rules.go:199-203 | joining non-empty elements that neither start nor end with a newline gives a text that neither starts nor ends with a newline |
| GoStrings.SplitAtNewline | pkg/conversion/rules.go:203 | the lines of `a + "\n" + b` are the lines of `a` followed by the lines of `b` |
| GoStrings.JoinSplit | pkg/conversion/rules.go:203 | Join with "\n" undoes Split on "\n": joining the lines of a text gives the text back |
| GoStrings.SplitJoin | pkg/conversion/rules.go:203 | Split undoes Join when no element contains a newline |
| Discovery.CorpusTextTrim | pkg/conversion/rules.go:6-7 | a corpus laid out as a Go raw string (newline, first line, middle lines, last line, newline) whose first line is a rule entry is well formed, and trimming it removes exactly the opening and the closing newline |
| Discovery.CorpusTextTrimmed | pkg/conversion/rules.go:200-202 | such a corpus, trimmed, starts with `- ruleID:` and does not end with a newline |
| Discovery.TrimCorpus | pkg/conversion/rules.go:200-202 | trimming any well-formed corpus removes exactly its opening and closing newline |
| Discovery.TrimCorpusStartsWithRule | pkg/conversion/rules.go:200-202 | a well-formed corpus, trimmed, starts with `- ruleID:` and does not end with a newline |
| Discovery.LicenseRulesWellFormed | pkg/conversion/rules.go:6-33 | the `license_rules` constant opens with a newline followed by `- ruleID:`, and its last line `pattern: "Public Domain License"` is followed by exactly one newline |
| Discovery.JavaRulesWellFormed | pkg/conversion/rules.go:37-73 | the `java_rules` constant opens with a newline followed by `- ruleID:`, and its last line `tag: ["Maven XML"]` is followed by exactly one newline |
| Discovery.JavaEERulesWellFormed | pkg/conversion/rules.go:75-196 | the `java_ee_rules` constant opens with a newline followed by `- ruleID:`, and its last `pattern:` line is followed by exactly one newline |
| Discovery.Assemble | pkg/conversion/rules.go:199-203 | the text GetDiscoveryRules returns for three corpora: two characters longer than the three trimmed corpora together, with a newline right after the trimmed license corpus and right after the trimmed Java corpus |
| Discovery.AssembleInOrder | pkg/conversion/rules.go:199-203 | the assembled text is the trimmed license, Java and Java EE corpora in this order with one newline between each pair, and its length is theirs plus 2 |
| Discovery.AssembleLines | pkg/conversion/rules.go:199-203 | the lines of the assembled text are the lines of the three trimmed corpora, concatenated in order |
| Discovery.JoinedBoundaries | pkg/conversion/rules.go:203 | three trimmed corpora joined by single newlines start with a rule entry, neither start nor end with a newline, and read `<non-newline>\n- ruleID:` at both joins |
| Discovery.AssembleBoundaries | pkg/conversion/rules.go:199-203 | when each corpus, trimmed, starts with a rule entry and does not end with a newline, the assembled text has clean edges and a single-newline rule boundary at the end of the license and at the end of the Java corpus |
| Discovery.AssembleCorpusTexts | pkg/conversion/rules.go:199-203 | the same for any three corpora laid out as Go raw strings with proper first and last lines |
| Discovery.DiscoveryRulesBoundaries | pkg/conversion/rules.go:6-203 | for the three corpus constants: the result starts with `- ruleID:`, has no leading or trailing newline, and reads `<last character>\n- ruleID:` where `license_rules` ends and where `java_rules` ends |
| Discovery.CorpusTextLines | pkg/conversion/rules.go:6-7 | a trimmed corpus laid out as a Go raw string begins with its first line and ends with its last line, each a whole line |
| Discovery.JoinedFirstAndLastLine | pkg/conversion/rules.go:203 | three texts joined with newlines begin with the first one's first line and end with the last one's last line |
| Discovery.AssembleFirstAndLastLine | pkg/conversion/rules.go:199-203 | the first line of the trimmed license corpus begins the assembled text and the last line of the trimmed Java EE corpus ends it |
| Discovery.AssembleCorpusTextLines | pkg/conversion/rules.go:199-203 | the same for a license and a Java EE corpus laid out as Go raw strings, around any Java corpus |
| Discovery.DiscoveryRulesEdges | pkg/conversion/rules.go:6-203 | for the three corpus constants, the result begins with the line `- ruleID: discover-license` and ends with the last `pattern:` line of `java_ee_rules`, the JPA named-query annotation pattern |
| Discovery.AssembleRules | pkg/conversion/rules.go:198-204 | starting from an empty slice, appending the three trimmed corpora and joining with "\n" computes `Assemble` of the three corpora |
| Discovery.GetDiscoveryRules | pkg/conversion/rules.go:198-204 | the result is the three trimmed constants joined in order; it begins with the `discover-license` line and ends with the last Java EE `pattern:` line; it starts with `- ruleID:`, has no leading or trailing newline, and has a single-newline rule boundary where each of the first two corpora ends |
| Discovery.GetDiscoveryRuleset | pkg/conversion/rules.go:206-212 | the header's lines are exactly "", "name: discovery-rules", "labels:", "- discovery", ""; it starts and ends with a newline, which trimming would remove, and the function returns it untrimmed |
| Discovery.HeaderLinesJoin | pkg/conversion/rules.go:207-211 | the header text is its five lines joined with "\n" |
| Discovery.HeaderLinesHaveNoNewline | pkg/conversion/rules.go:207-211 | no line of the header contains a newline, so splitting the header text gives its lines back |

## Left out

- The meaning of the corpora as YAML is not modelled: no parsing, no rule semantics, and no uniqueness of rule IDs. The corpora are modelled only as text.
- The IP-address regular expression inside `java_rules` is kept as text. Its matching behaviour is not modelled.
- TrimNL: models `strings.Trim` only for the cutset `"\n"` (Go's single-ASCII-byte path). Go's general cutset paths, the ASCII-set path and the Unicode path are not modelled, because the assembler never uses them.
- JoinNL and SplitNL model `strings.Join` and `strings.Split` only for the separator `"\n"`. Split is not called by `rules.go`; it is a specification partner of Join.
- Go strings are byte strings. They are modelled as sequences of characters, which is exact here because every corpus and the header are ASCII.
- Each corpus constant is written as its first line, its middle lines and its last line, combined by `CorpusText` exactly as the Go raw string lays them out. The text is unchanged; only how it is spelled differs.
- GetDiscoveryRules: its statements are modelled by the method `AssembleRules`, which takes the corpora as parameters. `GetDiscoveryRules` applies it to the three constants. The Go function has no parameters.
- The Go TODO comments at `rules.go` lines 5 and 36 describe intended future work, which is not modelled.
- The TODO at `rules.go` line 104 is a YAML `#` line inside the `java_ee_rules` raw string. It is kept word for word as data in `JavaEERulesBody`; only the work it describes is not modelled.
