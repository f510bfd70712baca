/** The discovery ruleset assembler of pkg/conversion/rules.go.

    The file holds three YAML rule corpora as Go raw-string constants and two
    functions: GetDiscoveryRules trims the newlines off both ends of each
    corpus, appends the results to a slice in a fixed order and joins the
    slice with single newlines; GetDiscoveryRuleset returns a constant
    ruleset header.  The corpora are data here: nothing in this file parses
    or evaluates the rules they describe. */
module Discovery {
  import opened GoStrings

  // ---------------------------------------------------------------------
  // The corpora
  // ---------------------------------------------------------------------

  /** Every rule entry of a corpus opens with this key. */
  const RuleStart: string := "- ruleID:"

  /** Each Go corpus constant is a raw string that opens with a line break
      right after the backquote and closes with a line break right before
      the closing backquote.  The constants below are written as their first
      line, the lines in between and their last line, joined by newlines;
      the text is the Go constant's text character for character. */
  function CorpusText(first: string, body: string, last: string): string
  {
    [NL] + first + [NL] + body + [NL] + last + [NL]
  }

  /** `license_rules`: one rule detecting a project license by file content (rules.go lines 6-33) */
  const LicenseRules: string := CorpusText(LicenseRulesFirstLine, LicenseRulesBody, LicenseRulesLastLine)
  const LicenseRulesBody: string := @"  description: ""Discover project license""
  tag:
  - License={{matchingText}}
  when:
    or:
    - builtin.filecontent:
        pattern: ""Apache License 1.0""
    - builtin.filecontent:
        pattern: ""Apache License 1.1""
    - builtin.filecontent:
        pattern: ""Apache License 2.0""
    - builtin.filecontent:
        pattern: ""Mozilla Public License 2.0""
    - builtin.filecontent:
        pattern: ""GNU GPL""
    - builtin.filecontent:
        pattern: ""GNU LGPL""
    - builtin.filecontent:
        pattern: ""CDDL""
    - builtin.filecontent:
        pattern: ""Eclipse Public License 1.0""
    - builtin.filecontent:
        pattern: ""BSD License""
    - builtin.filecontent:"
  const LicenseRulesFirstLine: string := RuleStart + @" discover-license"
  const LicenseRulesLastLine: string := @"        pattern: ""Public Domain License"""

  /** `java_rules`: hard-coded IP addresses, properties, manifest, Java source and Maven files (rules.go lines 37-73) */
  const JavaRules: string := CorpusText(JavaRulesFirstLine, JavaRulesBody, JavaRulesLastLine)
  const JavaRulesBody: string := @"  description: ""Hardcoded IP Address\nWhen migrating environments, hard-coded IP addresses may need to be modified or eliminated.""
  labels:
  - konveyor.io/target=cloud-readiness
  when:
    builtin.filecontent:
      pattern: ([0-9]{1,3}\.){3}[0-9]{1,3}
      filePattern: "".*\\.(java|properties)""
  category: mandatory
  effort: 1
  message: ""When migrating environments, hard-coded IP addresses may need to be modified or eliminated.""
- ruleID: discover-properties-file
  description: ""Properties file""
  when:
    builtin.file:
      pattern: ""^.*\\.properties$""
  tag: [""Properties""]
- ruleID: discover-manifest-file
  description: ""Manifest file""
  when:
    builtin.file:
      pattern: ""MANIFEST.MF""
  tag: [""Manifest""]
- ruleID: discover-java-files
  description: ""Java source files""
  when:
    builtin.file:
      pattern: ""*.java""
  tag: [""Java Source""]
- ruleID: discover-maven-xml
  description: ""Maven XML file""
  when:
    builtin.file:
      pattern: ""pom.xml"""
  const JavaRulesFirstLine: string := RuleStart + @" hardcoded-ip-address"
  const JavaRulesLastLine: string := @"  tag: [""Maven XML""]"

  /** `java_ee_rules`: EJB, Spring, JPA and web descriptors and EJB/JPA annotations (rules.go lines 75-196) */
  const JavaEERules: string := CorpusText(JavaEERulesFirstLine, JavaEERulesBody, JavaEERulesLastLine)
  const JavaEERulesBody: string := @"  tag: [""EJB XML""]
  when:
    builtin.xml:
      xpath: ""/(jboss:ejb-jar or ejb-jar)""
- ruleID: windup-discover-spring-configuration
  tag: [""Spring XML""]
  labels:
  - ""konveyor.io/fact=Spring Beans""
  when:
    builtin.xml:
      xpath: ""/beans""
- ruleID: windup-discover-jpa-configuration
  labels:
  - ""konveyor.io/fact=JPA""
  tag: [""JPA XML""]
  message: ""Persistence unit""
  when:
    or:
      - builtin.xml:
          xpath: '/persistence[boolean(namespace-uri(/persistence)=""http://java.sun.com/xml/ns/persistence"")]'
      - builtin.xml:
          xpath: '/persistence[boolean(namespace-uri(/persistence)=""http://xmlns.jcp.org/xml/ns/persistence"")]'
      - builtin.xml:
          xpath: '/persistence[boolean(namespace-uri(/persistence)=""https://jakarta.ee/xml/ns/persistence"")]'
- ruleID: windup-discover-web-configuration
  tag: [""Web XML""]
  when:
    # TODO extract version as in rules-java-ee/addon/src/main/java/org/jboss/windup/rules/apps/javaee/rules/DiscoverWebXmlRuleProvider.java
    builtin.xml:
      xpath: /web-app
- ruleID: ejb-stateless-000
  labels:
  - ""konveyor.io/fact=EJB""
  message: ""Stateless session bean {{name}}""
  description: Stateless session beans
  when:
    or:
    - java.referenced:
        location: IMPLEMENTS_TYPE
        pattern: ""(javax|jakarta).ejb.SessionBean""
    - java.referenced:
        location: ANNOTATION
        pattern: ""(javax|jakarta).ejb.Stateless""
- ruleID: ejb-stateful-000
  labels:
  - ""konveyor.io/fact=EJB""
  message: ""Stateful session bean {{name}}""
  description: Stateful session beans
  when:
    java.referenced:
      location: ANNOTATION
      pattern: ""(javax|jakarta).ejb.Stateful""
- ruleID: ejb-entity-000
  labels:
  - ""konveyor.io/fact=EJB""
  message: ""Entity bean {{name}}""
  description: ""Entity beans""
  when:
    java.referenced:
      location: IMPLEMENTS_TYPE
      pattern: ""(javax|jakarta).ejb.EntityBean""
- ruleID: ejb-message-driven-000
  labels:
  - ""konveyor.io/fact=EJB""
  message: ""Message driven bean {{name}}""
  description: ""Message driven beans""
  when:
    or:
    - java.referenced:
        location: IMPLEMENTS_TYPE
        pattern: ""(javax|jakarta).ejb.MessageDrivenBean""
    - java.referenced:
        location: ANNOTATION
        pattern: ""(javax|jakarta).ejb.MessageDriven""
- ruleID: ejb-home-000
  labels:
  - ""konveyor.io/fact=EJB""
  message: ""EJB Home {{name}}""
  description: ""EJB Homes""
  when:
    java.referenced:
      location: INHERITANCE
      pattern: ""(javax|jakarta).ejb.(EJBHome|EJBLocalHome)""
- ruleID: ejb-object-000
  labels:
  - ""konveyor.io/fact=EJB""
  message: ""EJB Object {{name}}""
  description: ""EJB Objects""
  when:
    java.referenced:
      location: INHERITANCE
      pattern: ""(javax|jakarta).ejb.(EJBObject|EJBLocalObject)""
- ruleID: jpa-entity-000
  labels:
  - ""konveyor.io/fact=JPA""
  message: ""JPA Entity {{name}}""
  description: ""JPA Entities""
  when:
    java.referenced:
      location: ANNOTATION
      pattern: ""(javax|jakarta).persistence.Entity""
- ruleID: jpa-table-000
  labels:
  - ""konveyor.io/fact=JPA""
  message: ""JPA Table {{name}}""
  description: ""JPA Tables""
  when:
    java.referenced:
      location: ANNOTATION
      pattern: ""(javax|jakarta).persistence.Table""
- ruleID: jpa-query-000
  labels:
  - ""konveyor.io/fact=JPA""
  message: ""JPA Named Query {{name}}""
  description: ""JPA Named Queries""
  when:
    java.referenced:
      location: ANNOTATION"
  const JavaEERulesFirstLine: string := RuleStart + @" windup-discover-ejb-configuration"
  const JavaEERulesLastLine: string := @"      pattern: ""(javax|jakarta).persistence.(NamedQuery|NamedQueries)"""

  /** A rule entry starts at position `p` of `a`: the characters from `p`
      on spell RuleStart. */
  predicate RuleAt(a: string, p: int)
  {
    0 <= p && p + |RuleStart| <= |a| && forall i :: 0 <= i < |RuleStart| ==> a[p + i] == RuleStart[i]
  }

  /** A trimmed corpus: it starts with a rule entry and does not end with a
      newline. */
  predicate TrimmedCorpus(t: string)
  {
    RuleAt(t, 0) && t[|t| - 1] != NL
  }

  /** What is known of every corpus constant and used by all the
      assembler's lemmas: one newline, then a trimmed corpus (so the text
      starts with "\n- ruleID:" and its last line does not end in a
      newline), then exactly one newline. */
  predicate WellFormedCorpus(c: string)
  {
    |c| >= 2 && c[0] == NL && TrimmedCorpus(c[1..|c| - 1]) && c[|c| - 1] == NL
  }

  /** What a first line and a last line of a corpus laid out as CorpusText
      must satisfy: the first line is a rule entry and the last line is not
      empty and does not end with a newline. */
  predicate CorpusEnds(first: string, last: string)
  {
    RuleAt(first, 0) && last != [] && last[|last| - 1] != NL
  }

  /** A corpus laid out as CorpusText whose first line is a rule entry and
      whose last line is not empty is well formed, and trimming it removes
      exactly the opening and the closing newline. */
  lemma {:induction false} CorpusTextTrim(first: string, body: string, last: string)
    requires CorpusEnds(first, last)
    ensures WellFormedCorpus(CorpusText(first, body, last))
    ensures TrimNL(CorpusText(first, body, last)) == first + [NL] + body + [NL] + last
  {
    var c := CorpusText(first, body, last);
    var inner := first + [NL] + body + [NL] + last;
    assert c == [NL] + inner + [NL];
    assert c[1..|c| - 1] == inner;
    assert c[1] == first[0] == RuleStart[0];
    TrimIsTheSlice(c, 1, |c| - 1);
  }

  /** A corpus laid out as CorpusText whose first line is a rule entry and
      whose last line is not empty, trimmed, starts with a rule entry and
      does not end with a newline. */
  lemma {:induction false} CorpusTextTrimmed(first: string, body: string, last: string)
    requires CorpusEnds(first, last)
    ensures TrimmedCorpus(TrimNL(CorpusText(first, body, last)))
  {
    CorpusTextTrim(first, body, last);
    TrimCorpusStartsWithRule(CorpusText(first, body, last));
  }

  /** Trimming a well-formed corpus removes exactly its opening and closing
      newline. */
  lemma {:induction false} TrimCorpus(c: string)
    requires WellFormedCorpus(c)
    ensures TrimNL(c) == c[1..|c| - 1]
  {
    assert c[1] == c[1..|c| - 1][0] == RuleStart[0];
    TrimIsTheSlice(c, 1, |c| - 1);
  }

  /** A well-formed corpus, trimmed, starts with a rule entry and does not
      end with a newline. */
  lemma {:induction false} TrimCorpusStartsWithRule(c: string)
    requires WellFormedCorpus(c)
    ensures TrimmedCorpus(TrimNL(c))
  {
    TrimCorpus(c);
  }

  /** The license corpus constant is well formed. */
  lemma {:induction false} LicenseRulesWellFormed()
    ensures WellFormedCorpus(LicenseRules)
  {
    CorpusTextTrim(LicenseRulesFirstLine, LicenseRulesBody, LicenseRulesLastLine);
  }

  /** The Java corpus constant is well formed. */
  lemma {:induction false} JavaRulesWellFormed()
    ensures WellFormedCorpus(JavaRules)
  {
    CorpusTextTrim(JavaRulesFirstLine, JavaRulesBody, JavaRulesLastLine);
  }

  /** The Java EE corpus constant is well formed. */
  lemma {:induction false} JavaEERulesWellFormed()
    ensures WellFormedCorpus(JavaEERules)
  {
    CorpusTextTrim(JavaEERulesFirstLine, JavaEERulesBody, JavaEERulesLastLine);
  }

  // ---------------------------------------------------------------------
  // GetDiscoveryRules
  // ---------------------------------------------------------------------

  /** The text GetDiscoveryRules builds from three corpora: each one trimmed
      of newlines at both ends, in the order license, Java, Java EE, joined
      with "\n". */
  function Assemble(license: string, java: string, javaEE: string): (r: string)
    ensures |r| == |TrimNL(license)| + |TrimNL(java)| + |TrimNL(javaEE)| + 2
    ensures r[|TrimNL(license)|] == NL
    ensures r[|TrimNL(license)| + 1 + |TrimNL(java)|] == NL
  {
    var l, j, e := TrimNL(license), TrimNL(java), TrimNL(javaEE);
    JoinThree(l, j, e);
    JoinNL([l, j, e])
  }

  /** The assembled text is the three trimmed corpora in exactly this order
      with one newline between each pair, and its length is theirs plus 2. */
  lemma {:induction false} AssembleInOrder(license: string, java: string, javaEE: string)
    ensures Assemble(license, java, javaEE) == TrimNL(license) + [NL] + TrimNL(java) + [NL] + TrimNL(javaEE)
    ensures |Assemble(license, java, javaEE)| == |TrimNL(license)| + |TrimNL(java)| + |TrimNL(javaEE)| + 2
  {
    JoinThree(TrimNL(license), TrimNL(java), TrimNL(javaEE));
  }

  /** The lines of the assembled text are the lines of the trimmed license
      corpus, then those of the Java corpus, then those of the Java EE
      corpus: assembling appends the corpora's line lists. */
  lemma {:induction false} AssembleLines(license: string, java: string, javaEE: string)
    ensures SplitNL(Assemble(license, java, javaEE))
         == SplitNL(TrimNL(license)) + SplitNL(TrimNL(java)) + SplitNL(TrimNL(javaEE))
  {
    var l, j, e := TrimNL(license), TrimNL(java), TrimNL(javaEE);
    AssembleInOrder(license, java, javaEE);
    SplitAtNewline(l + [NL] + j, e);
    SplitAtNewline(l, j);
  }

  /** `a` starts with a rule entry and neither starts nor ends with a
      newline. */
  predicate CleanEdges(a: string)
  {
    RuleAt(a, 0) && a[0] != NL && a[|a| - 1] != NL
  }

  /** Position `p` of `a` is a corpus boundary: the character before it is
      not a newline, `p` holds exactly one newline, and a rule entry
      follows it, so `a` reads "<last character>\n- ruleID:" there. */
  predicate RuleBoundaryAt(a: string, p: int)
  {
    0 < p < |a| && a[p - 1] != NL && a[p] == NL && RuleAt(a, p + 1)
  }

  /** Three trimmed corpora joined by single newlines: the text starts with
      a rule entry, does not end with a newline, and at each boundary reads
      "<a character other than a newline>\n- ruleID:". */
  lemma {:induction false} JoinedBoundaries(l: string, j: string, e: string)
    requires TrimmedCorpus(l) && TrimmedCorpus(j) && TrimmedCorpus(e)
    ensures CleanEdges(l + [NL] + j + [NL] + e)
    ensures RuleBoundaryAt(l + [NL] + j + [NL] + e, |l|)
    ensures RuleBoundaryAt(l + [NL] + j + [NL] + e, |l| + 1 + |j|)
  {
    var a := l + [NL] + j + [NL] + e;
    var p, q := |l|, |l| + 1 + |j|;
    assert l[0] == RuleStart[0] && j[0] == RuleStart[0] && e[0] == RuleStart[0];
    JoinKeepsTrimmed([l, j, e]);
    JoinThree(l, j, e);
    assert a[p - 1] == l[p - 1];
    assert a[q - 1] == j[|j| - 1];
  }

  /** When each corpus, once trimmed, starts with a rule entry and does not
      end with a newline (as every well-formed corpus does, by
      TrimCorpusStartsWithRule, and so every corpus laid out as CorpusText,
      by CorpusTextTrimmed), the assembled text neither starts nor ends
      with a newline, starts with a rule entry, and at each of the two
      corpus boundaries reads "<last character of the previous corpus>\n-
      ruleID:": one newline, no blank line, and no missing line break. */
  lemma {:induction false} AssembleBoundaries(license: string, java: string, javaEE: string)
    requires TrimmedCorpus(TrimNL(license)) && TrimmedCorpus(TrimNL(java)) && TrimmedCorpus(TrimNL(javaEE))
    ensures CleanEdges(Assemble(license, java, javaEE))
    ensures RuleBoundaryAt(Assemble(license, java, javaEE), |TrimNL(license)|)
    ensures RuleBoundaryAt(Assemble(license, java, javaEE), |TrimNL(license)| + 1 + |TrimNL(java)|)
  {
    var l, j, e := TrimNL(license), TrimNL(java), TrimNL(javaEE);
    AssembleInOrder(license, java, javaEE);
    JoinedBoundaries(l, j, e);
  }

  /** `t` begins with the whole line `line`: the line and then a newline. */
  predicate StartsWithLine(t: string, line: string)
  {
    |t| > |line| && t[..|line| + 1] == line + [NL]
  }

  /** `t` ends with the whole line `line`: a newline and then the line. */
  predicate EndsWithLine(t: string, line: string)
  {
    |t| > |line| && t[|t| - |line| - 1..] == [NL] + line
  }

  /** Trimmed, a corpus laid out as CorpusText begins with its first line
      and ends with its last line. */
  lemma {:induction false} CorpusTextLines(first: string, body: string, last: string)
    requires CorpusEnds(first, last)
    ensures StartsWithLine(TrimNL(CorpusText(first, body, last)), first)
    ensures EndsWithLine(TrimNL(CorpusText(first, body, last)), last)
  {
    CorpusTextTrim(first, body, last);
    var t := first + [NL] + body + [NL] + last;
    assert t[..|first| + 1] == first + [NL];
    assert t == (first + [NL] + body) + ([NL] + last);
  }

  /** Three texts joined by single newlines begin with the first one's first
      line and end with the last one's last line. */
  lemma {:induction false} JoinedFirstAndLastLine(l: string, j: string, e: string, first: string, last: string)
    requires StartsWithLine(l, first) && EndsWithLine(e, last)
    ensures StartsWithLine(l + [NL] + j + [NL] + e, first)
    ensures EndsWithLine(l + [NL] + j + [NL] + e, last)
  {
    var a := l + [NL] + j + [NL] + e;
    assert a == l + ([NL] + j + [NL] + e);
    assert a[..|first| + 1] == l[..|first| + 1];
    assert a == (l + [NL] + j + [NL]) + e;
    assert a[|a| - |last| - 1..] == e[|e| - |last| - 1..];
  }

  /** The first line of the trimmed license corpus begins the assembled text
      and the last line of the trimmed Java EE corpus ends it. */
  lemma {:induction false} AssembleFirstAndLastLine(license: string, java: string, javaEE: string, first: string, last: string)
    requires StartsWithLine(TrimNL(license), first)
    requires EndsWithLine(TrimNL(javaEE), last)
    ensures StartsWithLine(Assemble(license, java, javaEE), first)
    ensures EndsWithLine(Assemble(license, java, javaEE), last)
  {
    AssembleInOrder(license, java, javaEE);
    JoinedFirstAndLastLine(TrimNL(license), TrimNL(java), TrimNL(javaEE), first, last);
  }

  /** Assembling a license corpus and a Java EE corpus laid out as
      CorpusText, around any Java corpus, gives a text that begins with the
      license corpus's first line and ends with the Java EE corpus's last
      line. */
  lemma {:induction false} AssembleCorpusTextLines(f1: string, b1: string, l1: string,
                                                   java: string,
                                                   f3: string, b3: string, l3: string)
    requires CorpusEnds(f1, l1) && CorpusEnds(f3, l3)
    ensures var a := Assemble(CorpusText(f1, b1, l1), java, CorpusText(f3, b3, l3));
            StartsWithLine(a, f1) && EndsWithLine(a, l3)
  {
    CorpusTextLines(f1, b1, l1);
    CorpusTextLines(f3, b3, l3);
    AssembleFirstAndLastLine(CorpusText(f1, b1, l1), java, CorpusText(f3, b3, l3), f1, l3);
  }

  /** What GetDiscoveryRules returns for the three corpus constants: no
      leading or trailing newline, the `discover-license` rule line first and
      the last `pattern:` line of the Java EE corpus last. */
  lemma {:induction false} DiscoveryRulesEdges()
    ensures StartsWithLine(Assemble(LicenseRules, JavaRules, JavaEERules), LicenseRulesFirstLine)
    ensures EndsWithLine(Assemble(LicenseRules, JavaRules, JavaEERules), JavaEERulesLastLine)
  {
    AssembleCorpusTextLines(LicenseRulesFirstLine, LicenseRulesBody, LicenseRulesLastLine,
                            JavaRules,
                            JavaEERulesFirstLine, JavaEERulesBody, JavaEERulesLastLine);
  }

  /** Assembling three corpora laid out as CorpusText with proper first and
      last lines gives a text that starts with a rule entry, neither starts
      nor ends with a newline, and reads "<last character>\n- ruleID:" at
      the end of the first and at the end of the second corpus. */
  lemma {:induction false} AssembleCorpusTexts(f1: string, b1: string, l1: string,
                                               f2: string, b2: string, l2: string,
                                               f3: string, b3: string, l3: string)
    requires CorpusEnds(f1, l1) && CorpusEnds(f2, l2) && CorpusEnds(f3, l3)
    ensures var a := Assemble(CorpusText(f1, b1, l1), CorpusText(f2, b2, l2), CorpusText(f3, b3, l3));
            var p := |TrimNL(CorpusText(f1, b1, l1))|;
            CleanEdges(a) && RuleBoundaryAt(a, p) && RuleBoundaryAt(a, p + 1 + |TrimNL(CorpusText(f2, b2, l2))|)
  {
    CorpusTextTrimmed(f1, b1, l1);
    CorpusTextTrimmed(f2, b2, l2);
    CorpusTextTrimmed(f3, b3, l3);
    AssembleBoundaries(CorpusText(f1, b1, l1), CorpusText(f2, b2, l2), CorpusText(f3, b3, l3));
  }

  /** What GetDiscoveryRules returns for the three corpus constants starts
      with a rule entry, neither starts nor ends with a newline, and at the
      end of the license corpus and at the end of the Java corpus reads
      "<last character>\n- ruleID:". */
  lemma {:induction false} DiscoveryRulesBoundaries()
    ensures CleanEdges(Assemble(LicenseRules, JavaRules, JavaEERules))
    ensures RuleBoundaryAt(Assemble(LicenseRules, JavaRules, JavaEERules), |TrimNL(LicenseRules)|)
    ensures RuleBoundaryAt(Assemble(LicenseRules, JavaRules, JavaEERules),
                           |TrimNL(LicenseRules)| + 1 + |TrimNL(JavaRules)|)
  {
    AssembleCorpusTexts(LicenseRulesFirstLine, LicenseRulesBody, LicenseRulesLastLine,
                        JavaRulesFirstLine, JavaRulesBody, JavaRulesLastLine,
                        JavaEERulesFirstLine, JavaEERulesBody, JavaEERulesLastLine);
  }

  /** The body of rules.go GetDiscoveryRules over given corpora: start
      from an empty slice, append the trimmed license, Java and Java EE
      corpora, and join the slice with "\n". */
  method AssembleRules(license: string, java: string, javaEE: string) returns (r: string)
    ensures r == Assemble(license, java, javaEE)
  {
    var rules: seq<string> := [];
    rules := rules + [TrimNL(license)];
    rules := rules + [TrimNL(java)];
    rules := rules + [TrimNL(javaEE)];
    assert rules == [TrimNL(license), TrimNL(java), TrimNL(javaEE)];
    r := JoinNL(rules);
  }

  /** rules.go GetDiscoveryRules: the assembler applied to the three corpus
      constants.  The result begins with the `discover-license` rule line
      and ends with the last `pattern:` line of the Java EE corpus, each a
      whole line, so it has no leading or trailing newline. */
  method GetDiscoveryRules() returns (r: string)
    ensures r == Assemble(LicenseRules, JavaRules, JavaEERules)
    ensures StartsWithLine(r, LicenseRulesFirstLine)
    ensures EndsWithLine(r, JavaEERulesLastLine)
    ensures CleanEdges(r)
    ensures RuleBoundaryAt(r, |TrimNL(LicenseRules)|)
    ensures RuleBoundaryAt(r, |TrimNL(LicenseRules)| + 1 + |TrimNL(JavaRules)|)
  {
    r := AssembleRules(LicenseRules, JavaRules, JavaEERules);
    DiscoveryRulesEdges();
    DiscoveryRulesBoundaries();
  }

  // ---------------------------------------------------------------------
  // GetDiscoveryRuleset
  // ---------------------------------------------------------------------

  /** The lines of the ruleset header. */
  const HeaderLines: seq<string> := ["", "name: discovery-rules", "labels:", "- discovery", ""]

  /** rules.go GetDiscoveryRuleset: the constant ruleset header, named
      `discovery-rules` with the single label `discovery`.  Unlike the
      corpora it is returned untrimmed: an empty first and an empty last
      line surround its three lines. */
  function GetDiscoveryRuleset(): (r: string)
    ensures SplitNL(r) == HeaderLines
    ensures |r| >= 2 && r[0] == NL && r[|r| - 1] == NL && TrimNL(r) == r[1..|r| - 1]
  {
    var r := [NL] + "name: discovery-rules" + [NL] + "labels:" + [NL] + "- discovery" + [NL];
    HeaderLinesJoin();
    HeaderLinesHaveNoNewline();
    SplitJoin(HeaderLines);
    TrimIsTheSlice(r, 1, |r| - 1);
    r
  }

  /** No line of the header contains a newline. */
  lemma {:induction false} HeaderLinesHaveNoNewline()
    ensures forall k :: 0 <= k < |HeaderLines| ==> NL !in HeaderLines[k]
  {
    var h := HeaderLines;
    assert NL !in h[1] && NL !in h[2] && NL !in h[3];
  }

  /** The header text is its lines joined with "\n". */
  lemma {:induction false} HeaderLinesJoin()
    ensures JoinNL(HeaderLines) == [NL] + "name: discovery-rules" + [NL] + "labels:" + [NL] + "- discovery" + [NL]
  {
    var h := HeaderLines;
    var t3 := [h[3], h[4]];
    var t2 := [h[2]] + t3;
    var t1 := [h[1]] + t2;
    assert h == [h[0]] + t1;
    JoinCons(h[3], [h[4]]);
    assert JoinNL(t3) == h[3] + [NL] + h[4];
    JoinCons(h[2], t3);
    JoinCons(h[1], t2);
    JoinCons(h[0], t1);
    var j2 := h[2] + [NL] + (h[3] + [NL] + h[4]);
    assert JoinNL(t2) == j2;
    assert JoinNL(h) == [] + [NL] + (h[1] + [NL] + j2);
    assert h[1] == "name: discovery-rules" && h[2] == "labels:" && h[3] == "- discovery" && h[4] == [];
  }
}
