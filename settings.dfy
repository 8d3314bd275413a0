/** The policy file: one directive per line (the line fold of ubdns_load_cfg). */
module Settings {
  import opened Types
  import opened Chars
  import opened TrustPolicy

  /** The three directives, as getline() returns them: with their newline. */
  const RequireSecureLine: string := "require-secure\n"
  const AcceptBogusLine: string := "accept-bogus\n"
  const LoggingLine: string := "logging\n"

  /** One line of the policy file: a directive sets its flag; anything else is ignored. */
  function ApplyLine(c: Config, line: string): (r: Config)
    ensures c.requireSecure ==> r.requireSecure
    ensures c.acceptBogus ==> r.acceptBogus
    ensures c.logging ==> r.logging
  {
    if StrCaseEq(RequireSecureLine, line) then c.(requireSecure := true)
    else if StrCaseEq(AcceptBogusLine, line) then c.(acceptBogus := true)
    else if StrCaseEq(LoggingLine, line) then c.(logging := true)
    else c
  }

  /** The configuration after reading the given lines in order. */
  function ApplyLines(c: Config, lines: seq<string>): Config
    decreases |lines|
  {
    if lines == [] then c
    else ApplyLine(ApplyLines(c, lines[..|lines| - 1]), lines[|lines| - 1])
  }

  /** The normalisation after the fold: requiring security turns accepting bogus off. */
  function Normalize(c: Config): (r: Config)
    ensures Consistent(r)
    ensures r.requireSecure == c.requireSecure && r.logging == c.logging
    ensures r.acceptBogus <==> c.acceptBogus && !c.requireSecure
  {
    if c.requireSecure then c.(acceptBogus := false) else c
  }

  /** The configuration ubdns_load_cfg leaves behind, given the policy file's lines
      or None when the file cannot be opened. */
  function LoadedConfig(c: Config, file: Option<seq<string>>): Config {
    match file
    case None => c
    case Some(lines) => Normalize(ApplyLines(c, lines))
  }

  /** Some line of the file is the given directive. */
  predicate Mentions(lines: seq<string>, directive: string) {
    exists i :: 0 <= i < |lines| && StrCaseEq(directive, lines[i])
  }

  /** After the fold each flag is set iff it was set before or some line is its
      directive: lines never clear a flag and nothing else sets one. */
  lemma {:induction false} ApplyLinesFlags(c: Config, lines: seq<string>)
    ensures ApplyLines(c, lines).requireSecure <==> c.requireSecure || Mentions(lines, RequireSecureLine)
    ensures ApplyLines(c, lines).acceptBogus <==> c.acceptBogus || Mentions(lines, AcceptBogusLine)
    ensures ApplyLines(c, lines).logging <==> c.logging || Mentions(lines, LoggingLine)
    decreases |lines|
  {
    if lines != [] {
      var init, last := lines[..|lines| - 1], lines[|lines| - 1];
      ApplyLinesFlags(c, init);
      DirectivesDiffer(last);
      MentionsStep(lines, RequireSecureLine);
      MentionsStep(lines, AcceptBogusLine);
      MentionsStep(lines, LoggingLine);
    }
  }

  /** The last line mentions a directive or one of the lines before it does. */
  lemma MentionsStep(lines: seq<string>, d: string)
    requires lines != []
    ensures Mentions(lines, d) <==> Mentions(lines[..|lines| - 1], d) || StrCaseEq(d, lines[|lines| - 1])
  {
    var init := lines[..|lines| - 1];
    if i :| 0 <= i < |lines| && StrCaseEq(d, lines[i]) {
      if i < |init| {
        assert init[i] == lines[i];
      }
    }
    if i :| 0 <= i < |init| && StrCaseEq(d, init[i]) {
      assert lines[i] == init[i];
    }
  }

  /** No line is two directives at once, so the order of the tests does not matter. */
  lemma DirectivesDiffer(line: string)
    ensures !(StrCaseEq(RequireSecureLine, line) && StrCaseEq(AcceptBogusLine, line))
    ensures !(StrCaseEq(RequireSecureLine, line) && StrCaseEq(LoggingLine, line))
    ensures !(StrCaseEq(AcceptBogusLine, line) && StrCaseEq(LoggingLine, line))
  {
    assert |RequireSecureLine| == 15 && |AcceptBogusLine| == 13 && |LoggingLine| == 8;
  }

  /** What a readable policy file leaves: security required iff it was or is
      requested; logging likewise; bogus answers accepted iff accepted before or
      requested, and security is not required. */
  lemma LoadedConfigFlags(c: Config, lines: seq<string>)
    ensures var r := LoadedConfig(c, Some(lines));
      && Consistent(r)
      && (r.requireSecure <==> c.requireSecure || Mentions(lines, RequireSecureLine))
      && (r.logging <==> c.logging || Mentions(lines, LoggingLine))
      && (r.acceptBogus <==> (c.acceptBogus || Mentions(lines, AcceptBogusLine)) && !r.requireSecure)
  {
    ApplyLinesFlags(c, lines);
  }

  /** The three directives. */
  predicate IsDirective(d: string) {
    d == RequireSecureLine || d == AcceptBogusLine || d == LoggingLine
  }

  /** The match ignores case: any spelling of a directive with some of its letters
      in upper case is that directive. */
  lemma DirectiveIgnoresCase(d: string, line: string)
    requires IsDirective(d)
    requires |line| == |d|
    requires forall i :: 0 <= i < |d| ==> line[i] == d[i] || line[i] == ToUpper(d[i])
    ensures StrCaseEq(d, line)
  {
    assert forall i :: 0 <= i < |d| ==> 'a' <= d[i] <= 'z' || d[i] == '-' || d[i] == '\n';
    assert '\0' !in line by {
      forall i | 0 <= i < |line| ensures line[i] != '\0' {
        assert line[i] == d[i] || line[i] == ToUpper(d[i]);
      }
    }
    CStrOfPlain(line);
  }

  /** The match includes the newline: a line without one, such as a last line that
      lacks it, is no directive. */
  lemma DirectiveNeedsNewline(line: string)
    requires '\n' !in line
    ensures !StrCaseEq(RequireSecureLine, line)
    ensures !StrCaseEq(AcceptBogusLine, line)
    ensures !StrCaseEq(LoggingLine, line)
  {
    var t := CStr(line);
    assert '\n' !in t;
    if |t| > 0 {
      assert ToLower(t[|t| - 1]) != '\n';
    }
    assert RequireSecureLine[14] == '\n' && AcceptBogusLine[12] == '\n' && LoggingLine[7] == '\n';
  }
}
