/**
 * Ignore rules in the style of `.gitignore` (`SyncIgnore`): parsing the rule
 * text, POSIX `fnmatch` glob matching, and the last-matching-rule-wins verdict.
 */
module Ignore {
  import opened Wrappers
  import opened Strings

  /** One parsed rule. `absolute` rules hold no glob character and match a path or
   *  anything under it; the others are matched with `fnmatch`. */
  datatype Rule = Rule(pattern: string, negate: bool, isDirectory: bool, absolute: bool)

  predicate HasWildcard(p: string)
  {
    '*' in p || '?' in p || '[' in p
  }

  /** The flags of a rule agree with its pattern. */
  predicate WellFormed(r: Rule)
  {
    r.isDirectory == EndsWith(r.pattern, "/") && r.absolute == !HasWildcard(r.pattern)
  }

  /** One line of rule text: None for a blank line or a comment. */
  function ParseLine(raw: string): (r: Option<Rule>)
    ensures r.None? <==> Strip(raw) == [] || Strip(raw)[0] == '#'
    ensures r.Some? ==> WellFormed(r.value)
    ensures r.Some? ==> (r.value.negate <==> Strip(raw)[0] == '!')
  {
    ParseStripped(Strip(raw))
  }

  /** A stripped line: a leading '!' negates the rule; then one leading '/' is dropped. */
  function ParseStripped(line: string): (r: Option<Rule>)
    ensures r.None? <==> line == [] || line[0] == '#'
    ensures r.Some? ==> WellFormed(r.value)
    ensures r.Some? ==> (r.value.negate <==> line[0] == '!')
  {
    if line == [] || line[0] == '#' then None
    else
      var negate := line[0] == '!';
      var unnegated := if negate then line[1..] else line;
      var pattern := if StartsWith(unnegated, "/") then unnegated[1..] else unnegated;
      Some(Rule(pattern, negate, EndsWith(pattern, "/"), !HasWildcard(pattern)))
  }

  /** The lines of the rule text: none for empty text, otherwise the stripped text
   *  split at newlines. */
  function Lines(text: string): seq<string>
  {
    if text == [] then [] else Split(Strip(text), '\n')
  }

  /** The rules of the given lines, in order. */
  function RulesOfLines(lines: seq<string>): (rules: seq<Rule>)
    ensures |rules| <= |lines|
    ensures forall i :: 0 <= i < |rules| ==> WellFormed(rules[i])
  {
    if lines == [] then []
    else
      var init := RulesOfLines(lines[..|lines| - 1]);
      match ParseLine(lines[|lines| - 1])
      case None => init
      case Some(r) => init + [r]
  }

  /** The rules a `.syncignore` text defines. */
  function RulesOf(text: string): seq<Rule>
  {
    RulesOfLines(Lines(text))
  }

  /** A rule written back as a line: `!` when negated, then `/` and the pattern. */
  function RuleLine(r: Rule): string
  {
    (if r.negate then "!" else "") + "/" + r.pattern
  }

  /** Writing a well-formed rule as a line and parsing it gives the rule back, provided
   *  its pattern does not end in whitespace (which parsing strips). */
  lemma ParseRuleLine(r: Rule)
    requires WellFormed(r)
    requires r.pattern == [] || !IsSpace(r.pattern[|r.pattern| - 1])
    ensures ParseLine(RuleLine(r)) == Some(r)
  {
    var line := RuleLine(r);
    assert line[|line| - 1] == (if r.pattern == [] then '/' else r.pattern[|r.pattern| - 1]);
    StripKeepsTrimmed(line);
    ParseStrippedRuleLine(r);
  }

  lemma ParseStrippedRuleLine(r: Rule)
    requires WellFormed(r)
    ensures ParseStripped(RuleLine(r)) == Some(r)
  {
    var line := RuleLine(r);
    var unnegated := "/" + r.pattern;
    if r.negate {
      assert line == "!" + unnegated && line[1..] == unnegated;
    } else {
      assert line == unnegated;
    }
    assert StartsWith(unnegated, "/") && unnegated[1..] == r.pattern;
  }

  /** Text that starts and ends with a non-blank character is its own strip. */
  lemma StripKeepsTrimmed(line: string)
    requires line != [] && !IsSpace(line[0]) && !IsSpace(line[|line| - 1])
    ensures Strip(line) == line
  {
  }

  // ---------------------------------------------------------------- fnmatch

  datatype ClassItem = Single(c: char) | Range(lo: char, hi: char)

  /** A compiled glob: `*`, `?`, a bracket class or a literal character. */
  datatype Token = Star | AnyChar | Class(negated: bool, items: seq<ClassItem>) | Lit(c: char)

  /** The index of the first ']' in `p` at or after `j`. */
  function FindClose(p: string, j: nat): (r: Option<nat>)
    ensures r.Some? ==> j <= r.value < |p| && p[r.value] == ']'
    ensures r.Some? ==> forall k :: j <= k < r.value ==> p[k] != ']'
    ensures r.None? ==> forall k :: j <= k < |p| ==> p[k] != ']'
    decreases |p| - j
  {
    if j >= |p| then None
    else if p[j] == ']' then Some(j)
    else FindClose(p, j + 1)
  }

  /** The members of a bracket class, read left to right: `x-y` is a range, any other
   *  character stands for itself. */
  function ClassItems(m: string): seq<ClassItem>
  {
    if |m| >= 3 && m[1] == '-' then [Range(m[0], m[2])] + ClassItems(m[3..])
    else if m == [] then []
    else [Single(m[0])] + ClassItems(m[1..])
  }

  /** Where a bracket expression starting at `p[0] == '['` closes: after an optional
   *  '!' and an optional leading ']', the first ']'. */
  function BracketClose(p: string): (r: Option<nat>)
    requires |p| > 0
    ensures r.Some? ==> 1 <= r.value < |p| && p[r.value] == ']'
  {
    var j := if 1 < |p| && p[1] == '!' then 2 else 1;
    var k := if j < |p| && p[j] == ']' then j + 1 else j;
    FindClose(p, k)
  }

  /** The tokens of an `fnmatch` pattern; a '[' that is never closed is literal. */
  function Tokenize(p: string): seq<Token>
    decreases |p|
  {
    if p == [] then []
    else if p[0] == '*' then [Star] + Tokenize(p[1..])
    else if p[0] == '?' then [AnyChar] + Tokenize(p[1..])
    else if p[0] == '[' then
      match BracketClose(p)
      case None => [Lit('[')] + Tokenize(p[1..])
      case Some(e) =>
        var body := p[1..e];
        var negated := |body| > 0 && body[0] == '!';
        var members := if negated then body[1..] else body;
        [Class(negated, ClassItems(members))] + Tokenize(p[e + 1..])
    else [Lit(p[0])] + Tokenize(p[1..])
  }

  predicate InClass(items: seq<ClassItem>, c: char)
  {
    exists i :: 0 <= i < |items| && match items[i]
      case Single(d) => c == d
      case Range(lo, hi) => lo <= c <= hi
  }

  /** Whether the whole of `s` matches the tokens; `*` matches any run, '/' included. */
  function MatchTokens(ts: seq<Token>, s: string): bool
    decreases |ts|, |s|
  {
    if ts == [] then s == []
    else match ts[0]
      case Star => MatchTokens(ts[1..], s) || (s != [] && MatchTokens(ts, s[1..]))
      case AnyChar => s != [] && MatchTokens(ts[1..], s[1..])
      case Lit(c) => s != [] && s[0] == c && MatchTokens(ts[1..], s[1..])
      case Class(negated, items) =>
        s != [] && InClass(items, s[0]) != negated && MatchTokens(ts[1..], s[1..])
  }

  /** `fnmatch.fnmatch(name, pattern)` on a POSIX system (case-sensitive). */
  function FnMatch(name: string, pattern: string): bool
  {
    MatchTokens(Tokenize(pattern), name)
  }

  /** A pattern without glob characters matches exactly itself. */
  lemma {:induction false} LiteralPatternMatchesItself(name: string, pattern: string)
    requires !HasWildcard(pattern)
    ensures FnMatch(name, pattern) <==> name == pattern
    decreases |pattern|
  {
    if pattern != [] {
      assert pattern == [pattern[0]] + pattern[1..];
      assert !HasWildcard(pattern[1..]);
      assert Tokenize(pattern) == [Lit(pattern[0])] + Tokenize(pattern[1..]);
      if name != [] {
        LiteralPatternMatchesItself(name[1..], pattern[1..]);
        assert name == [name[0]] + name[1..];
      }
    }
  }

  /** A `*` followed by a literal suffix matches exactly the names ending in it. */
  lemma StarSuffix(name: string, suffix: string)
    requires !HasWildcard(suffix)
    ensures FnMatch(name, "*" + suffix) <==> EndsWith(name, suffix)
  {
    assert ("*" + suffix)[1..] == suffix;
    assert Tokenize("*" + suffix) == [Star] + Tokenize(suffix);
    StarThen(Tokenize(suffix), suffix, name);
  }

  lemma {:induction false} StarThen(ts: seq<Token>, suffix: string, name: string)
    requires !HasWildcard(suffix) && ts == Tokenize(suffix)
    ensures MatchTokens([Star] + ts, name) <==> EndsWith(name, suffix)
    decreases |name|
  {
    var st := [Star] + ts;
    assert st[1..] == ts;
    LiteralPatternMatchesItself(name, suffix);
    if name != [] {
      StarThen(ts, suffix, name[1..]);
      if |suffix| <= |name[1..]| {
        assert name[1..][|name[1..]| - |suffix|..] == name[|name| - |suffix|..];
      }
      if EndsWith(name, suffix) && name != suffix {
        assert |suffix| < |name|;
      }
    }
  }

  // ---------------------------------------------------------------- verdict

  /** The path made of the first `i + 1` components. */
  function PrefixPath(parts: seq<string>, i: nat): string
    requires i < |parts|
  {
    Join(parts[..i + 1], '/')
  }

  /** Some of the leading path prefixes `parts[0]`, `parts[0]/parts[1]`, ... matches. */
  predicate SomePrefixMatches(parts: seq<string>, pattern: string)
  {
    exists i :: 0 <= i < |parts| && FnMatch(PrefixPath(parts, i), pattern)
  }

  /** How a glob rule's pattern is tried: on the path, on its last component, and on
   *  each leading prefix of its components. */
  predicate GlobMatches(path: string, pattern: string)
  {
    FnMatch(path, pattern) || FnMatch(Basename(path), pattern)
    || SomePrefixMatches(Split(path, '/'), pattern)
  }

  /** The pattern a rule is matched with: its own, less one trailing '/'. */
  function MatchPattern(r: Rule): string
  {
    if EndsWith(r.pattern, "/") then r.pattern[..|r.pattern| - 1] else r.pattern
  }

  /** Whether a rule applies to a normalised path. Directory rules never apply to files. */
  predicate RuleMatches(r: Rule, path: string, isDir: bool)
  {
    if r.isDirectory && !isDir then false
    else
      var pattern := MatchPattern(r);
      if r.absolute then path == pattern || StartsWith(path, pattern + "/")
      else GlobMatches(path, pattern)
  }

  /** The verdict of the rules on a normalised path: the last rule that matches decides. */
  function Verdict(rules: seq<Rule>, path: string, isDir: bool): bool
  {
    if rules == [] then false
    else
      var last := rules[|rules| - 1];
      if RuleMatches(last, path, isDir) then !last.negate
      else Verdict(rules[..|rules| - 1], path, isDir)
  }

  /** Backslashes become slashes and leading slashes go. */
  function Normalize(path: string): string
  {
    LStripChar(ReplaceChar(path, '\\', '/'), '/')
  }

  /** `should_ignore`: no rules or an empty path are never ignored. */
  function Ignored(rules: seq<Rule>, path: string, isDir: bool): bool
  {
    if rules == [] || path == [] then false else Verdict(rules, Normalize(path), isDir)
  }

  /** The last matching rule decides, and with no matching rule nothing is ignored. */
  lemma {:induction false} LastMatchWins(rules: seq<Rule>, path: string, isDir: bool, j: int)
    requires -1 <= j < |rules|
    requires j >= 0 ==> RuleMatches(rules[j], path, isDir)
    requires forall k :: j < k < |rules| ==> !RuleMatches(rules[k], path, isDir)
    ensures Verdict(rules, path, isDir) == (j >= 0 && !rules[j].negate)
    decreases |rules|
  {
    if rules != [] && j < |rules| - 1 {
      var init := rules[..|rules| - 1];
      assert forall k :: j < k < |init| ==> init[k] == rules[k];
      LastMatchWins(init, path, isDir, j);
    }
  }

  /** An absolute rule covers its path and everything below it. */
  lemma AbsoluteCoversDescendants(r: Rule, rest: string, isDir: bool)
    requires r.absolute && (!r.isDirectory || isDir)
    ensures RuleMatches(r, MatchPattern(r), isDir)
    ensures RuleMatches(r, MatchPattern(r) + "/" + rest, isDir)
  {
    var p := MatchPattern(r);
    assert (p + "/" + rest)[..|p + "/"|] == p + "/";
  }

  /** A glob rule that matches a folder also matches everything inside it. */
  lemma GlobCoversDescendants(r: Rule, folder: string, rest: string, isDir: bool)
    requires !r.absolute && !r.isDirectory
    requires FnMatch(folder, MatchPattern(r))
    ensures RuleMatches(r, folder + "/" + rest, isDir)
  {
    var parts := Split(folder + "/" + rest, '/');
    var fp := Split(folder, '/');
    SplitAround(folder, rest, '/');
    var i := |fp| - 1;
    assert parts[..i + 1] == fp;
    JoinSplit(folder, '/');
    assert FnMatch(PrefixPath(parts, i), MatchPattern(r));
  }

  /** The folder a fresh `.syncignore` names, and the text written to it. */
  const GitDir := ".git"
  const DefaultRulesText := GitDir + "\n"

  /** A text holding one plain rule line defines exactly that rule. */
  lemma SingleRuleText(line: string)
    requires line != [] && !IsSpace(line[0]) && !IsSpace(line[|line| - 1])
    requires '\n' !in line && line[0] != '#' && line[0] != '!' && line[0] != '/'
    ensures RulesOf(line + "\n") == [Rule(line, false, EndsWith(line, "/"), !HasWildcard(line))]
  {
    StripTrailingNewline(line);
    SplitWithoutSeparator(line, '\n');
    assert Lines(line + "\n") == [line];
    StripKeepsTrimmed(line);
    assert ParseStripped(line) == Some(Rule(line, false, EndsWith(line, "/"), !HasWildcard(line))) by {
      assert !StartsWith(line, "/");
    }
    assert ParseLine(line) == ParseStripped(line);
    assert [line][..0] == [];
  }

  /** A trimmed line followed by a newline strips to the line. */
  lemma StripTrailingNewline(line: string)
    requires line != [] && !IsSpace(line[0]) && !IsSpace(line[|line| - 1])
    ensures Strip(line + "\n") == line
  {
    var t := line + "\n";
    assert LStrip(t) == t;
    assert t[..|t| - 1] == line;
    StripKeepsTrimmed(line);
  }

  /** A single plain rule ignores exactly its own path and what lies below it. */
  lemma OnePlainRule(rules: seq<Rule>, pattern: string, path: string, isDir: bool)
    requires rules == [Rule(pattern, false, false, true)] && !EndsWith(pattern, "/")
    requires path != []
    ensures Ignored(rules, path, isDir) <==>
      Normalize(path) == pattern || StartsWith(Normalize(path), pattern + "/")
  {
    assert MatchPattern(rules[0]) == pattern;
    if RuleMatches(rules[0], Normalize(path), isDir) {
      LastMatchWins(rules, Normalize(path), isDir, 0);
    } else {
      LastMatchWins(rules, Normalize(path), isDir, -1);
    }
  }

  /** A text of one plain rule line (no glob, not negated, not a directory rule) ignores
   *  exactly the rule's path and what lies below it. */
  lemma PlainRuleText(line: string, path: string, isDir: bool)
    requires line != [] && !IsSpace(line[0]) && !IsSpace(line[|line| - 1])
    requires '\n' !in line && line[0] != '#' && line[0] != '!' && line[0] != '/'
    requires !EndsWith(line, "/") && !HasWildcard(line) && path != []
    ensures Ignored(RulesOf(line + "\n"), path, isDir) <==>
      Normalize(path) == line || StartsWith(Normalize(path), line + "/")
  {
    SingleRuleText(line);
    OnePlainRule(RulesOf(line + "\n"), line, path, isDir);
  }

  lemma GitDirIsPlain(git: string)
    requires git == GitDir
    ensures git != [] && !IsSpace(git[0]) && !IsSpace(git[|git| - 1])
    ensures '\n' !in git && git[0] != '#' && git[0] != '!' && git[0] != '/'
    ensures !EndsWith(git, "/") && !HasWildcard(git)
    ensures git + "\n" == DefaultRulesText
  {
  }

  /** The default rules ignore exactly `.git` and what is inside it (for paths already in
   *  normal form): `.gitignore`, say, is kept. */
  lemma DefaultRulesIgnoreGit(git: string, path: string, isDir: bool)
    requires git == GitDir
    requires path != [] && path[0] != '/' && '\\' !in path
    ensures Ignored(RulesOf(git + "\n"), path, isDir) <==> path == git || StartsWith(path, git + "/")
  {
    GitDirIsPlain(git);
    PlainRuleText(git, path, isDir);
    NormalizeKeeps(path);
  }

  /** A path that starts with neither slash kind, and has no backslash, is already normal. */
  lemma NormalizeKeeps(path: string)
    requires path != [] && path[0] != '/' && '\\' !in path
    ensures Normalize(path) == path
  {
    var r := ReplaceChar(path, '\\', '/');
    assert r == path;
  }

  /** A directory-only rule never applies to a file, so the file remains ignored or not by
   *  the other rules alone: `build/` does not ignore the file `build/x.txt`. */
  lemma DirectoryRuleSkipsFiles(rules: seq<Rule>, path: string)
    requires rules == [Rule("build/", false, true, true)]
    ensures !Ignored(rules, path, false)
    ensures Ignored(rules, "build", true)
  {
    LastMatchWins(rules, Normalize(path), false, -1);
    assert MatchPattern(rules[0]) == "build";
    var b := "build";
    assert ReplaceChar(b, '\\', '/') == b;
    assert LStripChar(b, '/') == b;
    LastMatchWins(rules, b, true, 0);
  }

  // ---------------------------------------------------------------- SyncIgnore

  /** The rule set of one project. */
  class SyncIgnore {
    var rules: seq<Rule>

    constructor(text: string)
      ensures rules == RulesOf(text)
    {
      rules := RulesOf(text);
    }

    /** Replace the rules by those of `text`. */
    method ParseRules(text: string)
      modifies this
      ensures rules == RulesOf(text)
    {
      rules := [];
      if text == [] {
        return;
      }
      var lines := Split(Strip(text), '\n');
      var i := 0;
      while i < |lines|
        invariant 0 <= i <= |lines|
        invariant rules == RulesOfLines(lines[..i])
      {
        assert lines[..i + 1][..i] == lines[..i];
        var r := ParseLine(lines[i]);
        if r.Some? {
          rules := rules + [r.value];
        }
        i := i + 1;
      }
      assert lines[..i] == lines;
    }

    /** Whether `path` is ignored: the verdict of the last rule that applies. */
    method ShouldIgnore(filePath: string, isDir: bool) returns (ignored: bool)
      ensures ignored == Ignored(rules, filePath, isDir)
    {
      if rules == [] || filePath == [] {
        return false;
      }
      var path := Normalize(filePath);
      ignored := false;
      var n := 0;
      while n < |rules|
        invariant 0 <= n <= |rules|
        invariant ignored == Verdict(rules[..n], path, isDir)
      {
        assert rules[..n + 1][..n] == rules[..n];
        var rule := rules[n];
        if rule.isDirectory && !isDir {
          n := n + 1;
          continue;
        }
        var matched := RuleMatchesPath(rule, path, isDir);
        if matched {
          ignored := !rule.negate;
        }
        n := n + 1;
      }
      assert rules[..n] == rules;
    }
  }

  /** The match test of one rule, with the loop over leading path prefixes. */
  method RuleMatchesPath(rule: Rule, path: string, isDir: bool) returns (matched: bool)
    requires !rule.isDirectory || isDir
    ensures matched == RuleMatches(rule, path, isDir)
  {
    var pattern := MatchPattern(rule);
    if rule.absolute {
      return path == pattern || StartsWith(path, pattern + "/");
    }
    matched := GlobMatchesPath(path, pattern);
  }

  /** The glob test. */
  method GlobMatchesPath(path: string, pattern: string) returns (matched: bool)
    ensures matched == GlobMatches(path, pattern)
  {
    if FnMatch(path, pattern) || FnMatch(Basename(path), pattern) {
      return true;
    }
    var parts := Split(path, '/');
    matched := AnyPrefix(parts, name => FnMatch(name, pattern));
  }

  /** The loop over the leading path prefixes: whether `test` holds for one of them, tried
   *  from the shortest on. */
  method AnyPrefix(parts: seq<string>, test: string -> bool) returns (found: bool)
    ensures found <==> exists i :: 0 <= i < |parts| && test(PrefixPath(parts, i))
  {
    var i := 0;
    while i < |parts|
      invariant 0 <= i <= |parts|
      invariant forall k :: 0 <= k < i ==> !test(PrefixPath(parts, k))
    {
      if test(PrefixPath(parts, i)) {
        return true;
      }
      i := i + 1;
    }
    return false;
  }
}
