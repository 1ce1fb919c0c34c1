/** The configuration part of the installer (`FacoWeeklySetup`): parsing the lines
    of a `.env` file, the per-mode server settings, and the check for critical
    variables. */
module EnvSetup {
  import opened Common

  // ---------------------------------------------------------------------------
  // str.strip
  // ---------------------------------------------------------------------------

  /** Python's `str.isspace()` for one character. */
  predicate IsSpace(c: char) {
    ('\t' <= c <= '\r') || ('\U{1c}' <= c <= ' ') || c == '\U{85}' || c == '\U{a0}' || c == '\U{1680}'
    || ('\U{2000}' <= c <= '\U{200a}') || c == '\U{2028}' || c == '\U{2029}' || c == '\U{202f}' || c == '\U{205f}' || c == '\U{3000}'
  }

  /** The characters of `strip('"\'')`. */
  predicate IsQuote(c: char) {
    c == '"' || c == '\''
  }

  /** Drops the leading characters satisfying `p`. */
  function TrimLeft(s: string, p: char -> bool): (r: string)
    ensures |r| <= |s|
    ensures r == [] || !p(r[0])
  {
    if s == [] || !p(s[0]) then s else TrimLeft(s[1..], p)
  }

  /** Drops the trailing characters satisfying `p`. */
  function TrimRight(s: string, p: char -> bool): (r: string)
    ensures |r| <= |s|
    ensures r == [] || !p(r[|r| - 1])
  {
    if s == [] || !p(s[|s| - 1]) then s else TrimRight(s[..|s| - 1], p)
  }

  /** What `TrimLeft` keeps is a suffix, and only `p` characters were dropped. */
  lemma {:induction false} TrimLeftDropsOnlyP(s: string, p: char -> bool)
    ensures TrimLeft(s, p) == s[|s| - |TrimLeft(s, p)|..]
    ensures forall i :: 0 <= i < |s| - |TrimLeft(s, p)| ==> p(s[i])
  {
    if s != [] && p(s[0]) {
      TrimLeftDropsOnlyP(s[1..], p);
      assert s[1..][|s[1..]| - |TrimLeft(s, p)|..] == s[|s| - |TrimLeft(s, p)|..];
      assert forall i :: 1 <= i < |s| ==> s[i] == s[1..][i - 1];
    }
  }

  /** What `TrimRight` keeps is a prefix, and only `p` characters were dropped. */
  lemma {:induction false} TrimRightDropsOnlyP(s: string, p: char -> bool)
    ensures TrimRight(s, p) == s[..|TrimRight(s, p)|]
    ensures forall i :: |TrimRight(s, p)| <= i < |s| ==> p(s[i])
  {
    if s != [] && p(s[|s| - 1]) {
      TrimRightDropsOnlyP(s[..|s| - 1], p);
      assert s[..|s| - 1][..|TrimRight(s, p)|] == s[..|TrimRight(s, p)|];
      assert forall i :: 0 <= i < |s| - 1 ==> s[i] == s[..|s| - 1][i];
    }
  }

  /** `s.strip()` (with `p` = whitespace) or `s.strip(chars)`. */
  function Strip(s: string, p: char -> bool): (r: string)
    ensures |r| <= |s|
    ensures r == [] || (!p(r[0]) && !p(r[|r| - 1]))
  {
    var l := TrimLeft(s, p);
    TrimRightDropsOnlyP(l, p);
    TrimRight(l, p)
  }

  /** What `strip` keeps is the contiguous piece of `s` after its leading run of `p`
      characters. */
  lemma StripKeepsInfix(s: string, p: char -> bool)
    ensures var r, a := Strip(s, p), |s| - |TrimLeft(s, p)|;
            a + |r| <= |s| && r == s[a..a + |r|]
  {
    var l := TrimLeft(s, p);
    var r := Strip(s, p);
    var a := |s| - |l|;
    assert r == TrimRight(l, p);
    assert l == s[a..] by {
      TrimLeftDropsOnlyP(s, p);
    }
    assert r == l[..|r|] && |r| <= |l| by {
      TrimRightDropsOnlyP(l, p);
    }
    assert r == s[a..][..|r|];
    PrefixOfSuffix(s, a, |r|);
  }

  /** Only `p` characters are cut off, on either side of what `strip` keeps. */
  lemma StripCutsOnly(s: string, p: char -> bool)
    ensures var r, a := Strip(s, p), |s| - |TrimLeft(s, p)|;
            && (forall i :: 0 <= i < a ==> p(s[i]))
            && (forall i :: a + |r| <= i < |s| ==> p(s[i]))
  {
    var l := TrimLeft(s, p);
    var r := Strip(s, p);
    var a := |s| - |l|;
    assert r == TrimRight(l, p);
    assert l == s[a..] && forall i :: 0 <= i < a ==> p(s[i]) by {
      TrimLeftDropsOnlyP(s, p);
    }
    assert forall i :: |r| <= i < |l| ==> p(l[i]) by {
      TrimRightDropsOnlyP(l, p);
    }
    forall i | a + |r| <= i < |s| ensures p(s[i]) {
      assert s[i] == l[i - a];
    }
  }

  lemma PrefixOfSuffix(s: string, a: int, k: int)
    requires 0 <= a && 0 <= k && a + k <= |s|
    ensures s[a..][..k] == s[a..a + k]
  {
  }

  lemma TrimLeftNoop(s: string, p: char -> bool)
    requires s == [] || !p(s[0])
    ensures TrimLeft(s, p) == s
  {
  }

  lemma TrimRightNoop(s: string, p: char -> bool)
    requires s == [] || !p(s[|s| - 1])
    ensures TrimRight(s, p) == s
  {
  }

  /** Stripping twice is stripping once. */
  lemma StripIdempotent(s: string, p: char -> bool)
    ensures Strip(Strip(s, p), p) == Strip(s, p)
  {
    var r := Strip(s, p);
    TrimLeftNoop(r, p);
    TrimRightNoop(r, p);
  }

  // ---------------------------------------------------------------------------
  // One line of a .env file
  // ---------------------------------------------------------------------------

  /** The position of the first '='. */
  function FirstEq(s: string): (i: int)
    requires '=' in s
    ensures 0 <= i < |s| && s[i] == '=' && '=' !in s[..i]
  {
    if s[0] == '=' then 0
    else
      assert s == [s[0]] + s[1..];
      var i := 1 + FirstEq(s[1..]);
      assert s[..i] == [s[0]] + s[1..][..i - 1];
      i
  }

  /** A stripped line that sets a variable: not blank, not a comment, holding '='. */
  predicate IsAssignment(line: string) {
    line != [] && line[0] != '#' && '=' in line
  }

  /** What an assignment line sets: the text before the first '=' as key (not
      stripped) and the rest, with surrounding quotes stripped, as value. */
  function SplitAssignment(line: string): (string, string)
    requires '=' in line
  {
    var i := FirstEq(line);
    (line[..i], Strip(line[i + 1..], IsQuote))
  }

  /** What one raw line contributes. */
  function ParseLine(raw: string): Option<(string, string)> {
    var line := Strip(raw, IsSpace);
    if IsAssignment(line) then Some(SplitAssignment(line)) else None
  }

  /** The dict built from a sequence of line contributions: later ones overwrite. */
  function Fold(entries: seq<Option<(string, string)>>): map<string, string> {
    if entries == [] then map[]
    else
      var m := Fold(entries[..|entries| - 1]);
      var e := entries[|entries| - 1];
      if e.Some? then m[e.value.0 := e.value.1] else m
  }

  function Parsed(lines: seq<string>): (entries: seq<Option<(string, string)>>)
    ensures |entries| == |lines|
  {
    seq(|lines|, i requires 0 <= i < |lines| => ParseLine(lines[i]))
  }

  /** `env_vars` after the given lines. */
  function ReadEnv(lines: seq<string>): map<string, string> {
    Fold(Parsed(lines))
  }

  // ---------------------------------------------------------------------------
  // Properties of line parsing
  // ---------------------------------------------------------------------------

  /** Blank lines, comments and lines without '=' are exactly the lines that set
      nothing, and reading one leaves `env_vars` as it was. */
  lemma SkippedLines(lines: seq<string>, raw: string)
    ensures var line := Strip(raw, IsSpace);
            (line == [] || line[0] == '#' || '=' !in line) <==> ParseLine(raw) == None
    ensures ParseLine(raw) == None ==> ReadEnv(lines + [raw]) == ReadEnv(lines)
  {
    assert Parsed(lines + [raw]) == Parsed(lines) + [ParseLine(raw)];
    assert (Parsed(lines) + [ParseLine(raw)])[..|lines|] == Parsed(lines);
  }

  /** A parsed key has no '=', the stripped line is key, '=', raw value; the value is
      that raw value with the surrounding quotes stripped, and may itself hold '='. */
  lemma ParsedLineShape(raw: string)
    requires ParseLine(raw).Some?
    ensures var kv := ParseLine(raw).value;
            exists rest :: Strip(raw, IsSpace) == kv.0 + "=" + rest && kv.1 == Strip(rest, IsQuote) && '=' !in kv.0
  {
    var line := Strip(raw, IsSpace);
    var i := FirstEq(line);
    assert line == line[..i] + "=" + line[i + 1..];
  }

  /** Writing `key=value` and reading it back gives the same pair, when the key
      starts the line with no whitespace, '#' or '=' in it, and the value does not
      start or end with a quote or end with whitespace. */
  lemma ParseLineRoundTrip(key: string, value: string)
    requires key == [] || (!IsSpace(key[0]) && key[0] != '#')
    requires '=' !in key
    requires value == [] || (!IsQuote(value[0]) && !IsQuote(value[|value| - 1]) && !IsSpace(value[|value| - 1]))
    ensures ParseLine(key + "=" + value) == Some((key, value))
  {
    var line := key + "=" + value;
    assert line[|key|] == '=';
    assert line[0] == if key == [] then '=' else key[0];
    assert line[|line| - 1] == if value == [] then '=' else value[|value| - 1];
    TrimLeftNoop(line, IsSpace);
    TrimRightNoop(line, IsSpace);
    assert Strip(line, IsSpace) == line;
    var i := FirstEq(line);
    assert line[..|key|] == key;
    assert i == |key|;
    assert line[..i] == key;
    assert line[i + 1..] == value;
    TrimLeftNoop(value, IsQuote);
    TrimRightNoop(value, IsQuote);
  }

  /** Entry `e` sets `key`. */
  predicate Sets(e: Option<(string, string)>, key: string) {
    e.Some? && e.value.0 == key
  }

  /** No entry after position `i` sets `key`. */
  predicate LastSetting(entries: seq<Option<(string, string)>>, i: int, key: string) {
    forall j :: 0 <= j < |entries| && i < j ==> !Sets(entries[j], key)
  }

  /** A key is present exactly when some entry sets it. */
  lemma {:induction false} FoldKeys(entries: seq<Option<(string, string)>>, key: string)
    ensures key in Fold(entries) <==> exists i :: 0 <= i < |entries| && Sets(entries[i], key)
  {
    if entries != [] {
      var pre := entries[..|entries| - 1];
      FoldKeys(pre, key);
      ExistsSnoc(entries, pre, (e: Option<(string, string)>) => Sets(e, key), true);
    }
  }

  /** A present key holds the value of the last entry that sets it. */
  lemma {:induction false} FoldLastValue(entries: seq<Option<(string, string)>>, key: string)
    requires key in Fold(entries)
    ensures exists i :: 0 <= i < |entries| && entries[i] == Some((key, Fold(entries)[key])) && LastSetting(entries, i, key)
  {
    assert entries != [];
    var n := |entries| - 1;
    var pre := entries[..n];
    if Sets(entries[n], key) {
      assert entries[n] == Some((key, Fold(entries)[key]));
      assert LastSetting(entries, n, key);
    } else {
      assert key in Fold(pre) && Fold(entries)[key] == Fold(pre)[key];
      FoldLastValue(pre, key);
      var i :| 0 <= i < |pre| && pre[i] == Some((key, Fold(pre)[key])) && LastSetting(pre, i, key);
      assert entries[i] == pre[i];
      assert LastSetting(entries, i, key) by {
        forall j | 0 <= j < |entries| && i < j ensures !Sets(entries[j], key) {
          if j < n {
            assert entries[j] == pre[j];
          }
        }
      }
    }
  }

  /** Over the lines of a file: a key is present exactly when some line sets it, and
      holds the value of the last line that does. */
  lemma ReadEnvLastWins(lines: seq<string>, key: string)
    ensures key in ReadEnv(lines) <==> exists i :: 0 <= i < |lines| && Sets(ParseLine(lines[i]), key)
    ensures key in ReadEnv(lines) ==>
              exists i :: 0 <= i < |lines| && ParseLine(lines[i]) == Some((key, ReadEnv(lines)[key]))
                && LastSetting(Parsed(lines), i, key)
  {
    var entries := Parsed(lines);
    assert forall i :: 0 <= i < |lines| ==> entries[i] == ParseLine(lines[i]);
    FoldKeys(entries, key);
    if key in ReadEnv(lines) {
      FoldLastValue(entries, key);
    }
  }

  /** A key with spaces around '=' is read with its trailing space and the value with
      its leading space, so the quote after that space stays. */
  lemma SpacedAssignmentKeepsSpaces()
    ensures ParseLine(" K = 'v'\n") == Some(("K ", " 'v"))
  {
    var raw := " K = 'v'\n";
    var line := "K = 'v'";
    assert raw[1..] == line + "\n";
    TrimLeftNoop(line + "\n", IsSpace);
    assert TrimLeft(raw, IsSpace) == line + "\n";
    assert (line + "\n")[..|line|] == line;
    TrimRightNoop(line, IsSpace);
    assert Strip(raw, IsSpace) == line;
    assert FirstEq(line) == 2 by {
      assert line[..2] == "K ";
    }
    assert line[..2] == "K ";
    var rest := line[3..];
    assert rest == " 'v'";
    TrimLeftNoop(rest, IsQuote);
    assert rest[..|rest| - 1] == " 'v";
    TrimRightNoop(" 'v", IsQuote);
  }

  // ---------------------------------------------------------------------------
  // The loop over the file's lines
  // ---------------------------------------------------------------------------

  /** The body of the loop: strip the line and, if it is an assignment, split it at
      the first '=' and strip the quotes from the value. Its result is the entry
      `ParseLine` specifies, whose shape `ParsedLineShape` and `ParseLineRoundTrip` prove. */
  method ParseEnvLine(raw: string) returns (entry: Option<(string, string)>)
    ensures entry == ParseLine(raw)
  {
    var line := Strip(raw, IsSpace);
    if line != [] && line[0] != '#' && '=' in line {
      var eq := FirstEq(line);
      var key, value := line[..eq], line[eq + 1..];
      entry := Some((key, Strip(value, IsQuote)));
    } else {
      entry := None;
    }
  }

  /** `_read_env_file` over the lines already read from the file. */
  method ReadEnvFile(lines: seq<string>) returns (envVars: map<string, string>)
    ensures envVars == ReadEnv(lines)
  {
    ghost var entries := Parsed(lines);
    envVars := map[];
    var i := 0;
    while i < |lines|
      invariant 0 <= i <= |lines|
      invariant envVars == Fold(entries[..i])
    {
      assert entries[..i + 1][..i] == entries[..i];
      var entry := ParseEnvLine(lines[i]);
      assert entry == entries[i];
      if entry.Some? {
        envVars := envVars[entry.value.0 := entry.value.1];
      }
      i := i + 1;
    }
    assert entries[..i] == entries;
  }

  // ---------------------------------------------------------------------------
  // _load_config
  // ---------------------------------------------------------------------------

  /** The server settings of one mode. */
  datatype ServerConfig = ServerConfig(host: string, port: int, reload: bool, logLevel: string, workers: int)

  const DevelopmentConfig := ServerConfig("0.0.0.0", 8000, true, "info", 1)
  const ProductionConfig := ServerConfig("0.0.0.0", 8000, false, "warning", 4)
  const TestingConfig := ServerConfig("127.0.0.1", 8001, true, "debug", 1)

  /** `configs.get(mode, configs["development"])`. */
  function LoadConfig(mode: string): ServerConfig {
    if mode == "production" then ProductionConfig
    else if mode == "testing" then TestingConfig
    else DevelopmentConfig
  }

  /** The three named modes get their own settings, and any other mode the
      development ones; only production runs several workers without reload. */
  lemma LoadConfigTable(mode: string)
    ensures mode !in {"development", "production", "testing"} ==> LoadConfig(mode) == LoadConfig("development")
    ensures LoadConfig(mode).workers >= 1
    ensures LoadConfig(mode).reload <==> mode != "production"
    ensures LoadConfig(mode).port == (if mode == "testing" then 8001 else 8000)
  {
  }

  // ---------------------------------------------------------------------------
  // The critical-variable check
  // ---------------------------------------------------------------------------

  const CriticalVars: seq<string> := ["BIGQUERY_PROJECT_ID", "BIGQUERY_DATASET"]

  /** `var not in env_vars or not env_vars[var]`. */
  predicate IsMissing(env: map<string, string>, v: string) {
    v !in env || env[v] == ""
  }

  /** The variables of `vars` that are missing, in the order of `vars`. */
  function MissingOf(vars: seq<string>, env: map<string, string>): (r: seq<string>)
    ensures forall v :: v in r <==> v in vars && IsMissing(env, v)
  {
    if vars == [] then []
    else
      assert vars == vars[..|vars| - 1] + [vars[|vars| - 1]];
      MissingOf(vars[..|vars| - 1], env) + (if IsMissing(env, vars[|vars| - 1]) then [vars[|vars| - 1]] else [])
  }

  /** The loop that collects `missing_vars`. */
  method MissingCriticalVars(env: map<string, string>) returns (missing: seq<string>)
    ensures missing == MissingOf(CriticalVars, env)
  {
    missing := [];
    var i := 0;
    while i < |CriticalVars|
      invariant 0 <= i <= |CriticalVars|
      invariant missing == MissingOf(CriticalVars[..i], env)
    {
      assert CriticalVars[..i + 1][..i] == CriticalVars[..i];
      var v := CriticalVars[i];
      if v !in env || env[v] == "" {
        missing := missing + [v];
      }
      i := i + 1;
    }
    assert CriticalVars[..i] == CriticalVars;
  }

  /** The report lists the project id first and the dataset second, each exactly
      when it is absent or empty. */
  lemma MissingCriticalOrder(env: map<string, string>)
    ensures MissingOf(CriticalVars, env)
         == (if IsMissing(env, "BIGQUERY_PROJECT_ID") then ["BIGQUERY_PROJECT_ID"] else [])
            + (if IsMissing(env, "BIGQUERY_DATASET") then ["BIGQUERY_DATASET"] else [])
  {
    var p, d := "BIGQUERY_PROJECT_ID", "BIGQUERY_DATASET";
    assert CriticalVars[..1] == [p];
    assert [p][..0] == [];
    assert MissingOf([p], env) == MissingOf([], env) + (if IsMissing(env, p) then [p] else []);
    assert MissingOf(CriticalVars, env) == MissingOf([p], env) + (if IsMissing(env, d) then [d] else []);
  }

  /** Reading a file and checking it: a critical variable is reported exactly when no
      line sets it or the line that sets it last gives it an empty value. */
  lemma MissingAfterReading(lines: seq<string>, v: string)
    requires v in CriticalVars
    ensures v in MissingOf(CriticalVars, ReadEnv(lines)) <==>
              (forall i :: 0 <= i < |lines| ==> !Sets(ParseLine(lines[i]), v))
              || exists i :: 0 <= i < |lines| && ParseLine(lines[i]) == Some((v, "")) && LastSetting(Parsed(lines), i, v)
  {
    ReadEnvLastWins(lines, v);
    var env := ReadEnv(lines);
    var entries := Parsed(lines);
    if exists i :: 0 <= i < |lines| && ParseLine(lines[i]) == Some((v, "")) && LastSetting(entries, i, v) {
      var i :| 0 <= i < |lines| && ParseLine(lines[i]) == Some((v, "")) && LastSetting(entries, i, v);
      var k :| 0 <= k < |lines| && ParseLine(lines[k]) == Some((v, env[v])) && LastSetting(entries, k, v);
      assert Sets(entries[i], v) && Sets(entries[k], v);
      assert i == k;
    }
  }

}
