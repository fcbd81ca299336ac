/**
 * `LoadEnvFile` of `pkg/utils/load_env.go`: reads `.env` line by line and
 * sets one environment variable per `KEY=value` line. The file system is a
 * parameter (`EnvFile`) and the process environment is a map the loader
 * returns, updated the way `os.Setenv` updates it on Unix.
 */
module EnvFile {
  import opened Wrappers
  import opened Text

  /** What `os.Open(".env")` and the scanner yield: the lines read, and whether the scan stopped on an error. */
  datatype EnvFile = Unreadable | Readable(lines: seq<string>, scanFailed: bool)

  predicate IsDoubleQuote(c: char) { c == '"' }
  predicate IsSingleQuote(c: char) { c == '\'' }

  /**
   * The quote removal: a value that starts and ends with a double quote loses
   * every double quote at both ends, as `strings.Trim` does; otherwise one
   * that starts and ends with a single quote loses every single quote at both
   * ends. A lone quote counts as starting and ending with it. Anything else is
   * kept as it is.
   */
  function Unquote(v: string): (r: string)
    ensures (v == [] || (v[0] != '"' && v[0] != '\'') || v[0] != v[|v| - 1]) ==> r == v
  {
    if |v| >= 1 && v[0] == '"' && v[|v| - 1] == '"' then Trim(v, IsDoubleQuote)
    else if |v| >= 1 && v[0] == '\'' && v[|v| - 1] == '\'' then Trim(v, IsSingleQuote)
    else v
  }

  /**
   * An enclosed value loses the enclosing quote runes from both ends and
   * nothing else, and what is left no longer starts or ends with that quote.
   */
  lemma UnquoteStrips(v: string)
    ensures |Unquote(v)| <= |v|
    ensures |v| >= 1 && v[0] == '"' && v[|v| - 1] == '"' ==>
      var r := Unquote(v); StripsEnds(v, r, IsDoubleQuote) && (r == [] || (r[0] != '"' && r[|r| - 1] != '"'))
    ensures |v| >= 1 && v[0] == '\'' && v[|v| - 1] == '\'' ==>
      var r := Unquote(v); StripsEnds(v, r, IsSingleQuote) && (r == [] || (r[0] != '\'' && r[|r| - 1] != '\''))
  {
    if |v| >= 1 && v[0] == '"' && v[|v| - 1] == '"' {
      TrimQuote(v, '"', IsDoubleQuote);
    } else if |v| >= 1 && v[0] == '\'' && v[|v| - 1] == '\'' {
      TrimQuote(v, '\'', IsSingleQuote);
    }
  }

  /** `Trim` of the runes equal to `q` strips them and leaves no `q` at either end. */
  lemma TrimQuote(v: string, q: char, drop: char -> bool)
    requires forall c :: drop(c) <==> c == q
    ensures var r := Trim(v, drop); StripsEnds(v, r, drop) && (r == [] || (r[0] != q && r[|r| - 1] != q))
  {
    TrimStrips(v, drop);
  }

  /** A lone quote counts as enclosed, and becomes empty. */
  lemma UnquoteLoneQuote(q: char)
    requires q == '"' || q == '\''
    ensures Unquote([q]) == ""
  {
    if q == '"' {
      TrimExact([q], IsDoubleQuote, 1, 1);
    } else {
      TrimExact([q], IsSingleQuote, 1, 1);
    }
  }

  /** Every enclosing double quote goes, not just one pair. */
  lemma UnquoteRepeated(value: string)
    requires value == [] || (value[0] != '"' && value[|value| - 1] != '"')
    ensures Unquote("\"\"" + value + "\"\"") == value
  {
    var quoted := "\"\"" + value + "\"\"";
    assert quoted[2..|quoted| - 2] == value;
    TrimExact(quoted, IsDoubleQuote, 2, |quoted| - 2);
  }

  /** Double quotes are tried first, and single quotes inside them stay. */
  lemma UnquoteDoubleFirst(value: string)
    ensures Unquote("\"'" + value + "'\"") == "'" + value + "'"
  {
    assert "\"'" + value + "'\"" == "\"" + ("'" + value + "'") + "\"";
    UnquoteEnclosed("'" + value + "'");
  }

  /**
   * The key and value of an assignment line: the line cut at its first '='
   * at `e`, both sides trimmed, the value unquoted.
   */
  ghost predicate AssignmentAt(line: string, e: int, kv: (string, string)) {
    && 0 <= e < |line| && line[e] == '=' && '=' !in line[..e]
    && kv == (TrimSpace(line[..e]), Unquote(TrimSpace(line[e + 1..])))
  }

  /**
   * One line of the file: None for a blank line, a comment, or a line
   * without '='; otherwise the trimmed key before the first '=' and the
   * trimmed, unquoted value after it.
   */
  function ParseLine(raw: string): (r: Option<(string, string)>)
    ensures r.Some? ==> '=' !in r.value.0
  {
    var line := TrimSpace(raw);
    if line == [] || line[0] == '#' then None
    else match Cut(line, '=')
      case None => None
      case Some((before, after)) =>
        TrimSpaceInside(before, '=');
        Some((TrimSpace(before), Unquote(TrimSpace(after))))
  }

  /**
   * A line is an assignment exactly when, trimmed, it is neither empty nor a
   * comment and it holds '='; it then splits at its first '='.
   */
  lemma ParseLineCases(raw: string)
    ensures ParseLine(raw).Some? <==> TrimSpace(raw) != [] && TrimSpace(raw)[0] != '#' && '=' in raw
    ensures ParseLine(raw).Some? ==> exists e :: AssignmentAt(TrimSpace(raw), e, ParseLine(raw).value)
  {
    var line := TrimSpace(raw);
    TrimSpaceInside(raw, '=');
    if line != [] && line[0] != '#' && '=' in line {
      var (before, after) := Cut(line, '=').value;
      assert line[..|before|] == before && line[|before| + 1..] == after;
      assert AssignmentAt(line, |before|, ParseLine(raw).value);
    }
  }

  /** Trimming spaces keeps every rune that is not a space. */
  lemma TrimSpaceInside(s: string, c: char)
    requires !IsSpace(c)
    ensures c in TrimSpace(s) <==> c in s
  {
    TrimSpaceStrips(s);
    StripsEndsKeeps(s, TrimSpace(s), IsSpace, c);
  }

  /** What `os.Setenv` accepts on Unix: a non-empty key without '=' or NUL, and a value without NUL. */
  predicate SetenvAccepts(key: string, value: string) {
    key != [] && '=' !in key && '\0' !in key && '\0' !in value
  }

  /** The environment after one line; a refused `os.Setenv` leaves it as it was, and its error is dropped. */
  function ApplyLine(env: map<string, string>, raw: string): (r: map<string, string>)
    ensures ParseLine(raw).None? ==> r == env
    ensures ParseLine(raw).Some? ==> r.Keys <= env.Keys + {ParseLine(raw).value.0}
    ensures ParseLine(raw).Some? && SetenvAccepts(ParseLine(raw).value.0, ParseLine(raw).value.1) ==>
      ParseLine(raw).value.0 in r && r[ParseLine(raw).value.0] == ParseLine(raw).value.1
    ensures ParseLine(raw).Some? && !SetenvAccepts(ParseLine(raw).value.0, ParseLine(raw).value.1) ==> r == env
    ensures forall k :: k in env && (ParseLine(raw).None? || k != ParseLine(raw).value.0) ==> k in r && r[k] == env[k]
  {
    ApplyParsed(env, ParseLine(raw))
  }

  /**
   * `os.Setenv(key, value)` for a parsed line: the key gets the value when
   * Setenv accepts the pair, and every other key keeps its value.
   */
  function ApplyParsed(env: map<string, string>, parsed: Option<(string, string)>): (r: map<string, string>)
    ensures parsed.None? ==> r == env
    ensures parsed.Some? && SetenvAccepts(parsed.value.0, parsed.value.1) ==>
      parsed.value.0 in r && r[parsed.value.0] == parsed.value.1 && r.Keys == env.Keys + {parsed.value.0}
    ensures parsed.Some? && !SetenvAccepts(parsed.value.0, parsed.value.1) ==> r == env
    ensures forall k :: k in env && (parsed.None? || k != parsed.value.0) ==> k in r && r[k] == env[k]
  {
    if parsed.None? then env
    else if SetenvAccepts(parsed.value.0, parsed.value.1) then env[parsed.value.0 := parsed.value.1]
    else env
  }

  /** The environment after the lines, in file order. */
  function ApplyLines(env: map<string, string>, lines: seq<string>): map<string, string> {
    if lines == [] then env else ApplyLine(ApplyLines(env, lines[..|lines| - 1]), lines[|lines| - 1])
  }

  /**
   * `LoadEnvFile`: an unopenable file is an error and sets nothing; otherwise
   * every line is applied in order and the scanner's error, if any, is
   * returned after the lines read before it.
   */
  method LoadEnvFile(env: map<string, string>, file: EnvFile) returns (env': map<string, string>, failed: bool)
    ensures file.Unreadable? ==> env' == env && failed
    ensures file.Readable? ==> env' == ApplyLines(env, file.lines) && failed == file.scanFailed
  {
    if file.Unreadable? {
      return env, true;
    }
    env' := env;
    var i := 0;
    while i < |file.lines|
      invariant 0 <= i <= |file.lines|
      invariant env' == ApplyLines(env, file.lines[..i])
    {
      ApplyLinesStep(env, file.lines, i);
      ghost var before := env';
      // trim, skip blanks and comments, cut at the first '=', trim and unquote
      var parsed := ParseLine(file.lines[i]);
      if parsed.Some? {
        var (key, value) := parsed.value;
        if SetenvAccepts(key, value) {
          env' := env'[key := value];
        }
      }
      assert env' == ApplyLine(before, file.lines[i]);
      i := i + 1;
    }
    assert file.lines[..|file.lines|] == file.lines;
    failed := file.scanFailed;
  }

  lemma ApplyLinesStep(env: map<string, string>, lines: seq<string>, i: nat)
    requires i < |lines|
    ensures ApplyLines(env, lines[..i + 1]) == ApplyLine(ApplyLines(env, lines[..i]), lines[i])
  {
    assert lines[..i + 1][..i] == lines[..i];
  }

  /** Applying a file in two pieces is applying it whole. */
  lemma {:induction false} ApplyLinesAppend(env: map<string, string>, a: seq<string>, b: seq<string>)
    ensures ApplyLines(env, a + b) == ApplyLines(ApplyLines(env, a), b)
  {
    if b == [] {
      assert a + b == a;
    } else {
      assert (a + b)[..|a + b| - 1] == a + b[..|b| - 1];
      ApplyLinesAppend(env, a, b[..|b| - 1]);
    }
  }

  /** A line that `os.Setenv` does not apply to `key` leaves the value of `key` as it was. */
  predicate LeavesKey(raw: string, key: string) {
    ParseLine(raw).None? || ParseLine(raw).value.0 != key || !SetenvAccepts(ParseLine(raw).value.0, ParseLine(raw).value.1)
  }

  /** Lines that all leave `key` alone keep its value, whatever else they set. */
  lemma {:induction false} KeepsOver(env: map<string, string>, lines: seq<string>, key: string)
    requires key in env
    requires forall k :: 0 <= k < |lines| ==> LeavesKey(lines[k], key)
    ensures key in ApplyLines(env, lines) && ApplyLines(env, lines)[key] == env[key]
  {
    if lines != [] {
      KeepsOver(env, lines[..|lines| - 1], key);
      assert LeavesKey(lines[|lines| - 1], key);
    }
  }

  /**
   * Of several lines setting the same key, the last accepted one wins: the
   * lines after it may set other keys, or be refused, but not set this one.
   */
  lemma LastAssignmentWins(env: map<string, string>, lines: seq<string>, rest: seq<string>, key: string, value: string)
    requires |lines| >= 1 && ParseLine(lines[|lines| - 1]) == Some((key, value)) && SetenvAccepts(key, value)
    requires forall k :: 0 <= k < |rest| ==> LeavesKey(rest[k], key)
    ensures key in ApplyLines(env, lines + rest) && ApplyLines(env, lines + rest)[key] == value
  {
    ApplyLinesAppend(env, lines, rest);
    KeepsOver(ApplyLines(env, lines), rest, key);
  }

  /**
   * A parsed key never holds '=', so `os.Setenv` refuses a parsed line
   * exactly when its key is empty (a line such as "=value") or the key or
   * the value holds a NUL.
   */
  lemma ParsedKeyRefused(raw: string)
    requires ParseLine(raw).Some?
    ensures var (key, value) := ParseLine(raw).value;
      !SetenvAccepts(key, value) <==> key == [] || '\0' in key || '\0' in value
  {
  }

  /** Blank lines, comments and lines without '=' change nothing. */
  lemma {:induction false} IgnoredLines(env: map<string, string>, lines: seq<string>)
    requires forall k :: 0 <= k < |lines| ==> ParseLine(lines[k]).None?
    ensures ApplyLines(env, lines) == env
  {
    if lines != [] {
      IgnoredLines(env, lines[..|lines| - 1]);
    }
  }

  /** Every rune of `p` is a space. */
  ghost predicate Blank(p: string) {
    forall k :: 0 <= k < |p| ==> IsSpace(p[k])
  }

  /**
   * An assignment with spaces around the line, the key and the value parses
   * to the key and the unquoted value; the value may itself hold '='.
   */
  lemma ParseSpaced(pad1: string, key: string, pad2: string, pad3: string, value: string, pad4: string)
    requires Blank(pad1) && Blank(pad2) && Blank(pad3) && Blank(pad4)
    requires key != [] && '=' !in key && key[0] != '#'
    requires !IsSpace(key[0]) && !IsSpace(key[|key| - 1])
    requires value != [] && !IsSpace(value[0]) && !IsSpace(value[|value| - 1])
    ensures ParseLine(pad1 + key + pad2 + "=" + pad3 + value + pad4) == Some((key, Unquote(value)))
  {
    var raw := pad1 + key + pad2 + "=" + pad3 + value + pad4;
    var line := key + pad2 + "=" + pad3 + value;
    TrimAssignment(pad1, key, pad2, pad3, value, pad4);
    CutAssignment(key, pad2, pad3, value);
    TrimSpaceBetween([], key, pad2);
    assert [] + key + pad2 == key + pad2;
    TrimSpaceBetween(pad3, value, []);
    assert pad3 + value + [] == pad3 + value;
    assert line[0] == key[0];
    ParseLineOf(raw, key + pad2, pad3 + value);
  }

  /** Spaces around a text with non-space ends are what `TrimSpace` removes. */
  lemma TrimSpaceBetween(pre: string, mid: string, suf: string)
    requires Blank(pre) && Blank(suf)
    requires mid != [] && !IsSpace(mid[0]) && !IsSpace(mid[|mid| - 1])
    ensures TrimSpace(pre + mid + suf) == mid
  {
    var s := pre + mid + suf;
    var i, j := |pre|, |pre| + |mid|;
    assert s[i..j] == mid;
    assert s[i] == mid[0] && s[j - 1] == mid[|mid| - 1];
    TrimExact(s, IsSpace, i, j);
  }

  /** Trimming an assignment line leaves it from the key to the value. */
  lemma TrimAssignment(pad1: string, key: string, pad2: string, pad3: string, value: string, pad4: string)
    requires Blank(pad1) && Blank(pad4)
    requires key != [] && !IsSpace(key[0])
    requires value != [] && !IsSpace(value[|value| - 1])
    ensures TrimSpace(pad1 + key + pad2 + "=" + pad3 + value + pad4) == key + pad2 + "=" + pad3 + value
  {
    var line := key + pad2 + "=" + pad3 + value;
    assert pad1 + key + pad2 + "=" + pad3 + value + pad4 == pad1 + line + pad4;
    TrimSpaceBetween(pad1, line, pad4);
  }

  /** A key followed by spaces is cut off at the '=' after them. */
  lemma CutAssignment(key: string, pad2: string, pad3: string, value: string)
    requires '=' !in key && Blank(pad2)
    ensures Cut(key + pad2 + "=" + pad3 + value, '=') == Some((key + pad2, pad3 + value))
  {
    var line := key + pad2 + "=" + pad3 + value;
    var e := |key| + |pad2|;
    assert line[..e] == key + pad2;
    assert line[e] == '=' && line[e + 1..] == pad3 + value;
    assert '=' !in key + pad2 by {
      assert !IsSpace('=');
    }
    FirstIndexAt(line, '=', e);
  }

  /** A line whose trimmed form is not a comment parses to the trimmed sides of its first '='. */
  lemma ParseLineOf(raw: string, before: string, after: string)
    requires TrimSpace(raw) != [] && TrimSpace(raw)[0] != '#'
    requires Cut(TrimSpace(raw), '=') == Some((before, after))
    ensures ParseLine(raw) == Some((TrimSpace(before), Unquote(TrimSpace(after))))
  {
  }

  /** A plain assignment line reads back as the key and value it was written from. */
  lemma ParsePlain(key: string, value: string)
    requires key != [] && '=' !in key && key[0] != '#'
    requires !IsSpace(key[0]) && !IsSpace(key[|key| - 1])
    requires value != [] && !IsSpace(value[0]) && !IsSpace(value[|value| - 1])
    requires value[0] != '"' && value[0] != '\''
    ensures ParseLine(key + "=" + value) == Some((key, value))
  {
    var e: string := [];
    assert e + key + e + "=" + e + value + e == key + "=" + value;
    ParseSpaced(e, key, e, e, value, e);
  }

  /** A value in double quotes whose own ends are not double quotes loses exactly those quotes. */
  lemma UnquoteEnclosed(value: string)
    requires value == [] || (value[0] != '"' && value[|value| - 1] != '"')
    ensures Unquote("\"" + value + "\"") == value
  {
    var quoted := "\"" + value + "\"";
    assert quoted[1..|quoted| - 1] == value;
    TrimExact(quoted, IsDoubleQuote, 1, |quoted| - 1);
  }

  /** A double-quoted value loses its quotes. */
  lemma ParseQuoted(key: string, value: string)
    requires key != [] && '=' !in key && key[0] != '#'
    requires !IsSpace(key[0]) && !IsSpace(key[|key| - 1])
    requires value == [] || (value[0] != '"' && value[|value| - 1] != '"')
    ensures ParseLine(key + "=\"" + value + "\"") == Some((key, value))
  {
    var e: string := [];
    var quoted := "\"" + value + "\"";
    assert e + key + e + "=" + e + quoted + e == key + "=\"" + value + "\"";
    ParseSpaced(e, key, e, e, quoted, e);
    UnquoteEnclosed(value);
  }
}
