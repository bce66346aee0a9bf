/**
 * `krpcConfig`: a key=value file loaded into a map. The file is given as the
 * sequence of lines that the `fgets` loop of `LoadConfigFile` reads, each with
 * its trailing newline when it has one.
 */
module Config {
  import opened Basics
  import opened StdString

  /** `krpcConfig::Trim`: drop the leading and then the trailing blanks, in place in the source. */
  function Trim(s: string): string
  {
    var i := FindFirstNotOf(s, ' ');
    var t := if i != -1 then s[i..] else s;
    var j := FindLastNotOf(t, ' ');
    if j != -1 then t[..j + 1] else t
  }

  /**
   * What `Trim` keeps: a string of blanks only (or the empty string) comes
   * back unchanged, as it has no character that is not a blank; any other
   * string is cut to run from its first to its last character that is not
   * `' '`, so only blanks are dropped (never a tab or a newline) and no blank
   * is left at either end.
   */
  lemma {:induction false} TrimShape(s: string)
    ensures AllBlanks(s) ==> Trim(s) == s
    ensures !AllBlanks(s) ==>
      var i, j := FindFirstNotOf(s, ' '), FindLastNotOf(s, ' ');
      && 0 <= i <= j < |s|
      && Trim(s) == s[i..j + 1]
      && AllBlanks(s[..i]) && AllBlanks(s[j + 1..])
      && s[i] != ' ' && s[j] != ' '
  {
    if AllBlanks(s) {
      TrimOfAllBlanks(s);
    } else {
      var i, j := FindFirstNotOf(s, ' '), FindLastNotOf(s, ' ');
      TrimBounds(s);
      TrimSlice(s);
      BlanksBefore(s, i);
      BlanksAfter(s, j + 1);
    }
  }

  lemma TrimOfAllBlanks(s: string)
    requires AllBlanks(s)
    ensures Trim(s) == s
  {
    assert FindFirstNotOf(s, ' ') == -1;
    assert FindLastNotOf(s, ' ') == -1;
  }

  lemma TrimBounds(s: string)
    requires !AllBlanks(s)
    ensures var i, j := FindFirstNotOf(s, ' '), FindLastNotOf(s, ' ');
      0 <= i <= j < |s| && s[i] != ' ' && s[j] != ' '
      && (forall k :: 0 <= k < i ==> s[k] == ' ') && (forall k :: j < k < |s| ==> s[k] == ' ')
  {
  }

  lemma TrimSlice(s: string)
    requires !AllBlanks(s)
    ensures var i, j := FindFirstNotOf(s, ' '), FindLastNotOf(s, ' ');
      0 <= i <= j < |s| && Trim(s) == s[i..j + 1]
  {
    var i, j := FindFirstNotOf(s, ' '), FindLastNotOf(s, ' ');
    TrimBounds(s);
    LastNotBlankOfSuffix(s, i);
    PrefixOfSuffix(s, i, j - i + 1);
  }

  lemma PrefixOfSuffix(s: string, i: nat, n: nat)
    requires i + n <= |s|
    ensures s[i..][..n] == s[i..i + n]
  {
  }

  lemma BlanksBefore(s: string, n: nat)
    requires n <= |s|
    requires forall k :: 0 <= k < n ==> s[k] == ' '
    ensures AllBlanks(s[..n])
  {
    forall k | 0 <= k < n
      ensures s[..n][k] == ' '
    {
      assert s[..n][k] == s[k];
    }
  }

  lemma BlanksAfter(s: string, n: nat)
    requires n <= |s|
    requires forall k :: n <= k < |s| ==> s[k] == ' '
    ensures AllBlanks(s[n..])
  {
    forall k | 0 <= k < |s| - n
      ensures s[n..][k] == ' '
    {
      assert s[n..][k] == s[n + k];
    }
  }

  lemma LastNotBlankOfSuffix(s: string, i: nat)
    requires i < |s| && s[i] != ' '
    ensures FindLastNotOf(s[i..], ' ') == FindLastNotOf(s, ' ') - i
  {
    var j := FindLastNotOf(s, ' ');
    assert s[i..][j - i] == s[j];
  }

  /** A string that neither starts nor ends with a blank is its own trim. */
  lemma TrimOfTrimmed(s: string)
    requires s == [] || (s[0] != ' ' && s[|s| - 1] != ' ')
    ensures Trim(s) == s
  {
    if s != [] {
      assert FindFirstNotOf(s, ' ') == 0;
      assert FindLastNotOf(s, ' ') == |s| - 1;
      assert s[0..] == s;
    }
  }

  /** Trimming twice is trimming once. */
  lemma TrimIdempotent(s: string)
    ensures Trim(Trim(s)) == Trim(s)
  {
    TrimShape(s);
    if !AllBlanks(s) {
      TrimOfTrimmed(Trim(s));
    }
  }

  /** A character that is not a blank is in the trimmed string exactly when it is in the string. */
  lemma TrimKeepsNonBlank(s: string, c: char)
    requires c != ' '
    ensures c in Trim(s) <==> c in s
  {
    TrimShape(s);
    if !AllBlanks(s) {
      var r, lo, hi := Trim(s), FindFirstNotOf(s, ' '), FindLastNotOf(s, ' ') + 1;
      if c in s {
        var k :| 0 <= k < |s| && s[k] == c;
        if lo <= k < hi {
          assert r[k - lo] == c;
        }
      }
    }
  }

  /**
   * One line of `LoadConfigFile`: trimmed, a comment line (first character
   * `#`), an empty line and a line without `=` give nothing; otherwise the
   * key is the trimmed text before the first `=` and the value the trimmed
   * text after it, up to the first newline after it if there is one.
   */
  function ParseLine(line: string): Option<(string, string)>
  {
    var readBuf := Trim(line);
    if (readBuf != [] && readBuf[0] == '#') || readBuf == [] then None
    else
      var index := Find(readBuf, '=');
      if index == -1 then None
      else
        var key := Trim(readBuf[..index]);
        var endIndex := FindFrom(readBuf, '\n', index);
        var value := Trim(Substr(readBuf, index + 1, endIndex - index - 1).value);
        Some((key, value))
  }

  /**
   * A line adds nothing exactly when, once trimmed, it is empty, starts with
   * `#` or has no `=`.
   */
  lemma ParseLineSkips(line: string)
    ensures var t := Trim(line);
      ParseLine(line).None? <==> t == [] || t[0] == '#' || '=' !in t
  {
  }

  /** A key never contains `=`: it is cut before the first one. */
  lemma KeyHasNoEquals(line: string)
    requires ParseLine(line).Some?
    ensures '=' !in ParseLine(line).value.0
  {
    var t := Trim(line);
    TrimKeepsNonBlank(t[..Find(t, '=')], '=');
  }

  /**
   * The fields of a line with an `=`, stated without the search functions:
   * `i` is the first `=` of the trimmed line, and the value runs to the first
   * newline after it or to the end.
   */
  lemma ParseLineFields(line: string, i: nat)
    requires Trim(line) != [] && Trim(line)[0] != '#'
    requires i < |Trim(line)| && Trim(line)[i] == '=' && '=' !in Trim(line)[..i]
    ensures var t := Trim(line);
      '\n' !in t[i + 1..] ==> ParseLine(line) == Some((Trim(t[..i]), Trim(t[i + 1..])))
    ensures var t := Trim(line);
      forall j :: i < j < |t| && t[j] == '\n' && '\n' !in t[i + 1..j] ==>
        ParseLine(line) == Some((Trim(t[..i]), Trim(t[i + 1..j])))
  {
    var t := Trim(line);
    FirstIndexOf(t, '=', i);
    forall j | i < j < |t| && t[j] == '\n' && '\n' !in t[i + 1..j]
      ensures ParseLine(line) == Some((Trim(t[..i]), Trim(t[i + 1..j])))
    {
      NextIndexOf(t, '\n', i, j);
      ParseLineAt(line, i, j);
    }
    if '\n' !in t[i + 1..] {
      NoNextIndexOf(t, '\n', i);
      ParseLineAt(line, i, -1);
    }
  }

  /** `ParseLine` once the `=` is at `i` and the newline search from it gives `e`. */
  lemma ParseLineAt(line: string, i: nat, e: int)
    requires Trim(line) != [] && Trim(line)[0] != '#'
    requires i < |Trim(line)| && Find(Trim(line), '=') == i
    requires e == FindFrom(Trim(line), '\n', i)
    ensures var t := Trim(line);
      ParseLine(line) == Some((Trim(t[..i]), Trim(Substr(t, i + 1, e - i - 1).value)))
  {
  }

  lemma FirstIndexOf(s: string, c: char, i: nat)
    requires i < |s| && s[i] == c && c !in s[..i]
    ensures Find(s, c) == i
  {
  }

  lemma NextIndexOf(s: string, c: char, i: nat, j: nat)
    requires i < j < |s| && s[i] != c && s[j] == c && c !in s[i + 1..j]
    ensures FindFrom(s, c, i) == j
  {
  }

  lemma NoNextIndexOf(s: string, c: char, i: nat)
    requires i < |s| && s[i] != c && c !in s[i + 1..]
    ensures FindFrom(s, c, i) == -1
  {
  }

  /**
   * A line written as `key=value` reads back as that pair, when the key has
   * no `=`, does not start with `#`, the value has no newline and neither
   * has blanks at its ends. The value may contain `=`.
   */
  lemma ParseRenderedLine(key: string, value: string)
    requires '=' !in key && '\n' !in value
    requires key == [] || (key[0] != ' ' && key[0] != '#' && key[|key| - 1] != ' ')
    requires value == [] || (value[0] != ' ' && value[|value| - 1] != ' ')
    ensures ParseLine(key + "=" + value) == Some((key, value))
  {
    var line := key + "=" + value;
    assert line[|key|] == '=';
    assert line[0] != ' ' && line[|line| - 1] != ' ';
    TrimOfTrimmed(line);
    assert line[..|key|] == key;
    assert line[|key| + 1..] == value;
    ParseLineFields(line, |key|);
    TrimOfTrimmed(key);
    TrimOfTrimmed(value);
  }

  /**
   * A value made only of spaces survives when the line ends in a newline:
   * the trim of the whole line stops at the newline, and `Trim` leaves an
   * all-blank value as it is.
   */
  lemma BlankValueKept(key: string, blanks: string)
    requires '=' !in key
    requires key == [] || (key[0] != ' ' && key[0] != '#' && key[|key| - 1] != ' ')
    requires AllBlanks(blanks)
    ensures ParseLine(key + "=" + blanks + "\n") == Some((key, blanks))
  {
    var line := key + "=" + blanks + "\n";
    assert line[|key|] == '=';
    assert line[0] != ' ' && line[|line| - 1] != ' ';
    TrimOfTrimmed(line);
    assert line[..|key|] == key;
    assert line[|key| + 1..|line| - 1] == blanks;
    ParseLineFields(line, |key|);
    TrimOfTrimmed(key);
    TrimShape(blanks);
  }

  /** A parsed line: the key and value it defines, if any. */
  type Entry = Option<(string, string)>

  /** Every line of a file, parsed. */
  function ParseLines(lines: seq<string>): seq<Entry>
  {
    if lines == [] then [] else ParseLines(lines[..|lines| - 1]) + [ParseLine(lines[|lines| - 1])]
  }

  /** `config_map.insert({key, value})` for an entry: an existing key keeps its value. */
  function Insert(m: map<string, string>, e: Entry): map<string, string>
  {
    match e
    case None => m
    case Some((k, v)) => if k in m then m else m[k := v]
  }

  /** The map after inserting the entries in order, starting from `m`. */
  function LoadEntries(m: map<string, string>, es: seq<Entry>): map<string, string>
  {
    if es == [] then m else Insert(LoadEntries(m, es[..|es| - 1]), es[|es| - 1])
  }

  /** The map after the `fgets` loop has read `lines`, starting from `m`. */
  function LoadLines(m: map<string, string>, lines: seq<string>): map<string, string>
  {
    LoadEntries(m, ParseLines(lines))
  }

  /** The value of the first entry that defines `key`, if any. */
  function FirstValue(es: seq<Entry>, key: string): Option<string>
  {
    if es == [] then None
    else if es[0].Some? && es[0].value.0 == key then Some(es[0].value.1)
    else FirstValue(es[1..], key)
  }

  lemma {:induction false} FirstValueAppend(es: seq<Entry>, e: Entry, key: string)
    ensures FirstValue(es + [e], key) ==
      if FirstValue(es, key).Some? then FirstValue(es, key)
      else if e.Some? && e.value.0 == key then Some(e.value.1)
      else None
  {
    if es == [] {
      assert [e][1..] == [];
    } else {
      assert (es + [e])[1..] == es[1..] + [e];
      FirstValueAppend(es[1..], e, key);
    }
  }

  /**
   * Loading never overwrites: a key already in the map keeps its value, and
   * any other key is present exactly when some entry defines it, with the
   * value of the first such entry.
   */
  lemma {:induction false} LoadEntriesFirstWins(m: map<string, string>, es: seq<Entry>, key: string)
    ensures key in LoadEntries(m, es) <==> key in m || FirstValue(es, key).Some?
    ensures key in m ==> LoadEntries(m, es)[key] == m[key]
    ensures key !in m && FirstValue(es, key).Some? ==>
      LoadEntries(m, es)[key] == FirstValue(es, key).value
  {
    if es != [] {
      var init := es[..|es| - 1];
      assert es == init + [es[|es| - 1]];
      LoadEntriesFirstWins(m, init, key);
      FirstValueAppend(init, es[|es| - 1], key);
    }
  }

  lemma LoadOneMore(m: map<string, string>, lines: seq<string>, i: nat)
    requires 0 < i <= |lines|
    ensures LoadEntries(m, ParseLines(lines[..i])) ==
      Insert(LoadEntries(m, ParseLines(lines[..i - 1])), ParseLine(lines[i - 1]))
  {
    assert lines[..i][..i - 1] == lines[..i - 1];
  }

  /** The `krpcConfig` object: its one field, `config_map`. */
  class KrpcConfig {
    var configMap: map<string, string>

    constructor ()
      ensures configMap == map[]
    {
      configMap := map[];
    }

    /**
     * `LoadConfigFile`, from the lines of an opened file: each line goes
     * through the loop body `LoadLine`.
     */
    method LoadConfigFile(lines: seq<string>)
      modifies this
      ensures configMap == LoadLines(old(configMap), lines)
    {
      var i := 0;
      while i < |lines|
        invariant 0 <= i <= |lines|
        invariant configMap == LoadEntries(old(configMap), ParseLines(lines[..i]))
      {
        LoadLine(lines[i]);
        i := i + 1;
        LoadOneMore(old(configMap), lines, i);
      }
      assert lines[..i] == lines;
    }

    /**
     * The body of the `fgets` loop for one line: trim it, skip a comment, an
     * empty line or a line without `=`, split at the first `=`, and insert
     * the pair unless the key is already there.
     */
    method LoadLine(line: string)
      modifies this
      ensures configMap == Insert(old(configMap), ParseLine(line))
    {
      var readBuf := Trim(line);
      if (readBuf != [] && readBuf[0] == '#') || readBuf == [] {
        return;
      }
      var index := Find(readBuf, '=');
      if index == -1 {
        return;
      }
      var key := Trim(readBuf[..index]);
      var endIndex := FindFrom(readBuf, '\n', index);
      var value := Trim(Substr(readBuf, index + 1, endIndex - index - 1).value);
      assert ParseLine(line) == Some((key, value));
      if key !in configMap {
        configMap := configMap[key := value];
      }
    }

    /** `Load`: the stored value, or `""` for a key that is absent. */
    method Load(key: string) returns (value: string)
      ensures key in configMap ==> value == configMap[key]
      ensures key !in configMap ==> value == ""
    {
      if key !in configMap {
        return "";
      }
      value := configMap[key];
    }
  }
}
