/** Buildroot and kernel configuration files (src/tricks/environment.rs): `KEY=VAL` lines
    read into a map and written back out, and the `make` run that builds a buildroot
    image from them. */
module Configs {
  import opened Results
  import opened Text
  import opened Processes

  /** A line `parse_config` skips: its text after leading whitespace starts with '#'. */
  predicate IsComment(line: string) {
    var t := TrimStart(line);
    t != [] && t[0] == '#'
  }

  /** One line of a config: nothing for a comment or a line without '='; otherwise the
      trimmed text before the first '=' and the trimmed text after it. */
  function ParseLine(line: string): (entry: Option<(string, string)>)
    ensures entry.None? <==> IsComment(line) || '=' !in line
    ensures entry.Some? ==> IsTrimmed(entry.value.0) && IsTrimmed(entry.value.1)
    ensures entry.Some? ==> '=' !in entry.value.0
  {
    if IsComment(line) then None
    else
      match SplitOnce(line, '=')
      case None => None
      case Some(parts) => Some((Trim(parts.0), Trim(parts.1)))
  }

  /** An entry, if a line has one. */
  type Entry = Option<(string, string)>

  /** The entry of each line, in order. */
  function ParseEach(lines: seq<string>): (entries: seq<Entry>)
    ensures |entries| == |lines|
    ensures forall i | 0 <= i < |lines| :: entries[i] == ParseLine(lines[i])
  {
    seq(|lines|, i requires 0 <= i < |lines| => ParseLine(lines[i]))
  }

  /** `entry` sets `key`. */
  predicate Sets(entry: Entry, key: string) {
    entry.Some? && entry.value.0 == key
  }

  /** The map the entries give, read in order: each entry sets its key, overwriting what
      an earlier entry set. */
  function Assemble(entries: seq<Entry>): (m: map<string, string>)
    decreases |entries|
  {
    if entries == [] then map[]
    else
      var m := Assemble(entries[..|entries| - 1]);
      match entries[|entries| - 1]
      case Some(entry) => m[entry.0 := entry.1]
      case None => m
  }

  /** A key some entry sets is in the map. */
  lemma {:induction false} SetKeyIsAssembled(entries: seq<Entry>, i: nat, key: string)
    requires i < |entries| && Sets(entries[i], key)
    ensures key in Assemble(entries)
    decreases |entries|
  {
    var init := entries[..|entries| - 1];
    if i < |init| {
      assert init[i] == entries[i];
      SetKeyIsAssembled(init, i, key);
    }
  }

  /** A key in the map was set by some entry; the lemma names that entry. */
  lemma {:induction false} AssembledKeyIsSet(entries: seq<Entry>, key: string) returns (i: nat)
    requires key in Assemble(entries)
    ensures i < |entries| && Sets(entries[i], key)
    decreases |entries|
  {
    var init := entries[..|entries| - 1];
    if Sets(entries[|entries| - 1], key) {
      i := |entries| - 1;
    } else {
      i := AssembledKeyIsSet(init, key);
      assert init[i] == entries[i];
    }
  }

  /** A key is in the map exactly when some entry sets it. */
  lemma AssembleKeys(entries: seq<Entry>, key: string)
    ensures key in Assemble(entries) <==> exists i | 0 <= i < |entries| :: Sets(entries[i], key)
  {
    if key in Assemble(entries) {
      var i := AssembledKeyIsSet(entries, key);
    }
    if exists i | 0 <= i < |entries| :: Sets(entries[i], key) {
      var i :| 0 <= i < |entries| && Sets(entries[i], key);
      SetKeyIsAssembled(entries, i, key);
    }
  }

  /** The last entry that sets a key decides its value: earlier entries are overwritten. */
  lemma {:induction false} AssembleLastWins(entries: seq<Entry>, i: nat)
    requires i < |entries| && entries[i].Some?
    requires forall j | i < j < |entries| :: !Sets(entries[j], entries[i].value.0)
    ensures entries[i].value.0 in Assemble(entries)
    ensures Assemble(entries)[entries[i].value.0] == entries[i].value.1
    decreases |entries|
  {
    var init := entries[..|entries| - 1];
    if i < |init| {
      forall j | i < j < |init|
        ensures !Sets(init[j], init[i].value.0)
      {
        assert init[j] == entries[j];
      }
      AssembleLastWins(init, i);
      assert !Sets(entries[|entries| - 1], entries[i].value.0);
    }
  }

  /** `parse_config`: the map of the `KEY=VAL` lines of `text`. */
  function ParseConfig(text: string): (m: map<string, string>) {
    Assemble(ParseEach(Lines(text)))
  }

  /** A key some line of the text sets is in the parsed config, with the value the last
      such line gives. */
  lemma ParseConfigLastWins(text: string, i: nat)
    requires i < |Lines(text)| && ParseLine(Lines(text)[i]).Some?
    requires forall j | i < j < |Lines(text)| :: !Sets(ParseLine(Lines(text)[j]), ParseLine(Lines(text)[i]).value.0)
    ensures var entry := ParseLine(Lines(text)[i]).value;
      entry.0 in ParseConfig(text) && ParseConfig(text)[entry.0] == entry.1
  {
    AssembleLastWins(ParseEach(Lines(text)), i);
  }

  /** The line `write_config` writes for one entry, without its newline. */
  function EntryLine(key: string, value: string): (line: string) {
    key + "=" + value
  }

  /** `order` visits every key of `m` exactly once, as iterating a hash map does. */
  predicate IsEnumeration(m: map<string, string>, order: seq<string>) {
    && (forall k | k in m :: k in order)
    && (forall i | 0 <= i < |order| :: order[i] in m)
    && (forall i, j | 0 <= i < j < |order| :: order[i] != order[j])
  }

  /** The entry lines of `m`, keys in `order`. */
  function EntryLines(m: map<string, string>, order: seq<string>): (lines: seq<string>)
    requires forall i | 0 <= i < |order| :: order[i] in m
    ensures |lines| == |order|
    ensures forall i | 0 <= i < |order| :: lines[i] == EntryLine(order[i], m[order[i]])
    decreases |order|
  {
    if order == [] then [] else [EntryLine(order[0], m[order[0]])] + EntryLines(m, order[1..])
  }

  /** `write_config`: one `KEY=VAL` line per entry, each ended by a newline, in the map's
      iteration order `order`. */
  function WriteConfig(m: map<string, string>, order: seq<string>): (text: string)
    requires IsEnumeration(m, order)
    ensures text == [] <==> m == map[]
    ensures text != [] ==> text[|text| - 1] == '\n'
  {
    assert m == map[] <==> order == [] by {
      if order != [] {
        assert order[0] in m;
      }
      if m != map[] {
        var k :| k in m;
        assert k in order;
      }
    }
    var lines := EntryLines(m, order);
    UnlinesShape(lines);
    Unlines(lines)
  }

  lemma {:induction false} UnlinesShape(lines: seq<string>)
    ensures Unlines(lines) == [] <==> lines == []
    ensures lines != [] ==> Unlines(lines)[|Unlines(lines)| - 1] == '\n'
  {
    if lines != [] {
      UnlinesShape(lines[1..]);
      var rest := Unlines(lines[1..]);
      assert Unlines(lines) == lines[0] + "\n" + rest;
    }
  }

  /** An entry `write_config` writes so that `parse_config` reads it back unchanged: a
      trimmed key that holds no '=' or newline and does not start with '#', and a trimmed
      value that holds no newline. */
  predicate RoundTrips(key: string, value: string) {
    && IsTrimmed(key) && '=' !in key && '\n' !in key && (key == [] || key[0] != '#')
    && IsTrimmed(value) && '\n' !in value
  }

  /** The text a line holds after leading whitespace is all of it when it starts with
      something else. */
  lemma TrimStartOfVisible(s: string)
    requires s != [] && !IsWhitespace(s[0])
    ensures TrimStart(s) == s
  {
  }

  /** An entry line reads back as the entry it was written from. */
  lemma EntryLineParses(key: string, value: string)
    requires RoundTrips(key, value)
    ensures ParseLine(EntryLine(key, value)) == Some((key, value))
  {
    var line := EntryLine(key, value);
    assert line == key + ['='] + value;
    assert line[0] == (if key == [] then '=' else key[0]);
    TrimStartOfVisible(line);
    assert !IsComment(line);
    SplitOnceAt(key, '=', value);
    TrimOfTrimmed(key);
    TrimOfTrimmed(value);
  }

  /** Entry lines hold no newline and do not end with a carriage return. */
  lemma EntryLinesAreLines(m: map<string, string>, order: seq<string>)
    requires forall i | 0 <= i < |order| :: order[i] in m
    requires forall k | k in m :: RoundTrips(k, m[k])
    ensures var lines := EntryLines(m, order);
      && (forall i | 0 <= i < |lines| :: '\n' !in lines[i])
      && (forall i | 0 <= i < |lines| :: lines[i] == [] || lines[i][|lines[i]| - 1] != '\r')
  {
    var lines := EntryLines(m, order);
    forall i | 0 <= i < |lines|
      ensures '\n' !in lines[i] && lines[i][|lines[i]| - 1] != '\r'
    {
      var k := order[i];
      var v := m[k];
      assert lines[i] == k + ['='] + v;
      assert IsWhitespace('\r');
    }
  }

  /** The entries of `m` whose keys are among `keys`. */
  function Restrict(m: map<string, string>, keys: seq<string>): (r: map<string, string>)
    ensures forall k :: k in r <==> k in m && k in keys
    ensures forall k | k in r :: r[k] == m[k]
  {
    map k | k in m && k in keys :: m[k]
  }

  /** One entry more sets its key, if it has one, on top of what the earlier entries set. */
  lemma AssembleSnoc(init: seq<Entry>, entry: Entry)
    ensures Assemble(init + [entry]) ==
      (match entry case Some(e) => Assemble(init)[e.0 := e.1] case None => Assemble(init))
  {
    assert (init + [entry])[..|init|] == init;
  }

  lemma RestrictSnoc(m: map<string, string>, keys: seq<string>, k: string)
    requires k in m
    ensures Restrict(m, keys + [k]) == Restrict(m, keys)[k := m[k]]
  {
  }

  lemma PrefixSnoc<T>(s: seq<T>, n: nat)
    requires 0 < n <= |s|
    ensures s[..n] == s[..n - 1] + [s[n - 1]]
  {
  }

  lemma RestrictToAll(m: map<string, string>, keys: seq<string>)
    requires forall k | k in m :: k in keys
    ensures Restrict(m, keys) == m
  {
  }

  /** The entries `write_config` lines give back: each key with its value, in order. */
  function Entries(m: map<string, string>, order: seq<string>): (entries: seq<Entry>)
    requires forall i | 0 <= i < |order| :: order[i] in m
    ensures |entries| == |order|
    ensures forall i | 0 <= i < |order| :: entries[i] == Some((order[i], m[order[i]]))
  {
    seq(|order|, i requires 0 <= i < |order| => Some((order[i], m[order[i]])))
  }

  lemma EntryLinesParse(m: map<string, string>, order: seq<string>)
    requires forall i | 0 <= i < |order| :: order[i] in m
    requires forall k | k in m :: RoundTrips(k, m[k])
    ensures ParseEach(EntryLines(m, order)) == Entries(m, order)
  {
    forall i | 0 <= i < |order|
      ensures ParseLine(EntryLines(m, order)[i]) == Some((order[i], m[order[i]]))
    {
      EntryLineParses(order[i], m[order[i]]);
    }
  }

  lemma {:induction false} AssembleEntries(m: map<string, string>, order: seq<string>, n: nat)
    requires n <= |order|
    requires forall i | 0 <= i < |order| :: order[i] in m
    ensures Assemble(Entries(m, order)[..n]) == Restrict(m, order[..n])
  {
    if n > 0 {
      var all := Entries(m, order);
      var k := order[n - 1];
      PrefixSnoc(all, n);
      PrefixSnoc(order, n);
      AssembleEntries(m, order, n - 1);
      AssembleSnoc(all[..n - 1], Some((k, m[k])));
      RestrictSnoc(m, order[..n - 1], k);
    }
  }

  /** Reading back what `write_config` wrote gives the same map, whatever the iteration
      order, provided every entry round-trips. */
  lemma ParseWriteRoundTrip(m: map<string, string>, order: seq<string>)
    requires IsEnumeration(m, order)
    requires forall k | k in m :: RoundTrips(k, m[k])
    ensures ParseConfig(WriteConfig(m, order)) == m
  {
    var lines := EntryLines(m, order);
    var text := WriteConfig(m, order);
    assert text == Unlines(lines);
    assert Lines(text) == lines by {
      EntryLinesAreLines(m, order);
      LinesOfUnlines(lines);
    }
    EntryLinesParse(m, order);
    AssembleAllEntries(m, order);
  }

  /** Assembling every entry of an enumeration gives back the whole map. */
  lemma AssembleAllEntries(m: map<string, string>, order: seq<string>)
    requires IsEnumeration(m, order)
    ensures Assemble(Entries(m, order)) == m
  {
    var entries := Entries(m, order);
    assert entries[..|order|] == entries;
    assert order[..|order|] == order;
    AssembleEntries(m, order, |order|);
    RestrictToAll(m, order);
  }

  /** Why `create_buildroot_image` failed. */
  datatype BuildrootError =
    | CommandFailed
    | BuildFailed(status: ExitStatus)

  /** The processes a run starts, and its result. */
  datatype BuildrootRun = BuildrootRun(invoked: Invocation, result: Result<(), BuildrootError>)

  /** The `make` invocation that builds the buildroot tree in `folder` with the given
      buildroot and kernel configurations. */
  function MakeInvocation(folder: string, bconfig: string, kconfig: string): (inv: Invocation)
    ensures inv.program == "make"
    ensures inv.args == ["-C", folder, "BR2_DEFCONFIG=" + bconfig,
                         "BR2_LINUX_KERNEL_CUSTOM_CONFIG_FILE=" + kconfig]
  {
    Invocation("make", ["-C", folder, "BR2_DEFCONFIG=" + bconfig,
                        "BR2_LINUX_KERNEL_CUSTOM_CONFIG_FILE=" + kconfig])
  }

  /** `create_buildroot_image`: runs `make -C folder BR2_DEFCONFIG=… BR2_LINUX_KERNEL_CUSTOM_CONFIG_FILE=…`,
      which `out` says how it went; fails when `make` cannot be started or exits with
      anything but success. */
  function CreateBuildrootImage(folder: string, bconfig: string, kconfig: string, out: ProcessOutput): (r: BuildrootRun)
    ensures r.invoked.program == "make"
    ensures r.invoked.args == ["-C", folder, "BR2_DEFCONFIG=" + bconfig, "BR2_LINUX_KERNEL_CUSTOM_CONFIG_FILE=" + kconfig]
    ensures r.result.Ok? <==> out.Finished? && ExitSuccess(out.status)
    ensures out.NotSpawned? ==> r.result == Err(CommandFailed)
    ensures out.Finished? && !ExitSuccess(out.status) ==> r.result == Err(BuildFailed(out.status))
  {
    var inv := MakeInvocation(folder, bconfig, kconfig);
    match out
    case NotSpawned => BuildrootRun(inv, Err(CommandFailed))
    case Finished(status, _) =>
      if ExitSuccess(status) then BuildrootRun(inv, Ok(())) else BuildrootRun(inv, Err(BuildFailed(status)))
  }
}
