/** The configuration file baked into an image: the build script that prints it, the
    server that loads it, and the migration tool that reads it back. Text is a
    sequence of characters. */
module BakedConfig {
  import opened Prelude
  import opened Text

  type Config = map<string, string>

  predicate Control(c: char) {
    c < ' ' || c == '\U{7F}'
  }

  predicate Clean(value: string) {
    forall i | 0 <= i < |value| :: !Control(value[i])
  }

  predicate NameChar(c: char) {
    'A' <= c <= 'Z' || '0' <= c <= '9' || c == '_'
  }

  /** The loader's test of a name. */
  predicate LoaderName(name: string) {
    name != "" && forall i | 0 <= i < |name| :: NameChar(name[i])
  }

  /** The migration tool's test: it also wants a letter first. */
  predicate ToolName(name: string) {
    LoaderName(name) && 'A' <= name[0] <= 'Z'
  }

  // ----------------------------------------------------------------- entries

  datatype Pair = Pair(name: string, value: string)

  function Name(line: string): string {
    line[..UpTo(line, c => c == '=')]
  }

  function Value(line: string): string
    requires '=' in line
  {
    line[UpTo(line, c => c == '=') + 1..]
  }

  /** Reads a line split at its first '=', if the name passes and the value has no
      control characters. */
  function Reader(named: string -> bool): string -> Option<Pair> {
    line => if '=' in line && named(Name(line)) && Clean(Value(line)) then Some(Pair(Name(line), Value(line))) else None
  }

  /** Entries one after the other; nothing if one is malformed or a name comes twice. */
  function Parse<L>(lines: seq<L>, read: L -> Option<Pair>): Option<Config> {
    if lines == [] then Some(map[]) else Extend(Parse(lines[..|lines| - 1], read), read(lines[|lines| - 1]))
  }

  function Extend(sofar: Option<Config>, entry: Option<Pair>): Option<Config> {
    if sofar.None? || entry.None? || entry.value.name in sofar.value then None
    else Some(sofar.value[entry.value.name := entry.value.value])
  }

  ghost predicate AllEntries<L(!new)>(lines: seq<L>, read: L -> Option<Pair>) {
    && (forall i | 0 <= i < |lines| :: read(lines[i]).Some?)
    && (forall i, j | 0 <= i < j < |lines| :: read(lines[i]).value.name != read(lines[j]).value.name)
  }

  /** The map holds the entries of the lines and nothing else. */
  ghost predicate Holds<L(!new)>(lines: seq<L>, read: L -> Option<Pair>, m: Config)
    requires AllEntries(lines, read)
  {
    && (forall i | 0 <= i < |lines| ::
          var e := read(lines[i]).value; e.name in m && m[e.name] == e.value)
    && (forall k | k in m :: exists i | 0 <= i < |lines| :: read(lines[i]).value.name == k)
  }

  /** One more line is an entry of its own, under a name of its own. */
  lemma MoreEntries<L(!new)>(front: seq<L>, last: L, read: L -> Option<Pair>)
    ensures AllEntries(front + [last], read) <==>
      && AllEntries(front, read) && read(last).Some?
      && forall i | 0 <= i < |front| :: read(front[i]).value.name != read(last).value.name
  {
    var all := front + [last];
    assert all[|front|] == last && forall i | 0 <= i < |front| :: all[i] == front[i];
    if AllEntries(all, read) {
      forall i | 0 <= i < |front| ensures read(front[i]).Some? {
        assert read(all[i]).Some?;
      }
    }
  }

  lemma MoreHeld<L(!new)>(front: seq<L>, last: L, read: L -> Option<Pair>, m: Config)
    requires AllEntries(front, read) && Holds(front, read, m) && read(last).Some? && read(last).value.name !in m
    requires AllEntries(front + [last], read)
    ensures Holds(front + [last], read, m[read(last).value.name := read(last).value.value])
  {
    var all, e := front + [last], read(last).value;
    var more := m[e.name := e.value];
    forall i | 0 <= i < |all|
      ensures read(all[i]).value.name in more && more[read(all[i]).value.name] == read(all[i]).value.value
    {
      if i < |front| {
        assert all[i] == front[i];
      }
    }
    forall k | k in more ensures exists i | 0 <= i < |all| :: read(all[i]).value.name == k {
      if k == e.name {
        assert read(all[|front|]).value.name == k;
      } else {
        var i :| 0 <= i < |front| && read(front[i]).value.name == k;
        assert read(all[i]).value.name == k;
      }
    }
  }

  /** The names held are the names of the lines. */
  lemma HeldNames<L(!new)>(lines: seq<L>, read: L -> Option<Pair>, m: Config, name: string)
    requires AllEntries(lines, read) && Holds(lines, read, m)
    ensures name in m <==> exists i | 0 <= i < |lines| :: read(lines[i]).value.name == name
  {
  }

  /** What parsing accepts and what it gives: an entry per line, no name twice, and the
      map of those entries. */
  lemma {:induction false} ParseExact<L(!new)>(lines: seq<L>, read: L -> Option<Pair>)
    ensures Parse(lines, read).Some? <==> AllEntries(lines, read)
    ensures Parse(lines, read).Some? ==> Holds(lines, read, Parse(lines, read).value)
  {
    if lines != [] {
      var front, last := lines[..|lines| - 1], lines[|lines| - 1];
      assert lines == front + [last];
      ParseExact(front, read);
      MoreEntries(front, last, read);
      if Parse(front, read).Some? && read(last).Some? {
        HeldNames(front, read, Parse(front, read).value, read(last).value.name);
        if read(last).value.name !in Parse(front, read).value {
          MoreHeld(front, last, read, Parse(front, read).value);
        }
      }
    }
  }

  lemma {:induction false} ParseAgrees<L(!new)>(lines: seq<L>, a: L -> Option<Pair>, b: L -> Option<Pair>)
    requires forall i | 0 <= i < |lines| :: a(lines[i]) == b(lines[i])
    ensures Parse(lines, a) == Parse(lines, b)
  {
    if lines != [] {
      ParseAgrees(lines[..|lines| - 1], a, b);
    }
  }

  /** A reader stricter about names gives the same map wherever its names are those. */
  lemma StricterReader(lines: seq<string>, a: string -> bool, b: string -> bool)
    requires Parse(lines, Reader(a)).Some? && forall k | k in Parse(lines, Reader(a)).value :: b(k)
    ensures Parse(lines, Reader(b)) == Parse(lines, Reader(a))
  {
    ParseExact(lines, Reader(a));
    forall i | 0 <= i < |lines| ensures Reader(a)(lines[i]) == Reader(b)(lines[i]) {
      assert Reader(a)(lines[i]).Some?;
    }
    ParseAgrees(lines, Reader(a), Reader(b));
  }

  /** One more line, and the end of it if that line fails. */
  lemma ParseStep<L>(lines: seq<L>, read: L -> Option<Pair>, i: nat)
    requires i < |lines|
    ensures Parse(lines[..i + 1], read) == Extend(Parse(lines[..i], read), read(lines[i]))
    ensures Parse(lines[..i + 1], read).None? ==> Parse(lines, read).None?
  {
    assert lines[..i + 1][..i] == lines[..i];
    if Parse(lines[..i + 1], read).None? {
      NoParse(lines, read, i + 1);
    }
  }

  lemma {:induction false} NoParse<L>(lines: seq<L>, read: L -> Option<Pair>, n: nat)
    requires n <= |lines| && Parse(lines[..n], read).None?
    ensures Parse(lines, read).None?
    decreases |lines|
  {
    if n == |lines| {
      assert lines[..n] == lines;
    } else {
      assert lines[..|lines| - 1][..n] == lines[..n];
      NoParse(lines[..|lines| - 1], read, n);
    }
  }

  lemma ParseOfPairs<L(!new)>(lines: seq<L>, read: L -> Option<Pair>, names: seq<string>, values: Config)
    requires |lines| == |names| && Distinct(names) && forall n :: n in names <==> n in values
    requires forall i | 0 <= i < |lines| :: read(lines[i]) == Some(Pair(names[i], values[names[i]]))
    ensures Parse(lines, read) == Some(values)
  {
    ParseExact(lines, read);
    var m := Parse(lines, read).value;
    forall k ensures k in m <==> k in values {
      if k in values {
        var i :| 0 <= i < |names| && names[i] == k;
        assert read(lines[i]).value.name == k;
      }
    }
    forall k | k in m ensures m[k] == values[k] {
      var i :| 0 <= i < |names| && names[i] == k;
      assert read(lines[i]).value.name == k;
    }
    assert m == values;
  }

  // ---------------------------------------------------------------- printing

  function Line(name: string, value: string): string {
    name + "=" + value
  }

  lemma LineSplits(name: string, value: string)
    requires LoaderName(name)
    ensures '=' in Line(name, value) && Name(Line(name, value)) == name && Value(Line(name, value)) == value
  {
    var line := Line(name, value);
    assert line[|name|] == '=';
    UpToIs(line, c => c == '=', |name|);
  }

  function PrintedLines(names: seq<string>, values: Config): (lines: seq<string>)
    requires forall n | n in names :: n in values
    ensures |lines| == |names| && forall i | 0 <= i < |names| :: lines[i] == Line(names[i], values[names[i]])
  {
    seq(|names|, i requires 0 <= i < |names| => Line(names[i], values[names[i]]))
  }

  /** Every line ends in a line feed. */
  function Terminated(lines: seq<string>): string {
    if lines == [] then "" else Terminated(lines[..|lines| - 1]) + lines[|lines| - 1] + "\n"
  }

  function Print(names: seq<string>, values: Config): string
    requires forall n | n in names :: n in values
  {
    Terminated(PrintedLines(names, values))
  }

  /** runtime_config_bytes over the names in the order given; the build sorts them. */
  method RuntimeConfigBytes(names: seq<string>, values: Config) returns (encoded: Result<string>)
    requires forall n | n in names :: n in values
    ensures encoded.Ok? <==> forall n | n in names :: Clean(values[n])
    ensures encoded.Ok? ==> encoded.value == Print(names, values)
  {
    var bytes := "";
    for i := 0 to |names|
      invariant bytes == Terminated(PrintedLines(names, values)[..i])
      invariant forall k | 0 <= k < i :: Clean(values[names[k]])
    {
      var value := values[names[i]];
      if !Clean(value) {
        return Err("runtime configuration contains a control character");
      }
      var lines := PrintedLines(names, values);
      assert lines[..i + 1][..i] == lines[..i];
      bytes := bytes + Line(names[i], value) + "\n";
    }
    assert PrintedLines(names, values)[..|names|] == PrintedLines(names, values);
    encoded := Ok(bytes);
  }

  lemma {:induction false} TerminatedFirst(lines: seq<string>)
    requires lines != []
    ensures Terminated(lines) == lines[0] + "\n" + Terminated(lines[1..])
  {
    if |lines| == 1 {
      assert lines[..0] == [] && lines[1..] == [];
    } else {
      var front, rest := lines[..|lines| - 1], lines[1..];
      TerminatedFirst(front);
      assert front[1..] == rest[..|rest| - 1] && rest[|rest| - 1] == lines[|lines| - 1];
      assert Terminated(rest) == Terminated(front[1..]) + lines[|lines| - 1] + "\n";
    }
  }

  lemma {:induction false} LinesOfTerminated(lines: seq<string>)
    requires forall l | l in lines :: IsLine(l)
    ensures Lines(Terminated(lines)) == lines
  {
    if lines != [] {
      TerminatedFirst(lines);
      var t, l := Terminated(lines), lines[0];
      assert l in lines;
      UpToIs(t, c => c == '\n', |l|);
      LinesOfTerminated(lines[1..]);
      assert t[..|l|] == l && t[|l| + 1..] == Terminated(lines[1..]);
    }
  }

  lemma PrintedIsLine(name: string, value: string)
    requires LoaderName(name) && Clean(value)
    ensures Clean(Line(name, value)) && IsLine(Line(name, value))
  {
    var line := Line(name, value);
    forall i | 0 <= i < |line| ensures !Control(line[i]) {
      if i < |name| {
        assert line[i] == name[i];
      } else if i > |name| {
        assert line[i] == value[i - |name| - 1];
      }
    }
  }

  /** Values that a file can carry, under every name listed and no other. */
  ghost predicate Complete(names: seq<string>, values: Config) {
    && Distinct(names) && (forall n | n in names :: ToolName(n))
    && (forall n :: n in names <==> n in values)
    && (forall n | n in values :: Clean(values[n]))
  }

  lemma PrintedLineReads(name: string, value: string, named: string -> bool)
    requires LoaderName(name) && named(name) && Clean(value)
    ensures Reader(named)(Line(name, value)) == Some(Pair(name, value))
  {
    LineSplits(name, value);
  }

  lemma PrintedParses(names: seq<string>, values: Config, named: string -> bool)
    requires Complete(names, values) && forall n | n in names :: named(n)
    ensures Parse(PrintedLines(names, values), Reader(named)) == Some(values)
  {
    var lines := PrintedLines(names, values);
    forall i | 0 <= i < |lines| ensures Reader(named)(lines[i]) == Some(Pair(names[i], values[names[i]])) {
      assert names[i] in names;
      PrintedLineReads(names[i], values[names[i]], named);
    }
    ParseOfPairs(lines, Reader(named), names, values);
  }

  lemma PrintedAreLines(names: seq<string>, values: Config)
    requires Complete(names, values)
    ensures
      var lines := PrintedLines(names, values);
      forall i | 0 <= i < |names| :: Clean(lines[i]) && IsLine(lines[i])
  {
    var lines := PrintedLines(names, values);
    forall i | 0 <= i < |names| ensures Clean(lines[i]) && IsLine(lines[i]) {
      assert names[i] in names;
      PrintedIsLine(names[i], values[names[i]]);
    }
  }

  // ------------------------------------------------------------------ loader

  function Listed(keys: seq<string>): string -> bool {
    n => LoaderName(n) && n in keys
  }

  /** What the loader accepts, and the values it sets. */
  function Loaded(keys: seq<string>, contents: string): Option<Config> {
    LoadedLines(keys, Lines(contents))
  }

  function LoadedLines(keys: seq<string>, lines: seq<string>): Option<Config> {
    var parsed := Parse(lines, Reader(Listed(keys)));
    if parsed.Some? && forall k | k in keys :: k in parsed.value then parsed else None
  }

  lemma {:induction false} DistinctNames(names: seq<string>)
    requires Distinct(names)
    ensures |set n | n in names| == |names|
  {
    if names != [] {
      var front, last := names[..|names| - 1], names[|names| - 1];
      DistinctNames(front);
      assert names == front + [last] && last !in front;
      assert (set n | n in names) == (set n | n in front) + {last};
    }
  }

  lemma SameNamesSameLength(a: seq<string>, b: seq<string>)
    requires Distinct(a) && Distinct(b) && forall n :: n in a <==> n in b
    ensures |a| == |b|
  {
    DistinctNames(a);
    DistinctNames(b);
    assert (set n | n in a) == (set n | n in b);
  }

  /** What the loop has done after the lines read so far. */
  ghost predicate Loading(keys: seq<string>, parsed: Option<Config>, ambient: Config, vars: Config, seen: seq<string>) {
    && parsed.Some? && vars == ambient + parsed.value
    && (forall k :: k in seen <==> k in parsed.value)
    && Distinct(seen) && (forall k | k in seen :: k in keys)
  }

  lemma LoadingStep(keys: seq<string>, parsed: Option<Config>, ambient: Config, vars: Config, seen: seq<string>,
                    e: Pair)
    requires Loading(keys, parsed, ambient, vars, seen) && e.name in keys && e.name !in seen
    ensures Loading(keys, Extend(parsed, Some(e)), ambient, vars[e.name := e.value], seen + [e.name])
  {
  }

  lemma LoadingEnds(keys: seq<string>, parsed: Option<Config>, ambient: Config, vars: Config, seen: seq<string>)
    requires Loading(keys, parsed, ambient, vars, seen) && Distinct(keys)
    ensures (|seen| != |keys| || exists k | k in keys :: k !in seen) <==> exists k | k in keys :: k !in parsed.value
  {
    if forall k | k in keys :: k in seen {
      SameNamesSameLength(seen, keys);
    }
  }

  /** The loading loop over the allowlist, and the environment it leaves behind. */
  method Load(keys: seq<string>, contents: string, ambient: Config) returns (env: Result<Config>)
    requires Distinct(keys)
    ensures env.Ok? <==> Loaded(keys, contents).Some?
    ensures env.Ok? ==> env.value == ambient + Loaded(keys, contents).value
  {
    var lines := Lines(contents);
    ghost var read := Reader(Listed(keys));
    var vars := ambient;
    var seen: seq<string> := [];
    for i := 0 to |lines|
      invariant Loading(keys, Parse(lines[..i], read), ambient, vars, seen)
    {
      ParseStep(lines, read, i);
      var line := lines[i];
      if '=' !in line {
        return Err("invalid baked image configuration line");
      }
      var name, value := Name(line), Value(line);
      if !LoaderName(name) || !Clean(value) {
        return Err("invalid baked image configuration line");
      }
      if name !in keys || name in seen {
        return Err("invalid baked image configuration key");
      }
      LoadingStep(keys, Parse(lines[..i], read), ambient, vars, seen, Pair(name, value));
      vars := vars[name := value];
      seen := seen + [name];
    }
    assert lines[..|lines|] == lines;
    LoadingEnds(keys, Parse(lines, read), ambient, vars, seen);
    if |seen| != |keys| || exists k | k in keys :: k !in seen {
      return Err("baked image configuration is incomplete");
    }
    env := Ok(vars);
  }

  lemma ListedReads(line: string, keys: seq<string>)
    ensures
      var plain := Reader(LoaderName)(line);
      Reader(Listed(keys))(line) == if plain.Some? && plain.value.name in keys then plain else None
  {
  }

  lemma ListedEntries(lines: seq<string>, keys: seq<string>)
    ensures
      var read := Reader(LoaderName);
      AllEntries(lines, Reader(Listed(keys))) <==>
        AllEntries(lines, read) && forall i | 0 <= i < |lines| :: read(lines[i]).value.name in keys
  {
    forall i | 0 <= i < |lines|
      ensures
        var plain := Reader(LoaderName)(lines[i]);
        Reader(Listed(keys))(lines[i]) == if plain.Some? && plain.value.name in keys then plain else None
    {
      ListedReads(lines[i], keys);
    }
    if AllEntries(lines, Reader(Listed(keys))) {
      assert forall i | 0 <= i < |lines| :: Reader(Listed(keys))(lines[i]).Some?;
    }
  }

  /** A file with one well-formed line for every listed name and none besides. */
  ghost predicate OneLineEach<L(!new)>(lines: seq<L>, read: L -> Option<Pair>, keys: seq<string>) {
    && AllEntries(lines, read)
    && (forall i | 0 <= i < |lines| :: read(lines[i]).value.name in keys)
    && (forall k | k in keys :: exists i | 0 <= i < |lines| :: read(lines[i]).value.name == k)
  }

  ghost predicate NamesListed<L(!new)>(lines: seq<L>, read: L -> Option<Pair>, keys: seq<string>) {
    AllEntries(lines, read) ==> forall i | 0 <= i < |lines| :: read(lines[i]).value.name in keys
  }

  lemma ParseCovers<L(!new)>(lines: seq<L>, read: L -> Option<Pair>, keys: seq<string>)
    requires NamesListed(lines, read, keys)
    ensures OneLineEach(lines, read, keys) <==>
      Parse(lines, read).Some? && forall k | k in keys :: k in Parse(lines, read).value
    ensures OneLineEach(lines, read, keys) ==> forall k :: k in Parse(lines, read).value <==> k in keys
  {
    ParseExact(lines, read);
  }

  lemma ListedEach(lines: seq<string>, keys: seq<string>)
    ensures OneLineEach(lines, Reader(Listed(keys)), keys) <==> OneLineEach(lines, Reader(LoaderName), keys)
    ensures NamesListed(lines, Reader(Listed(keys)), keys)
  {
    var read, listed := Reader(LoaderName), Reader(Listed(keys));
    ListedEntries(lines, keys);
    if AllEntries(lines, listed) {
      forall i | 0 <= i < |lines| ensures listed(lines[i]) == read(lines[i]) {
        ListedReads(lines[i], keys);
        assert listed(lines[i]).Some?;
      }
      SameReading(lines, read, listed, keys);
    }
  }

  /** The loader succeeds exactly on such files: a repeated, missing or unknown name, or
      a malformed line, is refused. */
  lemma LoadedExactly(keys: seq<string>, contents: string)
    ensures Loaded(keys, contents).Some? <==> OneLineEach(Lines(contents), Reader(LoaderName), keys)
    ensures Loaded(keys, contents).Some? ==> forall k :: k in Loaded(keys, contents).value <==> k in keys
  {
    LoadedLinesExactly(keys, Lines(contents));
  }

  lemma LoadedLinesExactly(keys: seq<string>, lines: seq<string>)
    ensures LoadedLines(keys, lines).Some? <==> OneLineEach(lines, Reader(LoaderName), keys)
    ensures LoadedLines(keys, lines).Some? ==> forall k :: k in LoadedLines(keys, lines).value <==> k in keys
  {
    ListedEach(lines, keys);
    LoadedListed(keys, lines, Reader(Listed(keys)));
  }

  lemma LoadedListed(keys: seq<string>, lines: seq<string>, read: string -> Option<Pair>)
    requires read == Reader(Listed(keys)) && NamesListed(lines, read, keys)
    ensures LoadedLines(keys, lines).Some? <==> OneLineEach(lines, read, keys)
    ensures LoadedLines(keys, lines).Some? ==> forall k :: k in LoadedLines(keys, lines).value <==> k in keys
  {
    ParseCovers(lines, read, keys);
  }

  lemma SameReading<L(!new)>(lines: seq<L>, a: L -> Option<Pair>, b: L -> Option<Pair>, keys: seq<string>)
    requires forall i | 0 <= i < |lines| :: a(lines[i]) == b(lines[i])
    ensures OneLineEach(lines, a, keys) <==> OneLineEach(lines, b, keys)
  {
    assert AllEntries(lines, a) <==> AllEntries(lines, b);
  }

  /** Round trip through the loader, whatever the order of the lines. */
  lemma LoadedPrint(keys: seq<string>, names: seq<string>, values: Config)
    requires Complete(names, values) && forall n :: n in names <==> n in keys
    ensures Loaded(keys, Print(names, values)) == Some(values)
  {
    PrintedParses(names, values, Listed(keys));
    PrintedAreLines(names, values);
    LinesOfTerminated(PrintedLines(names, values));
  }

  // -------------------------------------------------------------- migration

  /** str.split on the line feed: separators separate, nothing is stripped. */
  function Pieces(t: string): (pieces: seq<string>)
    ensures pieces != []
    decreases |t|
  {
    var k := UpTo(t, c => c == '\n');
    if k == |t| then [t] else [t[..k]] + Pieces(t[k + 1..])
  }

  const PROFILE_NAME := "KIOKU_BUILD_PROFILE"

  predicate Production(values: Config) {
    PROFILE_NAME in values && values[PROFILE_NAME] == "production"
  }

  /** The shape the tool insists on before it looks at entries. */
  predicate Framed(text: string) {
    && text != "" && text[|text| - 1] == '\n' && '\r' !in text && '\0' !in text
    && "" !in Pieces(text[..|text| - 1])
  }

  function Recovered(text: string): Option<Config> {
    if !Framed(text) then None
    else
      var parsed := Parse(Pieces(text[..|text| - 1]), Reader(ToolName));
      if parsed.Some? && Production(parsed.value) then parsed else None
  }

  /** parse_deployed_entries. */
  method ParseDeployedEntries(entries: seq<string>) returns (result: Result<Config>)
    ensures result.Ok? <==> Parse(entries, Reader(ToolName)).Some? && Production(Parse(entries, Reader(ToolName)).value)
    ensures result.Ok? ==> result.value == Parse(entries, Reader(ToolName)).value
  {
    var values: Config := map[];
    for i := 0 to |entries|
      invariant Parse(entries[..i], Reader(ToolName)) == Some(values)
    {
      ParseStep(entries, Reader(ToolName), i);
      if '=' !in entries[i] {
        return Err("deployed image configuration contained a malformed entry");
      }
      var name, value := Name(entries[i]), Value(entries[i]);
      if !ToolName(name) || !Clean(value) {
        return Err("deployed image configuration contained a malformed entry");
      }
      if name in values {
        return Err("deployed image configuration contained a duplicate name");
      }
      values := values[name := value];
    }
    assert entries[..|entries|] == entries;
    if !Production(values) {
      return Err("the selected deployed image is not a production build");
    }
    result := Ok(values);
  }

  /** The text part of read_baked_configuration. */
  method ReadBakedConfiguration(text: string) returns (result: Result<Config>)
    ensures result.Ok? <==> Recovered(text).Some?
    ensures result.Ok? ==> result.value == Recovered(text).value
  {
    if !Framed(text) {
      return Err("deployed image configuration was malformed");
    }
    result := ParseDeployedEntries(Pieces(text[..|text| - 1]));
  }

  /** The first piece of a text and the first line of the same text terminated. */
  lemma FirstPieceIsFirstLine(body: string) returns (first: string, more: bool, rest: string)
    requires '\r' !in body && "" !in Pieces(body)
    ensures Pieces(body) == if more then [first] + Pieces(rest) else [first]
    ensures Lines(body + "\n") == if more then [first] + Lines(rest + "\n") else [first]
    ensures more ==> |rest| < |body| && '\r' !in rest
  {
    var text := body + "\n";
    var k := UpTo(body, c => c == '\n');
    UpToIs(text, c => c == '\n', k);
    first, more := body[..k], k < |body|;
    assert text[..k] == first && StripCr(first) == first by {
      assert k > 0 ==> first[k - 1] in body;
    }
    if more {
      rest := body[k + 1..];
      assert text[k + 1..] == rest + "\n";
    } else {
      rest := "";
      assert text[k + 1..] == "" && first == body;
    }
  }

  /** On text the tool accepts, its pieces are the loader's lines. */
  lemma {:induction false} PiecesAreLines(body: string)
    requires '\r' !in body && "" !in Pieces(body)
    ensures Lines(body + "\n") == Pieces(body)
    decreases |body|
  {
    var first, more, rest := FirstPieceIsFirstLine(body);
    if more {
      assert "" !in Pieces(rest) by {
        assert forall p | p in Pieces(rest) :: p in [first] + Pieces(rest);
      }
      PiecesAreLines(rest);
    }
  }

  /** A line feed after every line is one between any two and one at the end. */
  lemma {:induction false} TerminatedIsJoined(lines: seq<string>)
    requires lines != []
    ensures Terminated(lines) == Join(lines, '\n') + "\n"
  {
    TerminatedFirst(lines);
    if |lines| == 1 {
      assert lines[1..] == [];
    } else {
      TerminatedIsJoined(lines[1..]);
    }
  }

  lemma {:induction false} PiecesOfJoin(lines: seq<string>)
    requires lines != [] && forall l | l in lines :: IsLine(l)
    ensures Pieces(Join(lines, '\n')) == lines
  {
    var t, l := Join(lines, '\n'), lines[0];
    assert l in lines;
    UpToIs(t, c => c == '\n', |l|);
    if |lines| > 1 {
      PiecesOfJoin(lines[1..]);
      assert t[..|l|] == l && t[|l| + 1..] == Join(lines[1..], '\n');
    }
  }

  lemma {:induction false} TerminatedChars(lines: seq<string>)
    requires forall i | 0 <= i < |lines| :: Clean(lines[i])
    ensures forall c | c in Terminated(lines) :: c == '\n' || !Control(c)
  {
    if lines != [] {
      TerminatedChars(lines[..|lines| - 1]);
    }
  }

  /** A line feed after every line, and no control character inside any, is a frame. */
  lemma LinesAreFramed(lines: seq<string>)
    requires lines != [] && forall i | 0 <= i < |lines| :: Clean(lines[i]) && IsLine(lines[i])
    ensures
      var text := Terminated(lines);
      Framed(text) && Pieces(text[..|text| - 1]) == lines
  {
    var text := Terminated(lines);
    TerminatedChars(lines);
    assert Control('\r') && Control('\0');
    TerminatedIsJoined(lines);
    assert text[..|text| - 1] == Join(lines, '\n');
    PiecesOfJoin(lines);
  }

  lemma PrintedIsFramed(names: seq<string>, values: Config)
    requires Complete(names, values) && names != []
    ensures
      var text := Print(names, values);
      Framed(text) && Pieces(text[..|text| - 1]) == PrintedLines(names, values)
  {
    PrintedAreLines(names, values);
    LinesAreFramed(PrintedLines(names, values));
  }

  /** Round trip through the migration tool. */
  lemma RecoveredPrint(names: seq<string>, values: Config)
    requires Complete(names, values) && Production(values)
    ensures Recovered(Print(names, values)) == Some(values)
  {
    assert PROFILE_NAME in names;
    PrintedIsFramed(names, values);
    PrintedParses(names, values, ToolName);
  }

  lemma FramedReadsAlike(text: string)
    requires Framed(text)
    ensures Lines(text) == Pieces(text[..|text| - 1])
  {
    var body := text[..|text| - 1];
    assert text == body + [text[|text| - 1]];
    assert forall c | c in body :: c in text;
    PiecesAreLines(body);
  }

  /** What the tool recovers, the loader loads, exactly when it is the listed names. */
  lemma LoaderReadsRecovered(keys: seq<string>, text: string)
    requires Recovered(text).Some?
    ensures
      var listed := forall k :: k in Recovered(text).value <==> k in keys;
      Loaded(keys, text) == if listed then Recovered(text) else None
  {
    FramedReadsAlike(text);
    var lines := Lines(text);
    NamesPass(lines, ToolName);
    if forall k | k in Recovered(text).value :: k in keys {
      StricterReader(lines, ToolName, Listed(keys));
    } else if Parse(lines, Reader(Listed(keys))).Some? {
      NamesPass(lines, Listed(keys));
      StricterRefusal(lines, keys);
    }
  }

  lemma NamesPass(lines: seq<string>, named: string -> bool)
    requires Parse(lines, Reader(named)).Some?
    ensures forall k | k in Parse(lines, Reader(named)).value :: named(k)
  {
    var read := Reader(named);
    ParseExact(lines, read);
    forall k | k in Parse(lines, read).value ensures named(k) {
      var i :| 0 <= i < |lines| && read(lines[i]).value.name == k;
      assert read(lines[i]).Some?;
    }
  }

  lemma StricterRefusal(lines: seq<string>, keys: seq<string>)
    requires Parse(lines, Reader(Listed(keys))).Some? && Parse(lines, Reader(ToolName)).Some?
    ensures Parse(lines, Reader(Listed(keys))) == Parse(lines, Reader(ToolName))
  {
    var a, b := Reader(Listed(keys)), Reader(ToolName);
    ParseExact(lines, a);
    ParseExact(lines, b);
    forall i | 0 <= i < |lines| ensures a(lines[i]) == b(lines[i]) {
      assert a(lines[i]).Some? && b(lines[i]).Some?;
    }
    ParseAgrees(lines, a, b);
  }

  /** What the loader loads, the tool recovers, exactly when it is framed and for
      production; the listed names all start with a letter. */
  lemma ToolReadsLoaded(keys: seq<string>, text: string)
    requires Loaded(keys, text).Some? && forall k | k in keys :: ToolName(k)
    ensures Recovered(text) == if Framed(text) && Production(Loaded(keys, text).value) then Loaded(keys, text) else None
  {
    var lines := Lines(text);
    NamesPass(lines, Listed(keys));
    StricterReader(lines, Listed(keys), ToolName);
    if Framed(text) {
      FramedReadsAlike(text);
    }
  }

  // ---------------------------------------------------------- build to launch

  /** The selected configuration keeps some values under other names; `source` says
      which. The name itself is the fallback. */
  predicate Provides(configuration: Config, source: string -> string, name: string) {
    name == PROFILE_NAME || source(name) in configuration || name in configuration
  }

  function Provided(configuration: Config, source: string -> string, profile: string, name: string): string
    requires Provides(configuration, source, name)
  {
    if name == PROFILE_NAME then profile
    else if source(name) in configuration then configuration[source(name)]
    else configuration[name]
  }

  /** The values of an image: every listed name with what the configuration provides. */
  function Runtime(keys: seq<string>, source: string -> string, configuration: Config, profile: string): Config
    requires forall k | k in keys :: Provides(configuration, source, k)
  {
    map k | k in keys :: Provided(configuration, source, profile, k)
  }

  /** runtime_config; a name nobody provides is an error. */
  method RuntimeConfig(keys: seq<string>, source: string -> string, configuration: Config, profile: string)
      returns (values: Result<Config>)
    ensures values.Ok? <==> forall k | k in keys :: Provides(configuration, source, k)
    ensures values.Ok? ==> values.value == Runtime(keys, source, configuration, profile)
    ensures values.Ok? ==> forall k :: k in values.value <==> k in keys
    ensures values.Ok? ==> forall k | k in keys ::
              && (k == PROFILE_NAME ==> values.value[k] == profile)
              && (k != PROFILE_NAME && source(k) in configuration ==> values.value[k] == configuration[source(k)])
              && (k != PROFILE_NAME && source(k) !in configuration ==>
                    k in configuration && values.value[k] == configuration[k])
  {
    var result: Config := map[];
    for i := 0 to |keys|
      invariant forall k | 0 <= k < i :: Provides(configuration, source, keys[k])
      invariant forall n :: n in result <==> n in keys[..i]
      invariant forall n | n in result :: result[n] == Provided(configuration, source, profile, n)
    {
      if !Provides(configuration, source, keys[i]) {
        return Err(keys[i]);
      }
      assert keys[..i + 1] == keys[..i] + [keys[i]];
      result := result[keys[i] := Provided(configuration, source, profile, keys[i])];
    }
    assert keys[..|keys|] == keys;
    values := Ok(result);
  }

  /** From build to launch and back: whatever order the names are printed in, the server
      started from the image sees exactly the values of the build, and the migration tool
      recovers exactly them from a production image and refuses every other profile. */
  lemma BuildReachesLaunch(keys: seq<string>, names: seq<string>, source: string -> string, configuration: Config,
                           profile: string)
    requires forall k | k in keys :: ToolName(k) && Provides(configuration, source, k)
    requires Distinct(names) && PROFILE_NAME in keys && forall n :: n in names <==> n in keys
    ensures
      var values := Runtime(keys, source, configuration, profile);
      (forall k | k in keys :: Clean(values[k])) ==>
        && Loaded(keys, Print(names, values)) == Some(values)
        && Recovered(Print(names, values)) == if profile == "production" then Some(values) else None
  {
    var values := Runtime(keys, source, configuration, profile);
    if forall k | k in keys :: Clean(values[k]) {
      var text := Print(names, values);
      LoadedPrint(keys, names, values);
      ToolReadsLoaded(keys, text);
      PrintedIsFramed(names, values);
    }
  }
}
