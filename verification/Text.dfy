/** Operations on text that several components use. Text is a sequence of
    characters; which of them are white space is a parameter. */
module Text {

  function TrimStart(t: string, ws: char -> bool): string {
    if t != "" && ws(t[0]) then TrimStart(t[1..], ws) else t
  }

  function TrimEnd(t: string, ws: char -> bool): string {
    if t != "" && ws(t[|t| - 1]) then TrimEnd(t[..|t| - 1], ws) else t
  }

  /** str::trim. */
  function Trim(t: string, ws: char -> bool): string {
    TrimEnd(TrimStart(t, ws), ws)
  }

  /** What is left of a text without the white space at its ends, and nothing less. */
  ghost predicate TrimmedAt(t: string, r: string, ws: char -> bool, start: nat) {
    && start + |r| <= |t| && t[start..start + |r|] == r
    && (forall i | 0 <= i < start :: ws(t[i])) && (forall i | start + |r| <= i < |t| :: ws(t[i]))
    && (r != "" ==> !ws(r[0]) && !ws(r[|r| - 1]))
  }

  lemma {:induction false} TrimStartExact(t: string, ws: char -> bool) returns (start: nat)
    ensures start <= |t| && TrimStart(t, ws) == t[start..]
    ensures (forall i | 0 <= i < start :: ws(t[i])) && (start < |t| ==> !ws(t[start]))
  {
    if t != "" && ws(t[0]) {
      var k := TrimStartExact(t[1..], ws);
      start := k + 1;
      assert t[1..][k..] == t[start..];
      assert forall i | 1 <= i < start :: t[i] == t[1..][i - 1];
    } else {
      start := 0;
      assert t[0..] == t;
    }
  }

  lemma {:induction false} TrimEndExact(t: string, ws: char -> bool) returns (end: nat)
    ensures end <= |t| && TrimEnd(t, ws) == t[..end]
    ensures (forall i | end <= i < |t| :: ws(t[i])) && (end > 0 ==> !ws(t[end - 1]))
  {
    if t != "" && ws(t[|t| - 1]) {
      end := TrimEndExact(t[..|t| - 1], ws);
      assert t[..|t| - 1][..end] == t[..end];
    } else {
      end := |t|;
      assert t[..end] == t;
    }
  }

  lemma TrimExact(t: string, ws: char -> bool) returns (start: nat)
    ensures TrimmedAt(t, Trim(t, ws), ws, start)
  {
    start := TrimStartExact(t, ws);
    var tail := t[start..];
    var end := TrimEndExact(tail, ws);
    assert tail[..end] == t[start..start + end];
    forall i | start + end <= i < |t| ensures ws(t[i]) {
      assert t[i] == tail[i - start];
    }
    if end > 0 {
      assert tail[0] == t[start] && t[start..start + end][end - 1] == tail[end - 1];
    }
  }

  function Join(parts: seq<string>, sep: char): string {
    if parts == [] then ""
    else if |parts| == 1 then parts[0]
    else parts[0] + [sep] + Join(parts[1..], sep)
  }

  /** Two texts that agree up to the first occurrence of a separator neither
      contains before it. */
  lemma SplitAt(sep: char, a: string, x: string, b: string, y: string)
    requires sep !in a && sep !in b && a + [sep] + x <= b + [sep] + y
    ensures a == b && x <= y
  {
    var s, t := a + [sep] + x, b + [sep] + y;
    assert forall i | 0 <= i < |a| :: t[i] == a[i];
    assert t[|a|] == sep;
    assert forall i | 0 <= i < |b| :: t[i] == b[i];
    assert t[|b|] == sep;
    assert |a| == |b|;
    assert a == t[..|a|] == b;
    assert x == s[|a| + 1..] && y == t[|a| + 1..];
  }

  /** The length of a prefix without the character, as long as possible. */
  function UpTo(t: string, stop: char -> bool): (k: nat)
    ensures k <= |t| && (forall i | 0 <= i < k :: !stop(t[i])) && (k < |t| ==> stop(t[k]))
  {
    if t == "" || stop(t[0]) then 0 else 1 + UpTo(t[1..], stop)
  }

  lemma UpToIs(t: string, stop: char -> bool, k: nat)
    requires k <= |t| && (forall i | 0 <= i < k :: !stop(t[i])) && (k < |t| ==> stop(t[k]))
    ensures UpTo(t, stop) == k
  {
  }

  lemma JoinFirst(part: string, rest: seq<string>, sep: char)
    requires rest != []
    ensures Join([part] + rest, sep) == part + [sep] + Join(rest, sep)
  {
    assert ([part] + rest)[1..] == rest;
  }

  // ------------------------------------------------------------------- lines

  function StripCr(line: string): string {
    if line != "" && line[|line| - 1] == '\r' then line[..|line| - 1] else line
  }

  /** str::lines: a final line feed starts no further line, and a carriage return
      goes with the line feed that follows it. */
  function Lines(t: string): seq<string>
    decreases |t|
  {
    if t == "" then []
    else
      var k := UpTo(t, c => c == '\n');
      if k == |t| then [t] else [StripCr(t[..k])] + Lines(t[k + 1..])
  }

  // How a text falls into lines: up to each line feed, less a carriage return just before
  // it, and what remains after the last one if there is anything.

  lemma LastLine(line: string)
    requires '\n' !in line
    ensures Lines(line) == if line == "" then [] else [line]
  {
    UpToIs(line, c => c == '\n', |line|);
  }

  lemma LineWithReturn(line: string, rest: string)
    requires '\n' !in line
    ensures Lines(line + "\r" + "\n" + rest) == [line] + Lines(rest)
  {
    var all := line + "\r";
    OneLine(all, rest);
    assert all[..|all| - 1] == line;
  }

  lemma OneLine(line: string, rest: string)
    requires '\n' !in line
    ensures Lines(line + "\n" + rest) == [StripCr(line)] + Lines(rest)
  {
    var t := line + "\n" + rest;
    UpToIs(t, c => c == '\n', |line|);
    assert t[..|line|] == line && t[|line| + 1..] == rest;
  }

  predicate IsLine(t: string) {
    t != "" && '\n' !in t && t[|t| - 1] != '\r'
  }

  lemma {:induction false} LinesOfJoin(parts: seq<string>)
    requires forall p | p in parts :: IsLine(p)
    ensures Lines(Join(parts, '\n')) == parts
  {
    if parts != [] {
      var t, p := Join(parts, '\n'), parts[0];
      assert p in parts;
      UpToIs(t, c => c == '\n', |p|);
      if |parts| > 1 {
        LinesOfJoin(parts[1..]);
        assert t[..|p|] == p && t[|p| + 1..] == Join(parts[1..], '\n');
      }
    }
  }

  // ------------------------------------------------------------------- words

  /** str::split_whitespace. */
  function Words(t: string, ws: char -> bool): seq<string>
    decreases |t|
  {
    if t == "" then []
    else if ws(t[0]) then Words(t[1..], ws)
    else
      var k := UpTo(t, ws);
      [t[..k]] + Words(t[k..], ws)
  }

  predicate IsWord(t: string, ws: char -> bool) {
    t != "" && forall i | 0 <= i < |t| :: !ws(t[i])
  }

  lemma {:induction false} WordsAreWords(t: string, ws: char -> bool)
    ensures forall w | w in Words(t, ws) :: IsWord(w, ws)
    decreases |t|
  {
    if t != "" {
      WordsAreWords(t[if ws(t[0]) then 1 else UpTo(t, ws)..], ws);
    }
  }

  /** The characters that are not white space, in order. */
  function NonSpaces(t: string, ws: char -> bool): string {
    if t == "" then "" else (if ws(t[0]) then "" else [t[0]]) + NonSpaces(t[1..], ws)
  }

  function Concat(parts: seq<string>): string {
    if parts == [] then "" else parts[0] + Concat(parts[1..])
  }

  lemma {:induction false} NonSpacesAfterWord(t: string, k: nat, ws: char -> bool)
    requires k <= |t| && forall i | 0 <= i < k :: !ws(t[i])
    ensures NonSpaces(t, ws) == t[..k] + NonSpaces(t[k..], ws)
  {
    if k > 0 {
      NonSpacesAfterWord(t[1..], k - 1, ws);
      assert t[1..][k - 1..] == t[k..] && t[..k] == [t[0]] + t[1..][..k - 1];
    } else {
      assert t[0..] == t;
    }
  }

  /** Splitting at white space loses nothing else. */
  lemma {:induction false} WordsKeepAll(t: string, ws: char -> bool)
    ensures Concat(Words(t, ws)) == NonSpaces(t, ws)
    decreases |t|
  {
    if t != "" && ws(t[0]) {
      WordsKeepAll(t[1..], ws);
    } else if t != "" {
      var k := UpTo(t, ws);
      WordsKeepAll(t[k..], ws);
      NonSpacesAfterWord(t, k, ws);
    }
  }

  lemma {:induction false} WordsOfJoin(words: seq<string>, ws: char -> bool)
    requires ws(' ') && forall w | w in words :: IsWord(w, ws)
    ensures Words(Join(words, ' '), ws) == words
  {
    if words != [] {
      var t, w := Join(words, ' '), words[0];
      assert w in words;
      UpToIs(t, ws, |w|);
      if |words| == 1 {
        assert t[..|w|] == w && t[|w|..] == "" && words == [w];
      } else {
        WordsOfJoin(words[1..], ws);
        assert t[..|w|] == w && t[|w|..][1..] == Join(words[1..], ' ');
      }
    }
  }

  /** Runs of white space become one space, and the ends are trimmed. */
  function Compact(t: string, ws: char -> bool): string {
    Join(Words(t, ws), ' ')
  }

  lemma CompactIdempotent(t: string, ws: char -> bool)
    requires ws(' ')
    ensures Compact(Compact(t, ws), ws) == Compact(t, ws)
  {
    WordsAreWords(t, ws);
    WordsOfJoin(Words(t, ws), ws);
  }

  lemma {:induction false} JoinedEnds(words: seq<string>, ws: char -> bool)
    requires words != [] && forall w | w in words :: IsWord(w, ws)
    ensures
      var t := Join(words, ' ');
      t != "" && !ws(t[|t| - 1]) && forall i | 0 <= i < |t| :: t[i] == ' ' || !ws(t[i])
  {
    assert words[0] in words;
    if |words| > 1 {
      JoinedEnds(words[1..], ws);
    }
  }

  /** Compacted text is empty or a line of its own. */
  lemma CompactIsLine(t: string, ws: char -> bool)
    requires ws('\n') && ws('\r')
    ensures Compact(t, ws) == "" || IsLine(Compact(t, ws))
  {
    WordsAreWords(t, ws);
    if Words(t, ws) != [] {
      JoinedEnds(Words(t, ws), ws);
    }
  }

  // ----------------------------------------------------------------- lengths

  /** Characters with one separator after each part. */
  function Extent(parts: seq<string>): nat {
    if parts == [] then 0 else |parts[0]| + 1 + Extent(parts[1..])
  }

  lemma {:induction false} ExtentSnoc(parts: seq<string>, last: string)
    ensures Extent(parts + [last]) == Extent(parts) + |last| + 1
  {
    if parts == [] {
      assert parts + [last] == [last];
    } else {
      ExtentSnoc(parts[1..], last);
      assert (parts + [last])[1..] == parts[1..] + [last];
    }
  }

  lemma {:induction false} JoinLength(parts: seq<string>, sep: char)
    ensures parts != [] ==> |Join(parts, sep)| == Extent(parts) - 1
  {
    if |parts| > 1 {
      JoinLength(parts[1..], sep);
    }
  }

  lemma {:induction false} WordsExtent(t: string, ws: char -> bool)
    ensures Extent(Words(t, ws)) <= |t| + 1
    decreases |t|
  {
    if t != "" && ws(t[0]) {
      WordsExtent(t[1..], ws);
    } else if t != "" {
      var k := UpTo(t, ws);
      if k < |t| {
        WordsExtent(t[k + 1..], ws);
        assert Words(t[k..], ws) == Words(t[k + 1..], ws) by {
          assert t[k..][1..] == t[k + 1..];
        }
      }
    }
  }

  lemma CompactShrinks(t: string, ws: char -> bool)
    ensures |Compact(t, ws)| <= |t|
  {
    WordsExtent(t, ws);
    JoinLength(Words(t, ws), ' ');
  }

  lemma {:induction false} LinesExtent(t: string)
    ensures Extent(Lines(t)) <= |t| + 1
    decreases |t|
  {
    if t != "" {
      var k := UpTo(t, c => c == '\n');
      if k < |t| {
        LinesExtent(t[k + 1..]);
      }
    }
  }
}
