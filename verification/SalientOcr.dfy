/** The bounded projection of on-screen text. Character classes, lower-casing, the
    boilerplate test and the title score are parameters, so everything here holds for
    whatever they are. */
module SalientOcr {
  import opened Prelude
  import opened Text

  const MAX_LINES: nat := 24
  const MAX_CHARS: nat := 1_500
  const MAX_PROVIDED: nat := 4_000

  datatype Rules = Rules(
    ws: char -> bool,
    alnum: char -> bool,
    lower: string -> string,
    boilerplate: string -> bool,
    score: string -> int)

  datatype Candidate = Candidate(index: nat, text: string, score: int)

  function Information(t: string, alnum: char -> bool): nat {
    if t == "" then 0 else Information(t[..|t| - 1], alnum) + if alnum(t[|t| - 1]) then 1 else 0
  }

  ghost function Positions(t: string, alnum: char -> bool): set<int> {
    set i | 0 <= i < |t| && alnum(t[i])
  }

  /** It is the number of positions that hold an alphanumeric character. */
  lemma {:induction false} InformationCounts(t: string, alnum: char -> bool)
    ensures Information(t, alnum) == |Positions(t, alnum)|
  {
    if t != "" {
      InformationCounts(t[..|t| - 1], alnum);
      OneMorePosition(t[..|t| - 1], t[|t| - 1], alnum);
      assert t == t[..|t| - 1] + [t[|t| - 1]];
    }
  }

  lemma OneMorePosition(t: string, c: char, alnum: char -> bool)
    ensures Positions(t + [c], alnum) == Positions(t, alnum) + if alnum(c) then {|t|} else {}
  {
  }

  function Compacted(r: Rules, raw: string): (texts: seq<string>)
    ensures |texts| == |Lines(raw)| && forall i | 0 <= i < |texts| :: texts[i] == Compact(Lines(raw)[i], r.ws)
  {
    var lines := Lines(raw);
    seq(|lines|, i requires 0 <= i < |lines| => Compact(lines[i], r.ws))
  }

  // -------------------------------------------------------------- candidates

  /** A line that claims its lower-cased form for itself. */
  predicate Admitted(r: Rules, t: string) {
    |t| >= 2 && !r.boilerplate(t)
  }

  /** Line i is a candidate if it is admitted, no earlier admitted line has the same
      lower-cased form, and it holds at least two alphanumeric characters. An earlier
      line that lacks those still shadows it. */
  predicate IsCandidate(r: Rules, texts: seq<string>, i: nat) {
    && i < |texts| && Admitted(r, texts[i])
    && (forall j | 0 <= j < i :: Admitted(r, texts[j]) ==> r.lower(texts[j]) != r.lower(texts[i]))
    && Information(texts[i], r.alnum) >= 2
  }

  function At(r: Rules, texts: seq<string>, i: nat): Candidate
    requires i < |texts|
  {
    Candidate(i, texts[i], r.score(texts[i]))
  }

  predicate IndexOrdered(cs: seq<Candidate>) {
    forall i, j | 0 <= i < j < |cs| :: cs[i].index < cs[j].index
  }

  function CandidatesUpTo(r: Rules, texts: seq<string>, n: nat): (cs: seq<Candidate>)
    requires n <= |texts|
    ensures IndexOrdered(cs)
    ensures forall c :: c in cs <==> c.index < n && IsCandidate(r, texts, c.index) && c == At(r, texts, c.index)
  {
    if n == 0 then []
    else CandidatesUpTo(r, texts, n - 1) + if IsCandidate(r, texts, n - 1) then [At(r, texts, n - 1)] else []
  }

  /** The lower-cased forms claimed before line n. */
  ghost function Forms(r: Rules, texts: seq<string>, n: nat): set<string>
    requires n <= |texts|
  {
    set j | 0 <= j < n && Admitted(r, texts[j]) :: r.lower(texts[j])
  }

  lemma NextForm(r: Rules, texts: seq<string>, n: nat)
    requires n < |texts|
    ensures Forms(r, texts, n + 1) == Forms(r, texts, n) + if Admitted(r, texts[n]) then {r.lower(texts[n])} else {}
    ensures IsCandidate(r, texts, n) <==>
              Admitted(r, texts[n]) && r.lower(texts[n]) !in Forms(r, texts, n) && Information(texts[n], r.alnum) >= 2
  {
  }

  /** The scan with its set of forms seen so far. */
  method Scan(r: Rules, texts: seq<string>) returns (cs: seq<Candidate>)
    ensures cs == CandidatesUpTo(r, texts, |texts|)
  {
    var seen: set<string> := {};
    cs := [];
    for i := 0 to |texts|
      invariant cs == CandidatesUpTo(r, texts, i)
      invariant seen == Forms(r, texts, i)
    {
      NextForm(r, texts, i);
      var form := r.lower(texts[i]);
      if |texts[i]| < 2 || r.boilerplate(texts[i]) || form in seen {
        continue;
      }
      seen := seen + {form};
      if Information(texts[i], r.alnum) < 2 {
        continue;
      }
      cs := cs + [At(r, texts, i)];
    }
  }

  // --------------------------------------------------------------- selection

  /** Higher score first, then earlier line. */
  predicate Beats(a: Candidate, b: Candidate) {
    a.score > b.score || (a.score == b.score && a.index < b.index)
  }

  predicate Earlier(a: Candidate, b: Candidate) {
    a.index < b.index
  }

  ghost predicate Ordered(before: (Candidate, Candidate) -> bool, cs: seq<Candidate>) {
    forall i, j | 0 <= i < j < |cs| :: before(cs[i], cs[j])
  }

  ghost predicate Linear(before: (Candidate, Candidate) -> bool) {
    && (forall a, b :: before(a, b) ==> !before(b, a))
    && (forall a, b, c :: before(a, b) && before(b, c) ==> before(a, c))
    && (forall a: Candidate, b: Candidate :: a.index != b.index ==> before(a, b) || before(b, a))
  }

  ghost predicate DistinctLines(cs: seq<Candidate>) {
    forall i, j | 0 <= i < j < |cs| :: cs[i].index != cs[j].index
  }

  function Insert(before: (Candidate, Candidate) -> bool, cs: seq<Candidate>, c: Candidate): (r: seq<Candidate>)
    ensures multiset(r) == multiset(cs) + multiset{c}
  {
    if cs == [] || before(cs[|cs| - 1], c) then cs + [c]
    else
      assert cs == cs[..|cs| - 1] + [cs[|cs| - 1]];
      Insert(before, cs[..|cs| - 1], c) + [cs[|cs| - 1]]
  }

  /** sort_by: an ordered rearrangement. */
  function SortBy(before: (Candidate, Candidate) -> bool, cs: seq<Candidate>): (r: seq<Candidate>)
    ensures multiset(r) == multiset(cs)
  {
    if cs == [] then []
    else
      assert cs == cs[..|cs| - 1] + [cs[|cs| - 1]];
      Insert(before, SortBy(before, cs[..|cs| - 1]), cs[|cs| - 1])
  }

  lemma {:induction false} InsertKeepsOrder(before: (Candidate, Candidate) -> bool, cs: seq<Candidate>, c: Candidate)
    requires Linear(before) && Ordered(before, cs) && forall d | d in cs :: d.index != c.index
    ensures Ordered(before, Insert(before, cs, c))
  {
    var r := Insert(before, cs, c);
    if cs != [] {
      var front, last := cs[..|cs| - 1], cs[|cs| - 1];
      if before(last, c) {
        assert forall i | 0 <= i < |cs| - 1 :: before(cs[i], last);
      } else {
        assert last in cs;
        InsertKeepsOrder(before, front, c);
        var shorter := Insert(before, front, c);
        forall i | 0 <= i < |shorter| ensures before(shorter[i], last) {
          assert shorter[i] in multiset(shorter);
        }
      }
    }
  }

  lemma {:induction false} SortByOrders(before: (Candidate, Candidate) -> bool, cs: seq<Candidate>)
    requires Linear(before) && DistinctLines(cs)
    ensures Ordered(before, SortBy(before, cs))
  {
    if cs != [] {
      var front, last := cs[..|cs| - 1], cs[|cs| - 1];
      SortByOrders(before, front);
      forall d | d in SortBy(before, front) ensures d.index != last.index {
        assert d in multiset(front);
      }
      InsertKeepsOrder(before, SortBy(before, front), last);
    }
  }

  /** How many candidates come before c in the ranking. */
  function Rank(cs: seq<Candidate>, c: Candidate): nat {
    |Ahead(cs, c)|
  }

  function Ahead(cs: seq<Candidate>, c: Candidate): set<Candidate> {
    set d | d in cs && (d.score > c.score || (d.score == c.score && d.index < c.index))
  }

  /** The candidates ranked among the first k, in source order. */
  function TopRanked(cs: seq<Candidate>, all: seq<Candidate>, k: nat): (top: seq<Candidate>)
    ensures forall c :: c in top <==> c in cs && Rank(all, c) < k
  {
    if cs == [] then []
    else
      var front, last := cs[..|cs| - 1], cs[|cs| - 1];
      assert cs == front + [last];
      TopRanked(front, all, k) + if Rank(all, last) < k then [last] else []
  }

  lemma {:induction false} TopRankedInOrder(cs: seq<Candidate>, all: seq<Candidate>, k: nat)
    requires IndexOrdered(cs)
    ensures IndexOrdered(TopRanked(cs, all, k))
  {
    if cs != [] {
      var front, last := cs[..|cs| - 1], cs[|cs| - 1];
      TopRankedInOrder(front, all, k);
      var top := TopRanked(front, all, k);
      forall i | 0 <= i < |top| ensures top[i].index < last.index {
        assert top[i] in front;
      }
    }
  }

  lemma {:induction false} ElementsOfOrdered(before: (Candidate, Candidate) -> bool, cs: seq<Candidate>)
    requires Linear(before) && Ordered(before, cs)
    ensures |set c | c in cs| == |cs|
  {
    if cs != [] {
      var front, last := cs[..|cs| - 1], cs[|cs| - 1];
      ElementsOfOrdered(before, front);
      assert last !in front;
      assert (set c | c in cs) == (set c | c in front) + {last};
    }
  }

  lemma RankIsPosition(cs: seq<Candidate>, ranked: seq<Candidate>, i: nat)
    requires multiset(ranked) == multiset(cs) && Ordered(Beats, ranked) && i < |ranked|
    ensures Rank(cs, ranked[i]) == i
  {
    var ahead := ranked[..i];
    ElementsOfOrdered(Beats, ahead);
    forall d ensures d in cs && Beats(d, ranked[i]) <==> d in ahead {
      assert d in cs <==> d in multiset(ranked);
    }
    assert Ahead(cs, ranked[i]) == set d | d in ahead;
  }

  ghost predicate SameElements(a: seq<Candidate>, b: seq<Candidate>) {
    forall c :: c in a <==> c in b
  }

  /** Without their last elements they still have the same elements. */
  lemma DropSameLast(a: seq<Candidate>, b: seq<Candidate>)
    requires a != [] && b != [] && IndexOrdered(a) && IndexOrdered(b) && SameElements(a, b)
    ensures a[|a| - 1] == b[|b| - 1] && SameElements(a[..|a| - 1], b[..|b| - 1])
  {
    var x, y := a[|a| - 1], b[|b| - 1];
    assert x in b && y in a;
    assert x == y;
    var f, g := a[..|a| - 1], b[..|b| - 1];
    assert a == f + [x] && b == g + [y];
    forall c ensures c in f <==> c in g {
      assert c in f ==> c in a && c.index < x.index;
      assert c in g ==> c in b && c.index < y.index;
    }
  }

  lemma {:induction false} SameElementsSameOrder(a: seq<Candidate>, b: seq<Candidate>)
    requires IndexOrdered(a) && IndexOrdered(b) && SameElements(a, b)
    ensures a == b
  {
    assert (a != [] ==> a[0] in b) && (b != [] ==> b[0] in a);
    if a != [] && b != [] {
      DropSameLast(a, b);
      SameElementsSameOrder(a[..|a| - 1], b[..|b| - 1]);
      assert a == a[..|a| - 1] + [a[|a| - 1]] && b == b[..|b| - 1] + [b[|b| - 1]];
    }
  }

  /** Sorting by rank, truncating and sorting back by line is a filter: the lines kept
      are those with fewer than k candidates ahead of them, in source order. It holds
      for every way of sorting. */
  lemma SelectionIsRankFilter(cs: seq<Candidate>, ranked: seq<Candidate>, kept: seq<Candidate>, k: nat)
    requires IndexOrdered(cs)
    requires multiset(ranked) == multiset(cs) && Ordered(Beats, ranked)
    requires multiset(kept) == multiset(Truncate(ranked, k)) && Ordered(Earlier, kept)
    ensures kept == TopRanked(cs, cs, k)
    ensures |kept| <= k
  {
    var first := Truncate(ranked, k);
    assert |kept| == |multiset(kept)| == |multiset(first)| == |first|;
    var top := TopRanked(cs, cs, k);
    assert IndexOrdered(kept) by {
      forall i, j | 0 <= i < j < |kept| ensures kept[i].index < kept[j].index {
        assert Earlier(kept[i], kept[j]);
      }
    }
    forall c ensures c in kept <==> c in top {
      assert c in kept <==> c in multiset(first);
      assert c in cs <==> c in multiset(ranked);
      if c in ranked {
        var i :| 0 <= i < |ranked| && ranked[i] == c;
        RankIsPosition(cs, ranked, i);
        if c in first {
          var j :| 0 <= j < |first| && first[j] == c;
          RankIsPosition(cs, ranked, j);
        } else {
          assert i >= k;
        }
      }
    }
    TopRankedInOrder(cs, cs, k);
    SameElementsSameOrder(kept, top);
  }

  lemma SortedLinesDiffer(cs: seq<Candidate>, ranked: seq<Candidate>)
    requires IndexOrdered(cs) && multiset(ranked) == multiset(cs) && Ordered(Beats, ranked)
    ensures DistinctLines(ranked)
  {
    forall i, j | 0 <= i < j < |ranked| ensures ranked[i].index != ranked[j].index {
      assert ranked[i] in multiset(ranked) && ranked[j] in multiset(ranked);
      assert ranked[i] in cs && ranked[j] in cs;
      assert Beats(ranked[i], ranked[j]);
    }
  }

  function Truncate(cs: seq<Candidate>, k: nat): seq<Candidate> {
    if |cs| > k then cs[..k] else cs
  }

  /** The two sorts and the truncation amount to the filter. */
  lemma SortTruncateSort(cs: seq<Candidate>, k: nat)
    requires IndexOrdered(cs)
    ensures
      var kept := SortBy(Earlier, Truncate(SortBy(Beats, cs), k));
      kept == TopRanked(cs, cs, k) && |kept| <= k
  {
    var ranked := SortBy(Beats, cs);
    SortByOrders(Beats, cs);
    SortedLinesDiffer(cs, ranked);
    SortByOrders(Earlier, Truncate(ranked, k));
    SelectionIsRankFilter(cs, ranked, SortBy(Earlier, Truncate(ranked, k)), k);
  }

  lemma AtMostRanked(cs: seq<Candidate>, k: nat)
    requires IndexOrdered(cs)
    ensures |TopRanked(cs, cs, k)| <= k
  {
    SortTruncateSort(cs, k);
  }

  /** The candidates kept. */
  method Select(cs: seq<Candidate>) returns (kept: seq<Candidate>)
    requires IndexOrdered(cs)
    ensures kept == TopRanked(cs, cs, MAX_LINES) && |kept| <= MAX_LINES
  {
    kept := SortBy(Beats, cs);
    kept := Truncate(kept, MAX_LINES);
    kept := SortBy(Earlier, kept);
    SortTruncateSort(cs, MAX_LINES);
  }

  // ------------------------------------------------------------------ output

  /** The lines written into the room left, the last one cut to fit. */
  function Pack(texts: seq<string>, room: nat): (output: seq<string>) {
    if texts == [] || room == 0 then []
    else if |texts[0]| >= room then [texts[0][..room]]
    else [texts[0]] + Pack(texts[1..], room - |texts[0]| - 1)
  }

  /** Room for the next line, once `chars` are written. */
  function Room(chars: nat, first: bool): nat {
    var used := chars + if first then 0 else 1;
    if used > MAX_CHARS then 0 else MAX_CHARS - used
  }

  /** One line written leaves the rest for the room that is left. */
  lemma PackStep(texts: seq<string>, i: nat, room: nat)
    requires i < |texts| && room > 0
    ensures
      var line := Fit(texts[i], room);
      Pack(texts[i..], room) == [line] + Pack(texts[i + 1..], if |line| < room then room - |line| - 1 else 0)
  {
    assert texts[i..][0] == texts[i] && texts[i..][1..] == texts[i + 1..];
    if |texts[i]| == room {
      assert texts[i][..room] == texts[i];
    }
  }

  function Fit(line: string, room: nat): (cut: string)
    ensures |cut| <= room && (room > 0 && line != "" ==> cut != "")
  {
    if |line| > room then line[..room] else line
  }

  lemma WriteStep(texts: seq<string>, i: nat, output: seq<string>, chars: nat, first: bool)
    requires i < |texts| && Room(chars, first) > 0
    ensures
      var line := Fit(texts[i], Room(chars, first));
      output + Pack(texts[i..], Room(chars, first))
        == output + [line] + Pack(texts[i + 1..], Room(chars + (if first then 0 else 1) + |line|, false))
  {
    PackStep(texts, i, Room(chars, first));
  }

  /** The output loop with its running count. A line is never empty here, and there is
      room for it, so the skip of empty lines has nothing to skip. */
  method Write(texts: seq<string>) returns (output: seq<string>)
    requires forall t | t in texts :: t != ""
    ensures output == Pack(texts, MAX_CHARS)
  {
    output := [];
    var chars: nat := 0;
    ghost var whole := Pack(texts, MAX_CHARS);
    assert texts[0..] == texts;
    for i := 0 to |texts|
      invariant chars <= MAX_CHARS && (output == [] <==> i == 0) && (i == 0 ==> chars == 0)
      invariant output + Pack(texts[i..], Room(chars, output == [])) == whole
    {
      var separator := if output == [] then 0 else 1;
      if chars + separator >= MAX_CHARS {
        break;
      }
      WriteStep(texts, i, output, chars, output == []);
      var line := Fit(texts[i], MAX_CHARS - chars - separator);
      chars := chars + separator + |line|;
      output := output + [line];
    }
  }

  /** At most `room` characters, and never a separator at the cut. */
  function Clip(joined: string, room: nat): (t: string)
    ensures |t| <= room && t <= joined
  {
    if |joined| <= room then joined
    else if room > 0 && joined[room - 1] == '\n' then joined[..room - 1]
    else joined[..room]
  }

  lemma {:induction false} PackIsClip(texts: seq<string>, room: nat)
    requires forall t | t in texts :: IsLine(t)
    ensures Join(Pack(texts, room), '\n') == Clip(Join(texts, '\n'), room)
  {
    if texts != [] && room > 0 {
      assert texts[0] in texts && forall t | t in texts[1..] :: t in texts;
      if |texts[0]| >= room {
        ClipWithinFirst(texts, room);
      } else if |texts| > 1 {
        assert texts[1] in texts;
        PackIsClip(texts[1..], room - |texts[0]| - 1);
        ClipAfterFirst(texts, room);
      }
    }
  }

  lemma ClipWithinFirst(texts: seq<string>, room: nat)
    requires texts != [] && 0 < room <= |texts[0]| && IsLine(texts[0])
    ensures Join(Pack(texts, room), '\n') == Clip(Join(texts, '\n'), room)
  {
    ClipWithinLine(texts[0], Join(texts, '\n'), room);
  }

  lemma ClipAfterFirst(texts: seq<string>, room: nat)
    requires |texts| > 1 && |texts[0]| < room && IsLine(texts[0]) && IsLine(texts[1])
    requires
      var left := room - |texts[0]| - 1;
      Join(Pack(texts[1..], left), '\n') == Clip(Join(texts[1..], '\n'), left)
    ensures Join(Pack(texts, room), '\n') == Clip(Join(texts, '\n'), room)
  {
    var t, rest, left := texts[0], texts[1..], room - |texts[0]| - 1;
    RestIsLonger(rest);
    ClipAfterLine(t, Join(rest, '\n'), room);
    if left > 0 {
      JoinFirst(t, Pack(rest, left), '\n');
    }
  }

  lemma ClipWithinLine(line: string, joined: string, room: nat)
    requires 0 < room <= |line| && line <= joined && '\n' !in line
    ensures Clip(joined, room) == line[..room]
  {
    assert joined[..room] == line[..room] && joined[room - 1] == line[room - 1];
  }

  lemma ClipAfterLine(line: string, rest: string, room: nat)
    requires |line| < room && rest != "" && '\n' !in line && line != ""
    ensures
      var left := room - |line| - 1;
      Clip(line + ['\n'] + rest, room) == if left == 0 then line else line + ['\n'] + Clip(rest, left)
  {
    var whole, left := line + ['\n'] + rest, room - |line| - 1;
    if left == 0 {
      assert whole[room - 1] == '\n' && whole[..room - 1] == line;
    } else if |rest| > left {
      assert whole[room - 1] == rest[left - 1];
      assert whole[..room - 1] == line + ['\n'] + rest[..left - 1];
      assert whole[..room] == line + ['\n'] + rest[..left];
    }
  }

  lemma RestIsLonger(texts: seq<string>)
    requires texts != [] && texts[0] != ""
    ensures Join(texts, '\n') != ""
  {
  }

  /** The output is a prefix of the lines, of which only the last may be cut. */
  lemma {:induction false} PackShape(texts: seq<string>, room: nat)
    requires forall t | t in texts :: t != ""
    ensures
      var output := Pack(texts, room);
      && |output| <= |texts|
      && (forall k | 0 <= k < |output| :: output[k] != "" && output[k] <= texts[k])
      && (forall k | 0 <= k < |output| - 1 :: output[k] == texts[k])
  {
    if texts != [] && room > 0 {
      assert texts[0] in texts;
      if |texts[0]| < room {
        var rest := texts[1..];
        assert forall t | t in rest :: t in texts;
        PackShape(rest, room - |texts[0]| - 1);
        assert forall k | 1 <= k < |texts| :: texts[k] == rest[k - 1];
      }
    }
  }

  /** A line is left out or cut only because the room is used up, to the last character
      if it is cut. */
  lemma {:induction false} PackFills(texts: seq<string>, room: nat)
    ensures
      var output := Pack(texts, room);
      && (|output| < |texts| ==> Extent(output) >= room)
      && (output <= texts || Extent(output) == room + 1)
  {
    if texts != [] && room > 0 {
      if |texts[0]| < room {
        var rest := texts[1..];
        var tail := Pack(rest, room - |texts[0]| - 1);
        PackFills(rest, room - |texts[0]| - 1);
        var output := [texts[0]] + tail;
        assert output[1..] == tail;
        if tail <= rest {
          assert texts == [texts[0]] + rest;
          assert output <= texts;
        }
      } else {
        assert [texts[0][..room]][1..] == [];
      }
    }
  }

  // -------------------------------------------------------------- projection

  function Texts(cs: seq<Candidate>): (texts: seq<string>)
    ensures |texts| == |cs| && forall i | 0 <= i < |cs| :: texts[i] == cs[i].text
  {
    seq(|cs|, i requires 0 <= i < |cs| => cs[i].text)
  }

  function Candidates(r: Rules, texts: seq<string>): seq<Candidate> {
    CandidatesUpTo(r, texts, |texts|)
  }

  function Best(r: Rules, texts: seq<string>): seq<Candidate> {
    TopRanked(Candidates(r, texts), Candidates(r, texts), MAX_LINES)
  }

  function Top(r: Rules, raw: string): seq<Candidate> {
    Best(r, Compacted(r, raw))
  }

  /** The projection: the best lines in source order, joined and clipped. */
  function Salient(r: Rules, raw: string): Option<string> {
    var kept := Texts(Top(r, raw));
    if kept == [] then None else Some(Clip(Join(kept, '\n'), MAX_CHARS))
  }

  /** White space as Unicode has it, as far as it matters here. */
  ghost predicate Spaces(r: Rules) {
    r.ws(' ') && r.ws('\n') && r.ws('\r')
  }

  lemma KeptAreLines(r: Rules, raw: string)
    requires Spaces(r)
    ensures forall t | t in Texts(Top(r, raw)) :: IsLine(t) && Compact(t, r.ws) == t
  {
    var top := Top(r, raw);
    forall k | 0 <= k < |top| ensures IsLine(top[k].text) && Compact(top[k].text, r.ws) == top[k].text {
      assert top[k] in top;
      var line := Lines(raw)[top[k].index];
      assert top[k].text == Compact(line, r.ws);
      CompactIsLine(line, r.ws);
      CompactIdempotent(line, r.ws);
    }
  }

  /** salient_ocr_from_raw. */
  method SalientOcrFromRaw(r: Rules, raw: string) returns (result: Option<string>)
    requires Spaces(r)
    ensures result == Salient(r, raw)
  {
    var cs := Scan(r, Compacted(r, raw));
    var kept := Select(cs);
    KeptAreLines(r, raw);
    var output := Write(Texts(kept));
    PackIsClip(Texts(kept), MAX_CHARS);
    PackShape(Texts(kept), MAX_CHARS);
    result := if output == [] then None else Some(Join(output, '\n'));
  }

  // ---------------------------------------------------------------- fixpoint

  /** Text that is already a projection. */
  ghost predicate Settled(r: Rules, t: string) {
    var lines := Lines(t);
    && 0 < |t| <= 1_500 && |lines| <= 24 && Join(lines, '\n') == t
    && forall i | 0 <= i < |lines| :: IsCandidate(r, lines, i) && Compact(lines[i], r.ws) == lines[i]
  }

  /** The kept lines are pairwise distinct candidates in their own right. */
  lemma KeptAreCandidates(r: Rules, raw: string, m: nat)
    requires Spaces(r) && m <= |Top(r, raw)|
    ensures forall i | 0 <= i < m :: IsCandidate(r, Texts(Top(r, raw))[..m], i)
  {
    var texts, top := Compacted(r, raw), Top(r, raw);
    var lines := Texts(top)[..m];
    TopRankedInOrder(Candidates(r, texts), Candidates(r, texts), MAX_LINES);
    forall i | 0 <= i < m ensures IsCandidate(r, lines, i) {
      assert top[i] in top && IsCandidate(r, texts, top[i].index);
      forall j | 0 <= j < i ensures r.lower(lines[j]) != r.lower(lines[i]) {
        assert top[j] in top && IsCandidate(r, texts, top[j].index);
      }
    }
  }

  lemma AtMostTopLines(r: Rules, raw: string)
    ensures |Top(r, raw)| <= MAX_LINES
  {
    AtMostRanked(Candidates(r, Compacted(r, raw)), MAX_LINES);
  }

  lemma PrefixSettles(r: Rules, raw: string, m: nat)
    requires Spaces(r) && 0 < m <= |Top(r, raw)| && |Join(Texts(Top(r, raw))[..m], '\n')| <= MAX_CHARS
    ensures Settled(r, Join(Texts(Top(r, raw))[..m], '\n'))
  {
    var lines := Texts(Top(r, raw))[..m];
    KeptAreLines(r, raw);
    KeptAreCandidates(r, raw, m);
    AtMostTopLines(r, raw);
    assert forall t | t in lines :: t in Texts(Top(r, raw));
    LinesOfJoin(lines);
    assert lines[0] in lines;
    RestIsLonger(lines);
  }

  // Settled text is its own projection.

  /** Every line as a candidate. */
  function AllAt(r: Rules, texts: seq<string>): (cs: seq<Candidate>)
    ensures |cs| == |texts| && forall i | 0 <= i < |texts| :: cs[i] == At(r, texts, i)
  {
    seq(|texts|, i requires 0 <= i < |texts| => At(r, texts, i))
  }

  lemma EveryLineACandidate(r: Rules, texts: seq<string>)
    requires forall i | 0 <= i < |texts| :: IsCandidate(r, texts, i)
    ensures Candidates(r, texts) == AllAt(r, texts)
  {
    var cs, all := Candidates(r, texts), AllAt(r, texts);
    forall c ensures c in cs <==> c in all {
      if c in all {
        var i :| 0 <= i < |all| && all[i] == c;
        assert IsCandidate(r, texts, i);
      }
      if c in cs {
        assert all[c.index] == c;
      }
    }
    SameElementsSameOrder(cs, all);
  }

  lemma TextsSnoc(cs: seq<Candidate>, c: Candidate)
    ensures Texts(cs + [c]) == Texts(cs) + [c.text]
  {
  }

  lemma RankBelowLength(cs: seq<Candidate>, c: Candidate)
    requires IndexOrdered(cs) && c in cs
    ensures Rank(cs, c) < |cs|
  {
    ElementsOfOrdered(Earlier, cs);
    var all := set d | d in cs;
    assert Ahead(cs, c) <= all - {c};
    SubsetSize(Ahead(cs, c), all - {c});
  }

  lemma {:induction false} SubsetSize<T>(a: set<T>, b: set<T>)
    requires a <= b
    ensures |a| <= |b|
  {
    if a != {} {
      var x :| x in a;
      SubsetSize(a - {x}, b - {x});
    }
  }

  lemma SettledIsFixed(r: Rules, t: string)
    requires Settled(r, t)
    ensures Salient(r, t) == Some(t)
  {
    CompactedAlready(r, t);
    LinesAllKept(r, Lines(t));
  }

  lemma CompactedAlready(r: Rules, t: string)
    requires Settled(r, t)
    ensures Compacted(r, t) == Lines(t)
  {
  }

  lemma LinesAllKept(r: Rules, lines: seq<string>)
    requires |lines| <= MAX_LINES && forall i | 0 <= i < |lines| :: IsCandidate(r, lines, i)
    ensures Texts(Best(r, lines)) == lines
  {
    EveryLineACandidate(r, lines);
    AllRanked(AllAt(r, lines));
    assert Texts(AllAt(r, lines)) == lines;
  }

  /** With no more candidates than lines allowed, all are kept. */
  lemma AllRanked(cs: seq<Candidate>)
    requires IndexOrdered(cs) && |cs| <= MAX_LINES
    ensures TopRanked(cs, cs, MAX_LINES) == cs
  {
    forall c | c in cs ensures Rank(cs, c) < MAX_LINES {
      RankBelowLength(cs, c);
    }
    TopRankedInOrder(cs, cs, MAX_LINES);
    SameElementsSameOrder(TopRanked(cs, cs, MAX_LINES), cs);
  }

  // A fixed point lost nothing to the selection or the cut.

  lemma OneMoreText(cs: seq<Candidate>, c: Candidate)
    ensures Extent(Texts(cs + [c])) == Extent(Texts(cs)) + |c.text| + 1
  {
    TextsSnoc(cs, c);
    ExtentSnoc(Texts(cs), c.text);
  }

  lemma {:induction false} CandidatesExtent(r: Rules, lines: seq<string>, texts: seq<string>, n: nat)
    requires n <= |texts| == |lines| && forall i | 0 <= i < |texts| :: |texts[i]| <= |lines[i]|
    ensures Extent(Texts(CandidatesUpTo(r, texts, n))) <= Extent(lines[..n])
  {
    if n > 0 {
      CandidatesExtent(r, lines, texts, n - 1);
      assert lines[..n] == lines[..n - 1] + [lines[n - 1]];
      ExtentSnoc(lines[..n - 1], lines[n - 1]);
      if IsCandidate(r, texts, n - 1) {
        OneMoreText(CandidatesUpTo(r, texts, n - 1), At(r, texts, n - 1));
      } else {
        assert CandidatesUpTo(r, texts, n) == CandidatesUpTo(r, texts, n - 1);
      }
    }
  }

  lemma {:induction false} TopExtent(cs: seq<Candidate>, all: seq<Candidate>, k: nat)
    ensures Extent(Texts(TopRanked(cs, all, k))) <= Extent(Texts(cs))
  {
    if cs != [] {
      var front, last := cs[..|cs| - 1], cs[|cs| - 1];
      TopExtent(front, all, k);
      assert cs == front + [last];
      OneMoreText(front, last);
      var top := TopRanked(front, all, k);
      if Rank(all, last) < k {
        OneMoreText(top, last);
      } else {
        assert TopRanked(cs, all, k) == top;
      }
    }
  }

  lemma ProjectionShrinks(r: Rules, raw: string)
    requires Top(r, raw) != []
    ensures |Join(Texts(Top(r, raw)), '\n')| <= |raw|
  {
    var texts := Compacted(r, raw);
    var cs := Candidates(r, texts);
    forall i | 0 <= i < |texts| ensures |texts[i]| <= |Lines(raw)[i]| {
      CompactShrinks(Lines(raw)[i], r.ws);
    }
    CandidatesExtent(r, Lines(raw), texts, |texts|);
    assert Lines(raw)[..|texts|] == Lines(raw);
    TopExtent(cs, cs, MAX_LINES);
    LinesExtent(raw);
    JoinLength(Texts(Top(r, raw)), '\n');
  }

  /** Exactly the settled texts are fixed points. */
  lemma FixpointsExactly(r: Rules, t: string)
    requires Spaces(r)
    ensures Salient(r, t) == Some(t) <==> Settled(r, t)
  {
    if Settled(r, t) {
      SettledIsFixed(r, t);
    }
    if Salient(r, t) == Some(t) {
      var kept := Texts(Top(r, t));
      ProjectionShrinks(r, t);
      assert kept[..|kept|] == kept;
      PrefixSettles(r, t, |kept|);
    }
  }

  /** If no line was cut, projecting the projection changes nothing, whether or not
      later lines were dropped for want of room. */
  lemma UncutOutputIsFixed(r: Rules, raw: string)
    requires Spaces(r)
    ensures
      var kept := Texts(Top(r, raw));
      var output := Pack(kept, MAX_CHARS);
      kept != [] && output == kept[..Min(|output|, |kept|)] ==>
        Salient(r, raw).Some? && Salient(r, Salient(r, raw).value) == Salient(r, raw)
  {
    var kept := Texts(Top(r, raw));
    var output := Pack(kept, MAX_CHARS);
    if kept != [] && output == kept[..Min(|output|, |kept|)] {
      KeptAreLines(r, raw);
      PackIsClip(kept, MAX_CHARS);
      PackShape(kept, MAX_CHARS);
      PrefixSettles(r, raw, |output|);
      SettledIsFixed(r, Join(output, '\n'));
    }
  }

  // -------------------------------------------------------- device projection

  /** The device's text without white space at its ends. */
  function Given(r: Rules, provided: Option<string>): string {
    if provided.Some? then Trim(provided.value, r.ws) else ""
  }

  function Take(t: string, n: nat): string {
    if |t| > n then t[..n] else t
  }

  function SelectSalientOcr(r: Rules, raw: Option<string>, provided: Option<string>): Option<string> {
    if Given(r, provided) != "" then Some(Take(Given(r, provided), MAX_PROVIDED))
    else if raw.None? then None
    else Salient(r, raw.value)
  }

  lemma TrimmedIsBlank(t: string, ws: char -> bool)
    ensures Trim(t, ws) == "" <==> forall i | 0 <= i < |t| :: ws(t[i])
  {
    var start := TrimExact(t, ws);
    if Trim(t, ws) != "" {
      assert !ws(t[start..start + |Trim(t, ws)|][0]);
      assert !ws(t[start]);
    }
  }

  ghost predicate BlankText(r: Rules, t: Option<string>) {
    t.None? || forall i | 0 <= i < |t.value| :: r.ws(t.value[i])
  }

  lemma GivenIsBlank(r: Rules, provided: Option<string>)
    ensures Given(r, provided) == "" <==> BlankText(r, provided)
  {
    if provided.Some? {
      TrimmedIsBlank(provided.value, r.ws);
    }
  }

  lemma TakeIsPrefix(t: string, n: nat)
    ensures Take(t, n) <= t && |Take(t, n)| == Min(|t|, n)
  {
  }

  /** Any text the device sent that is not blank wins, whatever the raw text: it is
      trimmed and kept up to its first 4,000 characters. A blank one counts as none. The
      result is never empty and always bounded. */
  lemma DeviceProjectionWins(r: Rules, raw: Option<string>, provided: Option<string>)
    requires Spaces(r)
    ensures
      var result := SelectSalientOcr(r, raw, provided);
      if BlankText(r, provided) then
        && result == (if raw.Some? then Salient(r, raw.value) else None)
        && (result.Some? ==> 0 < |result.value| <= 1_500)
      else
        && result.Some? && result.value != "" && result.value <= Given(r, provided)
        && |result.value| == Min(|Given(r, provided)|, 4_000)
        && exists start :: TrimmedAt(provided.value, Given(r, provided), r.ws, start)
  {
    if provided.Some? {
      var start := TrimExact(provided.value, r.ws);
    }
    GivenIsBlank(r, provided);
    TakeIsPrefix(Given(r, provided), MAX_PROVIDED);
    if raw.Some? {
      SalientIsBounded(r, raw.value);
    }
  }

  lemma SalientIsBounded(r: Rules, raw: string)
    requires Spaces(r)
    ensures Salient(r, raw).Some? ==> 0 < |Salient(r, raw).value| <= 1_500
  {
    var kept := Texts(Top(r, raw));
    if kept != [] {
      KeptAreLines(r, raw);
      assert kept[0] in kept;
      RestIsLonger(kept);
      ClipLeavesSome(Join(kept, '\n'), MAX_CHARS);
    }
  }

  lemma ClipLeavesSome(joined: string, room: nat)
    requires joined != "" && room > 1
    ensures Clip(joined, room) != ""
  {
  }
}
